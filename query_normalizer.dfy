/**
 * The query normalisation pass: every reachable parameter reference in a
 * filter tree is replaced by the query's value for it, nested queries are
 * inlined, and a subtree without parameters is kept as it was.
 */
module QueryNormalizer {
  import opened Wrappers
  import opened Values
  import opened QueryAst

  /**
   * Whether eval meets a parameter in v: it looks inside lists, sets, other
   * collections and map values, but not inside an Object[] or a Bind.
   */
  predicate HasParam(v: Value)
    decreases v
  {
    match v
    case VParam(_) => true
    case VList(k, items) => k != JArray && exists i :: 0 <= i < |items| && HasParam(items[i])
    case VMap(es) => exists i :: 0 <= i < |es| && HasParam(es[i].val)
    case _ => false
  }

  /** Whether eval meets a parameter that q does not define. */
  predicate MissesParam(q: Query, v: Value)
    decreases v
  {
    match v
    case VParam(n) => !HasKey(q.params, n)
    case VList(k, items) => k != JArray && exists i :: 0 <= i < |items| && MissesParam(q, items[i])
    case VMap(es) => exists i :: 0 <= i < |es| && MissesParam(q, es[i].val)
    case _ => false
  }

  /**
   * eval: a parameter becomes the query's value for it; a list or other
   * collection in which something changed becomes a fresh List, a map a
   * fresh map in the same key order; anything else is kept as it is.
   */
  function EvalV(q: Query, v: Value): (r: Result<Value>)
    ensures r.Ok? && v.VList? && v.kind != JArray ==> r.value.VList? && |r.value.items| == |v.items|
    ensures r.Ok? && v.VMap? ==> r.value.VMap? && |r.value.entries| == |v.entries|
    decreases v, 1
  {
    match v
    case VParam(n) => Param(q, n)
    case VList(k, items) =>
      if k == JArray then Ok(v)
      else
        var out :- EvalItems(q, v, |items|);
        Ok(if HasParam(v) then VList(JList, out) else v)
    case VMap(es) =>
      var out :- EvalEntries(q, v, |es|);
      Ok(if HasParam(v) then VMap(out) else v)
    case _ => Ok(v)
  }

  /** The first n items of a collection, evaluated left to right; the first failure wins. */
  function EvalItems(q: Query, v: Value, n: nat): (r: Result<seq<Value>>)
    requires v.VList? && n <= |v.items|
    ensures r.Ok? ==> |r.value| == n
    decreases v, 0, n
  {
    if n == 0 then Ok([])
    else
      var prefix :- EvalItems(q, v, n - 1);
      var x :- EvalV(q, v.items[n - 1]);
      Ok(prefix + [x])
  }

  /** The first n entries of a map with their values evaluated; keys are kept. */
  function EvalEntries(q: Query, v: Value, n: nat): (r: Result<seq<Entry>>)
    requires v.VMap? && n <= |v.entries|
    ensures r.Ok? ==> |r.value| == n
    decreases v, 0, n
  {
    if n == 0 then Ok([])
    else
      var prefix :- EvalEntries(q, v, n - 1);
      var x :- EvalV(q, v.entries[n - 1].val);
      Ok(prefix + [Entry(v.entries[n - 1].key, x)])
  }

  /**
   * The eval loop: the value and, like Java's identity check, whether the
   * result is a new object.
   */
  method Eval(q: Query, v: Value) returns (r: Result<Value>, changed: bool)
    ensures r == EvalV(q, v)
    ensures r.Ok? ==> changed == HasParam(v)
    decreases v, 1
  {
    match v
    case VParam(n) =>
      r := Param(q, n);
      changed := true;
    case VList(k, items) =>
      if k == JArray {
        return Ok(v), false;
      }
      r, changed := EvalList(q, v);
    case VMap(es) =>
      r, changed := EvalMap(q, v);
    case _ =>
      r := Ok(v);
      changed := false;
  }

  /** The loop over a list or other collection: a fresh List only when something changed. */
  method EvalList(q: Query, v: Value) returns (r: Result<Value>, changed: bool)
    requires v.VList? && v.kind != JArray
    ensures r == EvalV(q, v)
    ensures r.Ok? ==> changed == HasParam(v)
    decreases v, 0
  {
    var items := v.items;
    var out: seq<Value> := [];
    changed := false;
    var i := 0;
    while i < |items|
      invariant 0 <= i <= |items|
      invariant EvalItems(q, v, i) == Ok(out)
      invariant changed <==> exists j :: 0 <= j < i && HasParam(items[j])
    {
      var nx, c := Eval(q, items[i]);
      if nx.Err? {
        ItemsFailureSticks(q, v, i + 1, |items|);
        return Err(nx.error), false;
      }
      changed := changed || c;
      out := out + [nx.value];
      i := i + 1;
    }
    r := Ok(if changed then VList(JList, out) else v);
  }

  /** The loop over a map's entries: a fresh map, in the same key order, only when something changed. */
  method EvalMap(q: Query, v: Value) returns (r: Result<Value>, changed: bool)
    requires v.VMap?
    ensures r == EvalV(q, v)
    ensures r.Ok? ==> changed == HasParam(v)
    decreases v, 0
  {
    var es := v.entries;
    var out: seq<Entry> := [];
    changed := false;
    var i := 0;
    while i < |es|
      invariant 0 <= i <= |es|
      invariant EvalEntries(q, v, i) == Ok(out)
      invariant changed <==> exists j :: 0 <= j < i && HasParam(es[j].val)
    {
      var nx, c := Eval(q, es[i].val);
      if nx.Err? {
        EntriesFailureSticks(q, v, i + 1, |es|);
        return Err(nx.error), false;
      }
      assert EvalEntries(q, v, i + 1) == Ok(out + [Entry(es[i].key, nx.value)]);
      changed := changed || c;
      out := out + [Entry(es[i].key, nx.value)];
      i := i + 1;
    }
    r := Ok(if changed then VMap(out) else v);
  }

  /** eval keeps a map's keys and their order. */
  lemma {:induction false} EvalKeepsKeys(q: Query, v: Value, n: nat)
    requires v.VMap? && n <= |v.entries| && EvalEntries(q, v, n).Ok?
    ensures forall i :: 0 <= i < n ==> EvalEntries(q, v, n).value[i].key == v.entries[i].key
    decreases n
  {
    if n > 0 {
      EvalKeepsKeys(q, v, n - 1);
    }
  }

  /** The values of q's params contain no parameter references themselves. */
  predicate ParamsResolved(q: Query)
  {
    forall i :: 0 <= i < |q.params| ==> !HasParam(q.params[i].val)
  }

  /** eval fails exactly when it meets a parameter q does not define. */
  lemma {:induction false} EvalFails(q: Query, v: Value)
    ensures EvalV(q, v).Err? <==> MissesParam(q, v)
    ensures EvalV(q, v).Err? ==> EvalV(q, v).error.IllegalArgument?
    decreases v, 1
  {
    match v
    case VList(k, items) =>
      if k != JArray {
        EvalItemsFail(q, v, |items|);
      }
    case VMap(es) =>
      EvalEntriesFail(q, v, |es|);
    case _ =>
  }

  lemma {:induction false} EvalItemsFail(q: Query, v: Value, n: nat)
    requires v.VList? && n <= |v.items|
    ensures EvalItems(q, v, n).Err? <==> exists i :: 0 <= i < n && MissesParam(q, v.items[i])
    ensures EvalItems(q, v, n).Err? ==> EvalItems(q, v, n).error.IllegalArgument?
    decreases v, 0, n
  {
    if n > 0 {
      EvalItemsFail(q, v, n - 1);
      EvalFails(q, v.items[n - 1]);
    }
  }

  lemma {:induction false} EvalEntriesFail(q: Query, v: Value, n: nat)
    requires v.VMap? && n <= |v.entries|
    ensures EvalEntries(q, v, n).Err? <==> exists i :: 0 <= i < n && MissesParam(q, v.entries[i].val)
    ensures EvalEntries(q, v, n).Err? ==> EvalEntries(q, v, n).error.IllegalArgument?
    decreases v, 0, n
  {
    if n > 0 {
      EvalEntriesFail(q, v, n - 1);
      EvalFails(q, v.entries[n - 1].val);
    }
  }

  /** A failure in the first n items is the failure of the whole collection. */
  lemma {:induction false} ItemsFailureSticks(q: Query, v: Value, n: nat, m: nat)
    requires v.VList? && n <= m <= |v.items|
    requires EvalItems(q, v, n).Err?
    ensures EvalItems(q, v, m) == EvalItems(q, v, n)
    decreases m
  {
    if m > n {
      ItemsFailureSticks(q, v, n, m - 1);
    }
  }

  lemma {:induction false} EntriesFailureSticks(q: Query, v: Value, n: nat, m: nat)
    requires v.VMap? && n <= m <= |v.entries|
    requires EvalEntries(q, v, n).Err?
    ensures EvalEntries(q, v, m) == EvalEntries(q, v, n)
    decreases m
  {
    if m > n {
      EntriesFailureSticks(q, v, n, m - 1);
    }
  }

  /** A missing param is a param. */
  lemma {:induction false} MissesIsHas(q: Query, v: Value)
    requires MissesParam(q, v)
    ensures HasParam(v)
    decreases v
  {
    match v
    case VList(k, items) =>
      var i :| 0 <= i < |items| && MissesParam(q, items[i]);
      MissesIsHas(q, items[i]);
    case VMap(es) =>
      var i :| 0 <= i < |es| && MissesParam(q, es[i].val);
      MissesIsHas(q, es[i].val);
    case _ =>
  }

  /** A value without parameters is returned as it is (the identical object in Java). */
  lemma {:induction false} EvalKeepsParamFree(q: Query, v: Value)
    requires !HasParam(v)
    ensures EvalV(q, v) == Ok(v)
    decreases v, 1
  {
    EvalFails(q, v);
    if MissesParam(q, v) {
      MissesIsHas(q, v);
    }
  }

  /**
   * When q's param values hold no references themselves, eval leaves no
   * reachable reference behind.
   */
  lemma {:induction false} EvalResolves(q: Query, v: Value)
    requires ParamsResolved(q)
    requires EvalV(q, v).Ok?
    ensures !HasParam(EvalV(q, v).value)
    decreases v, 1
  {
    match v
    case VParam(n) =>
      var i :| 0 <= i < |q.params| && q.params[i] == Entry(n, EvalV(q, v).value);
    case VList(k, items) =>
      if k != JArray && HasParam(v) {
        EvalItemsResolve(q, v, |items|);
      }
    case VMap(es) =>
      if HasParam(v) {
        EvalEntriesResolve(q, v, |es|);
      }
    case _ =>
  }

  lemma {:induction false} EvalItemsResolve(q: Query, v: Value, n: nat)
    requires ParamsResolved(q)
    requires v.VList? && n <= |v.items| && EvalItems(q, v, n).Ok?
    ensures forall i :: 0 <= i < n ==> !HasParam(EvalItems(q, v, n).value[i])
    decreases v, 0, n
  {
    if n > 0 {
      EvalItemsResolve(q, v, n - 1);
      EvalResolves(q, v.items[n - 1]);
    }
  }

  lemma {:induction false} EvalEntriesResolve(q: Query, v: Value, n: nat)
    requires ParamsResolved(q)
    requires v.VMap? && n <= |v.entries| && EvalEntries(q, v, n).Ok?
    ensures forall i :: 0 <= i < n ==> !HasParam(EvalEntries(q, v, n).value[i].val)
    decreases v, 0, n
  {
    if n > 0 {
      EvalEntriesResolve(q, v, n - 1);
      EvalResolves(q, v.entries[n - 1].val);
    }
  }

  /** A set or other collection that holds a reference comes back as a List. */
  lemma SetsBecomeLists(q: Query, k: Coll, items: seq<Value>)
    requires k != JArray && HasParam(VList(k, items))
    requires EvalV(q, VList(k, items)).Ok?
    ensures EvalV(q, VList(k, items)).value.kind == JList
  {
  }

  /** What normalising an element did: nothing (the identical element), or a replacement, possibly null. */
  datatype Outcome = Same | Changed(result: Option<Element>)

  /** The element that stands after normalisation. */
  function Yield(o: Outcome, el: Element): (r: Option<Element>)
    ensures o.Same? ==> r == Some(el)
  {
    if o.Same? then Some(el) else o.result
  }

  /** The children that remain, in order, after the null ones are dropped. */
  function Somes(xs: seq<Option<Element>>): (r: seq<Element>)
    ensures |r| <= |xs|
    ensures r == [] <==> forall i :: 0 <= i < |xs| ==> xs[i].None?
  {
    if xs == [] then []
    else
      var r := Somes(xs[..|xs| - 1]);
      assert forall i :: 0 <= i < |xs| - 1 ==> xs[..|xs| - 1][i] == xs[i];
      if xs[|xs| - 1].Some? then r + [xs[|xs| - 1].value] else r
  }

  /** The group's child list after the changed children are set in place. */
  function Slots(es: seq<Element>, outs: seq<Outcome>): (r: seq<Option<Element>>)
    requires |es| == |outs|
    ensures |r| == |es|
    ensures forall i :: 0 <= i < |es| ==> r[i] == Yield(outs[i], es[i])
  {
    if es == [] then []
    else Slots(es[..|es| - 1], outs[..|outs| - 1]) + [Yield(outs[|outs| - 1], es[|es| - 1])]
  }

  /** An empty list gives null, one element is returned bare, more are regrouped. */
  function Collapse(clause: Clause, kept: seq<Element>): Option<Element>
  {
    if kept == [] then None
    else if |kept| == 1 then Some(kept[0])
    else Some(Group(clause, kept))
  }

  const UnsupportedGroupBy := "Unsupported QueryElement: io.intellixity.nativa.persistence.query.aggregation.GroupBy"

  /** normalizeElement, with q the query whose params are in scope. */
  function NormElement(q: Query, el: Element): (r: Result<Outcome>)
    decreases el, 1
  {
    match el
    case Nested(inner) =>
      var o :- NormalizeQuery(inner);
      Ok(Changed(o))
    case Not(child) =>
      var o :- NormElement(q, child);
      Ok(match o
         case Same => Same
         case Changed(None) => Changed(None)
         case Changed(Some(c)) => Changed(Some(Not(c))))
    case Group(clause, es) =>
      var outs :- NormChildren(q, el, |es|);
      Ok(if forall i :: 0 <= i < |outs| ==> outs[i].Same? then Same
         else Changed(Collapse(clause, Somes(Slots(es, outs)))))
    case Condition(p, op, v, lo, hi, nt) =>
      var v' :- EvalV(q, v);
      var lo' :- EvalV(q, lo);
      var hi' :- EvalV(q, hi);
      Ok(if v' == v && lo' == lo && hi' == hi then Same else Changed(Some(Condition(p, op, v', lo', hi', nt))))
    case GroupBy(_) => Err(IllegalArgument(UnsupportedGroupBy))
  }

  /** The first n children of a group, normalised left to right; the first failure wins. */
  function NormChildren(q: Query, g: Element, n: nat): (r: Result<seq<Outcome>>)
    requires g.Group? && n <= |g.elements|
    ensures r.Ok? ==> |r.value| == n
    decreases g, 0, n
  {
    if n == 0 then Ok([])
    else
      var prefix :- NormChildren(q, g, n - 1);
      var o :- NormElement(q, g.elements[n - 1]);
      Ok(prefix + [o])
  }

  /** A failure among the first n children is the failure of the whole group. */
  lemma {:induction false} ChildrenFailureSticks(q: Query, g: Element, n: nat, m: nat)
    requires g.Group? && n <= m <= |g.elements|
    requires NormChildren(q, g, n).Err?
    ensures NormChildren(q, g, m) == NormChildren(q, g, n)
    decreases m
  {
    if m > n {
      ChildrenFailureSticks(q, g, n, m - 1);
    }
  }

  /** normalize on a query: its filter normalised against its own params. */
  function NormalizeQuery(q: Query): (r: Result<Option<Element>>)
    ensures q.filter.None? ==> r == Ok(None)
    decreases q, 2
  {
    match q.filter
    case None => Ok(None)
    case Some(f) =>
      var o :- NormElement(q, f);
      Ok(Yield(o, f))
  }

  /** normalize: a null query normalises to null. */
  function Normalize(query: Option<Query>): (r: Result<Option<Element>>)
    ensures query.None? || query.value.filter.None? ==> r == Ok(None)
  {
    if query.None? then Ok(None) else NormalizeQuery(query.value)
  }

  /**
   * The recursive pass with its loops: children are normalised in order,
   * a copy of the list is taken at the first change and updated in place,
   * and the null children are then removed.
   */
  method NormalizeElement(q: Query, el: Element) returns (r: Result<Outcome>)
    ensures r == NormElement(q, el)
    decreases el, 1
  {
    match el
    case Nested(inner) =>
      var o := NormalizeFilter(inner);
      r := if o.Err? then Err(o.error) else Ok(Changed(o.value));
    case Not(child) =>
      var o := NormalizeElement(q, child);
      if o.Err? {
        return Err(o.error);
      }
      if o.value.Same? {
        return Ok(Same);
      }
      r := Ok(if o.value.result.None? then Changed(None) else Changed(Some(Not(o.value.result.value))));
    case Group(_, _) =>
      r := NormalizeGroup(q, el);
    case Condition(p, op, v, lo, hi, nt) =>
      var v', _ := Eval(q, v);
      if v'.Err? {
        return Err(v'.error);
      }
      var lo', _ := Eval(q, lo);
      if lo'.Err? {
        return Err(lo'.error);
      }
      var hi', _ := Eval(q, hi);
      if hi'.Err? {
        return Err(hi'.error);
      }
      if v'.value == v && lo'.value == lo && hi'.value == hi {
        return Ok(Same);
      }
      r := Ok(Changed(Some(Condition(p, op, v'.value, lo'.value, hi'.value, nt))));
    case GroupBy(_) =>
      r := Err(IllegalArgument(UnsupportedGroupBy));
  }

  /**
   * A group: children are normalised in order, a copy of the list is taken
   * at the first change and updated in place, and the null children are
   * then removed.
   */
  method NormalizeGroup(q: Query, el: Element) returns (r: Result<Outcome>)
    requires el.Group?
    ensures r == NormElement(q, el)
    decreases el, 0
  {
    var es := el.elements;
    var outs: seq<Outcome> := [];
    var out: seq<Option<Element>> := [];
    var changed := false;
    var i := 0;
    while i < |es|
      invariant 0 <= i <= |es|
      invariant NormChildren(q, el, i) == Ok(outs) && |outs| == i
      invariant changed <==> !AllSame(outs)
      invariant changed ==> SlotsSoFar(out, es, outs)
    {
      var nc := NormalizeElement(q, es[i]);
      ChildrenSnoc(q, el, i, outs);
      if nc.Err? {
        ChildrenFailureSticks(q, el, i + 1, |es|);
        return Err(nc.error);
      }
      AllSameSnoc(outs, nc.value);
      if !nc.value.Same? {
        if !changed {
          out := seq(|es|, j requires 0 <= j < |es| => Some(es[j]));
          SlotsStart(out, es, outs);
          changed := true;
        }
        SlotsStep(out, es, outs, nc.value);
        out := out[i := nc.value.result];
      } else if changed {
        SlotsStep(out, es, outs, nc.value);
      }
      outs := outs + [nc.value];
      i := i + 1;
    }
    GroupOutcome(q, el, outs);
    if !changed {
      return Ok(Same);
    }
    SlotsDone(out, es, outs);
    var kept := KeepPresent(out);
    r := Ok(Changed(Collapse(el.clause, kept)));
  }

  predicate AllSame(outs: seq<Outcome>)
  {
    forall i :: 0 <= i < |outs| ==> outs[i].Same?
  }

  lemma AllSameSnoc(outs: seq<Outcome>, o: Outcome)
    ensures AllSame(outs + [o]) <==> AllSame(outs) && o.Same?
  {
    assert forall i :: 0 <= i < |outs| ==> (outs + [o])[i] == outs[i];
    assert (outs + [o])[|outs|] == o;
  }

  /** The copy of the children list after the first |outs| children were normalised. */
  ghost predicate SlotsSoFar(out: seq<Option<Element>>, es: seq<Element>, outs: seq<Outcome>)
  {
    |outs| <= |es| == |out|
    && (forall j :: 0 <= j < |outs| ==> out[j] == Yield(outs[j], es[j]))
    && (forall j :: |outs| <= j < |es| ==> out[j] == Some(es[j]))
  }

  lemma SlotsStart(out: seq<Option<Element>>, es: seq<Element>, outs: seq<Outcome>)
    requires AllSame(outs) && |outs| <= |es|
    requires out == seq(|es|, j requires 0 <= j < |es| => Some(es[j]))
    ensures SlotsSoFar(out, es, outs)
  {
  }

  lemma SlotsStep(out: seq<Option<Element>>, es: seq<Element>, outs: seq<Outcome>, o: Outcome)
    requires SlotsSoFar(out, es, outs) && |outs| < |es|
    ensures o.Same? ==> SlotsSoFar(out, es, outs + [o])
    ensures !o.Same? ==> SlotsSoFar(out[|outs| := o.result], es, outs + [o])
  {
    assert forall j :: 0 <= j < |outs| ==> (outs + [o])[j] == outs[j];
  }

  lemma SlotsDone(out: seq<Option<Element>>, es: seq<Element>, outs: seq<Outcome>)
    requires SlotsSoFar(out, es, outs) && |outs| == |es|
    ensures out == Slots(es, outs)
  {
  }

  /** One more child normalised: its outcome is appended, or its failure is the group's. */
  lemma ChildrenSnoc(q: Query, g: Element, i: nat, outs: seq<Outcome>)
    requires g.Group? && i < |g.elements| && NormChildren(q, g, i) == Ok(outs)
    ensures NormElement(q, g.elements[i]).Err? ==> NormChildren(q, g, i + 1) == Err(NormElement(q, g.elements[i]).error)
    ensures NormElement(q, g.elements[i]).Ok? ==> NormChildren(q, g, i + 1) == Ok(outs + [NormElement(q, g.elements[i]).value])
  {
  }

  /** What a group normalises to once all its children have. */
  lemma GroupOutcome(q: Query, el: Element, outs: seq<Outcome>)
    requires el.Group? && NormChildren(q, el, |el.elements|) == Ok(outs)
    ensures NormElement(q, el) == Ok(if forall i :: 0 <= i < |outs| ==> outs[i].Same? then Same
                                     else Changed(Collapse(el.clause, Somes(Slots(el.elements, outs)))))
  {
  }

  /** The loop that removes the null children. */
  method KeepPresent(out: seq<Option<Element>>) returns (kept: seq<Element>)
    ensures kept == Somes(out)
  {
    kept := [];
    var j := 0;
    while j < |out|
      invariant 0 <= j <= |out|
      invariant kept == Somes(out[..j])
    {
      assert out[..j + 1][..j] == out[..j];
      if out[j].Some? {
        kept := kept + [out[j].value];
      }
      j := j + 1;
    }
    assert out[..|out|] == out;
  }

  /** normalize on a query, as a method. */
  method NormalizeFilter(q: Query) returns (r: Result<Option<Element>>)
    ensures r == NormalizeQuery(q)
    decreases q, 2
  {
    if q.filter.None? {
      return Ok(None);
    }
    var o := NormalizeElement(q, q.filter.value);
    r := if o.Err? then Err(o.error) else Ok(Yield(o.value, q.filter.value));
  }

  /** A tree with no reachable parameter, no nested query and no group-by. */
  predicate Plain(el: Element)
    decreases el
  {
    match el
    case Condition(_, _, v, lo, hi, _) => !HasParam(v) && !HasParam(lo) && !HasParam(hi)
    case Group(_, es) => forall i :: 0 <= i < |es| ==> Plain(es[i])
    case Not(e) => Plain(e)
    case Nested(_) => false
    case GroupBy(_) => false
  }

  /** A subtree without parameters or nested queries is returned as the identical element. */
  lemma {:induction false} PlainIsSame(q: Query, el: Element)
    requires Plain(el)
    ensures NormElement(q, el) == Ok(Same)
    decreases el, 1
  {
    match el
    case Condition(_, _, v, lo, hi, _) =>
      EvalKeepsParamFree(q, v);
      EvalKeepsParamFree(q, lo);
      EvalKeepsParamFree(q, hi);
    case Not(e) =>
      PlainIsSame(q, e);
    case Group(_, es) =>
      PlainChildrenSame(q, el, |es|);
  }

  lemma {:induction false} PlainChildrenSame(q: Query, g: Element, n: nat)
    requires g.Group? && n <= |g.elements| && Plain(g)
    ensures NormChildren(q, g, n).Ok?
    ensures forall i :: 0 <= i < n ==> NormChildren(q, g, n).value[i].Same?
    decreases g, 0, n
  {
    if n > 0 {
      PlainChildrenSame(q, g, n - 1);
      PlainIsSame(q, g.elements[n - 1]);
    }
  }

  /**
   * With params that hold no references, normalising a tree without nested
   * queries leaves a plain tree (or null): every reachable reference is resolved.
   */
  lemma {:induction false} NormalizedIsPlain(q: Query, el: Element)
    requires ParamsResolved(q)
    requires NoNested(el)
    requires NormElement(q, el).Ok?
    ensures Yield(NormElement(q, el).value, el).Some? ==> Plain(Yield(NormElement(q, el).value, el).value)
    decreases el, 1
  {
    match el
    case Condition(_, _, v, lo, hi, _) =>
      EvalResolves(q, v);
      EvalResolves(q, lo);
      EvalResolves(q, hi);
    case Not(e) =>
      NormalizedIsPlain(q, e);
    case Group(clause, es) =>
      ChildrenPlain(q, el, |es|);
      GroupPlain(q, el);
    case _ =>
  }

  lemma GroupPlain(q: Query, g: Element)
    requires g.Group? && NormChildren(q, g, |g.elements|).Ok?
    requires forall i :: 0 <= i < |g.elements| ==>
      var y := Yield(NormChildren(q, g, |g.elements|).value[i], g.elements[i]); y.Some? ==> Plain(y.value)
    ensures forall k :: 0 <= k < |Somes(Slots(g.elements, NormChildren(q, g, |g.elements|).value))| ==>
      Plain(Somes(Slots(g.elements, NormChildren(q, g, |g.elements|).value))[k])
  {
    var slots := Slots(g.elements, NormChildren(q, g, |g.elements|).value);
    SomesOf(slots);
  }

  /** No nested query or group-by anywhere in the tree. */
  predicate NoNested(el: Element)
    decreases el
  {
    match el
    case Condition(_, _, _, _, _, _) => true
    case Group(_, es) => forall i :: 0 <= i < |es| ==> NoNested(es[i])
    case Not(e) => NoNested(e)
    case Nested(_) => false
    case GroupBy(_) => false
  }

  lemma {:induction false} ChildrenPlain(q: Query, g: Element, n: nat)
    requires ParamsResolved(q)
    requires g.Group? && n <= |g.elements| && NoNested(g)
    requires NormChildren(q, g, n).Ok?
    ensures forall i :: 0 <= i < n ==>
      NormElement(q, g.elements[i]).Ok? && NormChildren(q, g, n).value[i] == NormElement(q, g.elements[i]).value
    ensures forall i :: 0 <= i < n ==>
      var y := Yield(NormChildren(q, g, n).value[i], g.elements[i]); y.Some? ==> Plain(y.value)
    decreases g, 0, n
  {
    if n > 0 {
      ChildrenPlain(q, g, n - 1);
      NormalizedIsPlain(q, g.elements[n - 1]);
    }
  }

  /** Every element that Somes keeps is one of its inputs. */
  lemma {:induction false} SomesOf(xs: seq<Option<Element>>)
    ensures forall k :: 0 <= k < |Somes(xs)| ==> exists i :: 0 <= i < |xs| && xs[i] == Some(Somes(xs)[k])
  {
    if xs != [] {
      var init := xs[..|xs| - 1];
      SomesOf(init);
      var last := xs[|xs| - 1];
      assert Somes(xs) == if last.Some? then Somes(init) + [last.value] else Somes(init);
      forall k | 0 <= k < |Somes(xs)|
        ensures exists i :: 0 <= i < |xs| && xs[i] == Some(Somes(xs)[k])
      {
        var r := Somes(xs);
        if k < |Somes(init)| {
          assert r[k] == Somes(init)[k];
          var i :| 0 <= i < |init| && init[i] == Some(Somes(init)[k]);
          assert xs[i] == init[i];
        } else {
          assert last.Some? && r[k] == last.value;
          assert xs[|xs| - 1] == Some(r[k]);
        }
      }
    } else {
      assert Somes(xs) == [];
    }
  }

  /** Normalisation keeps a condition's property, operator and not flag. */
  lemma ConditionKeepsShape(q: Query, p: string, op: Operator, v: Value, lo: Value, hi: Value, nt: bool)
    requires NormElement(q, Condition(p, op, v, lo, hi, nt)).Ok?
    ensures var y := Yield(NormElement(q, Condition(p, op, v, lo, hi, nt)).value, Condition(p, op, v, lo, hi, nt));
      y.Some? && y.value.Condition? && y.value.property == p && y.value.op == op && y.value.not == nt
  {
  }

  /** A condition whose value or bounds name an undefined param fails. */
  lemma ConditionMissingParam(q: Query, p: string, op: Operator, v: Value, lo: Value, hi: Value, nt: bool)
    requires MissesParam(q, v) || MissesParam(q, lo) || MissesParam(q, hi)
    ensures NormElement(q, Condition(p, op, v, lo, hi, nt)).Err?
  {
    EvalFails(q, v);
    EvalFails(q, lo);
    EvalFails(q, hi);
  }

  /**
   * A group that changed normalises to null exactly when every child
   * normalises to null, and to its one surviving child when only one survives.
   */
  lemma GroupCollapse(q: Query, clause: Clause, es: seq<Element>)
    requires NormElement(q, Group(clause, es)).Ok?
    requires NormElement(q, Group(clause, es)).value.Changed?
    ensures var outs := NormChildren(q, Group(clause, es), |es|).value;
      NormElement(q, Group(clause, es)).value.result.None?
      <==> forall i :: 0 <= i < |es| ==> Yield(outs[i], es[i]).None?
    ensures var outs := NormChildren(q, Group(clause, es), |es|).value;
      forall k :: 0 <= k < |es| && Yield(outs[k], es[k]).Some?
        && (forall i :: 0 <= i < |es| && i != k ==> Yield(outs[i], es[i]).None?)
        ==> NormElement(q, Group(clause, es)).value.result == Yield(outs[k], es[k])
  {
    var g := Group(clause, es);
    assert NormChildren(q, g, |es|).Ok?;
    var outs := NormChildren(q, g, |es|).value;
    GroupOutcome(q, g, outs);
    CollapsedSlots(clause, es, outs, NormElement(q, g).value.result);
  }

  /** The collapsed children of a changed group: none left, or the single one left. */
  lemma CollapsedSlots(clause: Clause, es: seq<Element>, outs: seq<Outcome>, result: Option<Element>)
    requires |es| == |outs| && result == Collapse(clause, Somes(Slots(es, outs)))
    ensures result.None? <==> forall i :: 0 <= i < |es| ==> Yield(outs[i], es[i]).None?
    ensures forall k ::
      (0 <= k < |es| && Yield(outs[k], es[k]).Some?
       && (forall i :: 0 <= i < |es| && i != k ==> Yield(outs[i], es[i]).None?))
      ==> result == Yield(outs[k], es[k])
  {
    var slots := Slots(es, outs);
    forall k | 0 <= k < |es| && Yield(outs[k], es[k]).Some?
      && (forall i :: 0 <= i < |es| && i != k ==> Yield(outs[i], es[i]).None?)
      ensures result == Yield(outs[k], es[k])
    {
      SomesSingle(slots, k);
    }
  }

  /** With exactly one Some, Somes is that one element. */
  lemma {:induction false} SomesSingle(xs: seq<Option<Element>>, k: nat)
    requires k < |xs| && xs[k].Some?
    requires forall i :: 0 <= i < |xs| && i != k ==> xs[i].None?
    ensures Somes(xs) == [xs[k].value]
  {
    var init := xs[..|xs| - 1];
    if k == |xs| - 1 {
      assert forall i :: 0 <= i < |init| ==> init[i].None?;
    } else {
      assert init[k] == xs[k];
      SomesSingle(init, k);
    }
  }

  /** A nested query is replaced by its own filter, normalised against its own params. */
  lemma NestedInlined(q: Query, inner: Query)
    requires NormalizeQuery(inner).Ok?
    ensures NormElement(q, Nested(inner)) == Ok(Changed(NormalizeQuery(inner).value))
  {
  }
}
