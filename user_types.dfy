/**
 * User types: the codecs between backend values and Java values. Provided
 * scalar types are opaque codecs; the container types list<T>, set<T>,
 * array<T> and map<K,V> are synthesized from their element types.
 */
module UserTypes {
  import opened Wrappers
  import opened Values

  /** A user type: a provided codec (by its index in the codec table), or a synthesized container. */
  datatype UserType =
    | Provided(id: string, impl: nat)
    | ListType(id: string, el: UserType)
    | SetType(id: string, el: UserType)
    | ArrayType(id: string, el: UserType)
    | MapType(id: string, key: UserType, val: UserType)

  /** The decode and encode of the provided types. */
  datatype Codecs = Codecs(decode: (nat, Value) -> Result<Value>, encode: (nat, Value) -> Value)

  /** A decoded map key as a key text: keys of the modelled maps are strings. */
  function KeyText(v: Value): string
  {
    if v.VStr? then v.s else Show(v)
  }

  /** The elements a container decoder iterates over: the collection's items, or the raw value alone. */
  function ItemsOf(raw: Value, iterable: set<Coll>): (r: seq<Value>)
    ensures raw.VList? && raw.kind in iterable ==> r == raw.items
    ensures !(raw.VList? && raw.kind in iterable) ==> r == [raw]
  {
    if raw.VList? && raw.kind in iterable then raw.items else [raw]
  }

  /** LinkedHashSet insertion: first-seen order, later duplicates dropped. */
  function Dedup(xs: seq<Value>): (r: seq<Value>)
  {
    if xs == [] then []
    else
      var prefix := Dedup(xs[..|xs| - 1]);
      if xs[|xs| - 1] in prefix then prefix else prefix + [xs[|xs| - 1]]
  }

  function Decode(c: Codecs, t: UserType, raw: Value): Result<Value>
    decreases t, 1
  {
    match t
    case Provided(_, impl) => c.decode(impl, raw)
    case ListType(_, el) =>
      if raw == VNull then Ok(VNull)
      else
        var out :- DecodeAll(c, el, ItemsOf(raw, {JList, JArray}));
        Ok(VList(JList, out))
    case SetType(_, el) =>
      if raw == VNull then Ok(VNull)
      else
        var out :- DecodeAll(c, el, ItemsOf(raw, {JSet, JList, JArray}));
        Ok(VList(JSet, Dedup(out)))
    case ArrayType(_, el) =>
      if raw == VNull then Ok(VNull)
      else if raw.VList? && raw.kind == JArray then
        var out :- DecodeAll(c, el, raw.items);
        Ok(VList(JArray, out))
      else
        var d :- Decode(c, el, raw);
        Ok(VList(JArray, [d]))
    case MapType(_, kt, vt) =>
      if raw == VNull then Ok(VNull)
      else if !raw.VMap? then Err(IllegalArgument("Not a map: " + ClassName(raw)))
      else
        var out :- DecodeEntries(c, t, raw.entries);
        Ok(VMap(out))
  }

  /** The element decoder applied left to right; the first failure wins. */
  function DecodeAll(c: Codecs, el: UserType, items: seq<Value>): Result<seq<Value>>
    decreases el, 2, |items|
  {
    if items == [] then Ok([])
    else
      var prefix :- DecodeAll(c, el, items[..|items| - 1]);
      var d :- Decode(c, el, items[|items| - 1]);
      Ok(prefix + [d])
  }

  /** Each entry decoded, key first, and put into a fresh LinkedHashMap. */
  function DecodeEntries(c: Codecs, t: UserType, es: seq<Entry>): Result<seq<Entry>>
    requires t.MapType?
    decreases t, 0, |es|
  {
    if es == [] then Ok([])
    else
      var prefix :- DecodeEntries(c, t, es[..|es| - 1]);
      var k :- Decode(c, t.key, VStr(es[|es| - 1].key));
      var v :- Decode(c, t.val, es[|es| - 1].val);
      Ok(Put(prefix, KeyText(k), v))
  }

  /** The Java values an encoder accepts: the static parameter type of each encode. */
  predicate Fits(t: UserType, v: Value)
    decreases t, 1
  {
    match t
    case Provided(_, _) => true
    case ListType(_, el) => v == VNull || (v.VList? && v.kind == JList && AllFit(el, v.items))
    case SetType(_, el) => v == VNull || (v.VList? && v.kind == JSet && AllFit(el, v.items))
    case ArrayType(_, el) => v == VNull || (v.VList? && v.kind == JArray && AllFit(el, v.items))
    case MapType(_, kt, vt) =>
      v == VNull || (v.VMap? && forall i :: 0 <= i < |v.entries| ==> Fits(kt, VStr(v.entries[i].key)) && Fits(vt, v.entries[i].val))
  }

  predicate AllFit(el: UserType, items: seq<Value>)
    decreases el, 2
  {
    forall i :: 0 <= i < |items| ==> Fits(el, items[i])
  }

  function Encode(c: Codecs, t: UserType, v: Value): Value
    requires Fits(t, v)
    decreases t, 1
  {
    match t
    case Provided(_, impl) => c.encode(impl, v)
    case ListType(_, el) => if v == VNull then VNull else VList(JList, EncodeAll(c, el, v.items))
    case SetType(_, el) => if v == VNull then VNull else VList(JList, EncodeAll(c, el, v.items))
    case ArrayType(_, el) => if v == VNull then VNull else VList(JArray, EncodeAll(c, el, v.items))
    case MapType(_, _, _) => if v == VNull then VNull else VMap(EncodeEntries(c, t, v.entries))
  }

  function EncodeAll(c: Codecs, el: UserType, items: seq<Value>): (r: seq<Value>)
    requires AllFit(el, items)
    ensures |r| == |items|
    decreases el, 2, |items|
  {
    if items == [] then []
    else EncodeAll(c, el, items[..|items| - 1]) + [Encode(c, el, items[|items| - 1])]
  }

  function EncodeEntries(c: Codecs, t: UserType, es: seq<Entry>): seq<Entry>
    requires t.MapType?
    requires forall i :: 0 <= i < |es| ==> Fits(t.key, VStr(es[i].key)) && Fits(t.val, es[i].val)
    decreases t, 0, |es|
  {
    if es == [] then []
    else
      var last := es[|es| - 1];
      Put(EncodeEntries(c, t, es[..|es| - 1]), KeyText(Encode(c, t.key, VStr(last.key))), Encode(c, t.val, last.val))
  }

  // ---------------------------------------------------------------------
  // The decode and encode loops.

  method DecodeItems(c: Codecs, el: UserType, items: seq<Value>) returns (r: Result<seq<Value>>)
    ensures r == DecodeAll(c, el, items)
    decreases el, 2
  {
    var out := [];
    var i := 0;
    while i < |items|
      invariant 0 <= i <= |items|
      invariant DecodeAll(c, el, items[..i]) == Ok(out)
    {
      var d := DecodeValue(c, el, items[i]);
      assert items[..i + 1][..i] == items[..i];
      if d.Err? {
        DecodeAllFailureSticks(c, el, items, i + 1);
        return Err(d.error);
      }
      out := out + [d.value];
      i := i + 1;
    }
    assert items[..i] == items;
    return Ok(out);
  }

  method DecodeValue(c: Codecs, t: UserType, raw: Value) returns (r: Result<Value>)
    ensures r == Decode(c, t, raw)
    decreases t, 1
  {
    match t
    case Provided(_, impl) =>
      r := c.decode(impl, raw);
    case ListType(_, el) =>
      if raw == VNull { return Ok(VNull); }
      var out := DecodeItems(c, el, ItemsOf(raw, {JList, JArray}));
      if out.Err? { return Err(out.error); }
      r := Ok(VList(JList, out.value));
    case SetType(_, el) =>
      if raw == VNull { return Ok(VNull); }
      var seen := DecodeSet(c, el, ItemsOf(raw, {JSet, JList, JArray}));
      if seen.Err? { return Err(seen.error); }
      r := Ok(VList(JSet, seen.value));
    case ArrayType(_, el) =>
      if raw == VNull { return Ok(VNull); }
      if raw.VList? && raw.kind == JArray {
        var out := DecodeItems(c, el, raw.items);
        if out.Err? { return Err(out.error); }
        r := Ok(VList(JArray, out.value));
      } else {
        var d := DecodeValue(c, el, raw);
        if d.Err? { return Err(d.error); }
        r := Ok(VList(JArray, [d.value]));
      }
    case MapType(_, _, _) =>
      if raw == VNull { return Ok(VNull); }
      if !raw.VMap? { return Err(IllegalArgument("Not a map: " + ClassName(raw))); }
      var out := DecodeMap(c, t, raw.entries);
      if out.Err? { return Err(out.error); }
      r := Ok(VMap(out.value));
  }

  /** The set branch of decode: each item decoded in turn, repeats dropped. */
  method DecodeSet(c: Codecs, el: UserType, items: seq<Value>) returns (r: Result<seq<Value>>)
    ensures DecodeAll(c, el, items).Err? ==> r == Err(DecodeAll(c, el, items).error)
    ensures DecodeAll(c, el, items).Ok? ==> r == Ok(Dedup(DecodeAll(c, el, items).value))
    decreases el, 2
  {
    var seen := [];
    var i := 0;
    while i < |items|
      invariant 0 <= i <= |items|
      invariant DecodeAll(c, el, items[..i]).Ok? && seen == Dedup(DecodeAll(c, el, items[..i]).value)
    {
      var d := DecodeValue(c, el, items[i]);
      var next := i + 1;
      if d.Err? {
        DecodeAllStep(c, el, items, i, next);
        DecodeAllFailureSticks(c, el, items, next);
        return Err(d.error);
      }
      DecodeAllStep(c, el, items, i, next);
      DedupSnoc(DecodeAll(c, el, items[..i]).value, d.value);
      if d.value !in seen {
        seen := seen + [d.value];
      }
      i := next;
    }
    assert items[..i] == items;
    r := Ok(seen);
  }

  /** One more item decoded: the decoded prefix grows by it, or the first failure stands. */
  lemma DecodeAllStep(c: Codecs, el: UserType, items: seq<Value>, i: nat, next: nat)
    requires i < |items| && next == i + 1 && DecodeAll(c, el, items[..i]).Ok?
    ensures Decode(c, el, items[i]).Err? ==> DecodeAll(c, el, items[..next]) == Err(Decode(c, el, items[i]).error)
    ensures Decode(c, el, items[i]).Ok? ==>
      DecodeAll(c, el, items[..next]) == Ok(DecodeAll(c, el, items[..i]).value + [Decode(c, el, items[i]).value])
  {
    assert items[..next][..i] == items[..i];
  }

  lemma DedupSnoc(xs: seq<Value>, x: Value)
    ensures Dedup(xs + [x]) == if x in Dedup(xs) then Dedup(xs) else Dedup(xs) + [x]
  {
    assert (xs + [x])[..|xs|] == xs;
  }

  /** The map branch of decode: each entry's key, then its value, put into a fresh map. */
  method DecodeMap(c: Codecs, t: UserType, es: seq<Entry>) returns (r: Result<seq<Entry>>)
    requires t.MapType?
    ensures r == DecodeEntries(c, t, es)
    decreases t, 0
  {
    var out := [];
    var i := 0;
    while i < |es|
      invariant 0 <= i <= |es|
      invariant DecodeEntries(c, t, es[..i]) == Ok(out)
    {
      var k := DecodeValue(c, t.key, VStr(es[i].key));
      var next := i + 1;
      DecodeEntriesStep(c, t, es, i, next, out);
      if k.Err? {
        EntriesFailureSticks(c, t, es, next);
        return Err(k.error);
      }
      var v := DecodeValue(c, t.val, es[i].val);
      if v.Err? {
        EntriesFailureSticks(c, t, es, next);
        return Err(v.error);
      }
      out := Put(out, KeyText(k.value), v.value);
      i := next;
    }
    assert es[..i] == es;
    r := Ok(out);
  }

  /** One more entry decoded: its key, then its value, or the first failure. */
  lemma DecodeEntriesStep(c: Codecs, t: UserType, es: seq<Entry>, i: nat, next: nat, out: seq<Entry>)
    requires t.MapType? && i < |es| && next == i + 1 && DecodeEntries(c, t, es[..i]) == Ok(out)
    ensures Decode(c, t.key, VStr(es[i].key)).Err? ==>
      DecodeEntries(c, t, es[..next]) == Err(Decode(c, t.key, VStr(es[i].key)).error)
    ensures Decode(c, t.key, VStr(es[i].key)).Ok? && Decode(c, t.val, es[i].val).Err? ==>
      DecodeEntries(c, t, es[..next]) == Err(Decode(c, t.val, es[i].val).error)
    ensures Decode(c, t.key, VStr(es[i].key)).Ok? && Decode(c, t.val, es[i].val).Ok? ==>
      DecodeEntries(c, t, es[..next])
        == Ok(Put(out, KeyText(Decode(c, t.key, VStr(es[i].key)).value), Decode(c, t.val, es[i].val).value))
  {
    assert es[..next][..i] == es[..i];
  }

  method EncodeItems(c: Codecs, el: UserType, items: seq<Value>) returns (out: seq<Value>)
    requires AllFit(el, items)
    ensures out == EncodeAll(c, el, items)
    decreases el, 2
  {
    out := [];
    var i := 0;
    while i < |items|
      invariant 0 <= i <= |items|
      invariant out == EncodeAll(c, el, items[..i])
    {
      assert items[..i + 1][..i] == items[..i];
      var e := EncodeValue(c, el, items[i]);
      out := out + [e];
      i := i + 1;
    }
    assert items[..i] == items;
  }

  method EncodeValue(c: Codecs, t: UserType, v: Value) returns (r: Value)
    requires Fits(t, v)
    ensures r == Encode(c, t, v)
    decreases t, 1
  {
    match t
    case Provided(_, impl) =>
      r := c.encode(impl, v);
    case ListType(_, el) =>
      if v == VNull { return VNull; }
      var out := EncodeItems(c, el, v.items);
      r := VList(JList, out);
    case SetType(_, el) =>
      if v == VNull { return VNull; }
      var out := EncodeItems(c, el, v.items);
      r := VList(JList, out);
    case ArrayType(_, el) =>
      if v == VNull { return VNull; }
      var out := EncodeItems(c, el, v.items);
      r := VList(JArray, out);
    case MapType(_, _, _) =>
      if v == VNull { return VNull; }
      var out := EncodeMap(c, t, v.entries);
      r := VMap(out);
  }

  /** The map branch of encode: each entry's key, then its value, put into a fresh map. */
  method EncodeMap(c: Codecs, t: UserType, es: seq<Entry>) returns (out: seq<Entry>)
    requires t.MapType?
    requires forall i :: 0 <= i < |es| ==> Fits(t.key, VStr(es[i].key)) && Fits(t.val, es[i].val)
    ensures out == EncodeEntries(c, t, es)
    decreases t, 0
  {
    out := [];
    var i := 0;
    while i < |es|
      invariant 0 <= i <= |es|
      invariant out == EncodeEntries(c, t, es[..i])
    {
      var k := EncodeValue(c, t.key, VStr(es[i].key));
      var e := EncodeValue(c, t.val, es[i].val);
      var next := i + 1;
      EncodeEntriesStep(c, t, es, i, next);
      out := Put(out, KeyText(k), e);
      i := next;
    }
    assert es[..i] == es;
  }

  lemma EncodeEntriesStep(c: Codecs, t: UserType, es: seq<Entry>, i: nat, next: nat)
    requires t.MapType? && i < |es| && next == i + 1
    requires forall j :: 0 <= j < |es| ==> Fits(t.key, VStr(es[j].key)) && Fits(t.val, es[j].val)
    ensures EncodeEntries(c, t, es[..next])
      == Put(EncodeEntries(c, t, es[..i]), KeyText(Encode(c, t.key, VStr(es[i].key))), Encode(c, t.val, es[i].val))
  {
    assert es[..next][..i] == es[..i];
  }

  // ---------------------------------------------------------------------
  // Properties.

  lemma {:induction false} DecodeAllFailureSticks(c: Codecs, el: UserType, items: seq<Value>, n: nat)
    requires n <= |items| && DecodeAll(c, el, items[..n]).Err?
    ensures DecodeAll(c, el, items) == Err(DecodeAll(c, el, items[..n]).error)
    decreases |items| - n
  {
    if n < |items| {
      assert items[..n + 1][..n] == items[..n];
      DecodeAllFailureSticks(c, el, items, n + 1);
    } else {
      assert items[..n] == items;
    }
  }

  lemma {:induction false} EntriesFailureSticks(c: Codecs, t: UserType, es: seq<Entry>, n: nat)
    requires t.MapType? && n <= |es| && DecodeEntries(c, t, es[..n]).Err?
    ensures DecodeEntries(c, t, es) == Err(DecodeEntries(c, t, es[..n]).error)
    decreases |es| - n
  {
    if n < |es| {
      assert es[..n + 1][..n] == es[..n];
      EntriesFailureSticks(c, t, es, n + 1);
    } else {
      assert es[..n] == es;
    }
  }

  /** Decoding every element keeps the count and decodes element i from item i. */
  lemma {:induction false} DecodeAllPointwise(c: Codecs, el: UserType, items: seq<Value>)
    requires DecodeAll(c, el, items).Ok?
    ensures |DecodeAll(c, el, items).value| == |items|
    ensures forall i :: 0 <= i < |items| ==> Decode(c, el, items[i]) == Ok(DecodeAll(c, el, items).value[i])
    decreases |items|
  {
    if items != [] {
      DecodeAllPointwise(c, el, items[..|items| - 1]);
    }
  }

  /** decode and encode of null give null for every container. */
  lemma NullStaysNull(c: Codecs, t: UserType)
    requires !t.Provided?
    ensures Decode(c, t, VNull) == Ok(VNull)
    ensures Fits(t, VNull) && Encode(c, t, VNull) == VNull
  {
  }

  /** A list type decodes a raw value that is not a List or Object[] as a one-element list. */
  lemma ListWrapsSingle(c: Codecs, id: string, el: UserType, raw: Value)
    requires raw != VNull && !(raw.VList? && raw.kind in {JList, JArray})
    requires Decode(c, el, raw).Ok?
    ensures Decode(c, ListType(id, el), raw) == Ok(VList(JList, [Decode(c, el, raw).value]))
  {
    assert ItemsOf(raw, {JList, JArray}) == [raw];
    var xs := [raw];
    assert xs[..|xs| - 1] == [] && xs[|xs| - 1] == raw;
    assert DecodeAll(c, el, []) == Ok([]);
    assert [] + [Decode(c, el, raw).value] == [Decode(c, el, raw).value];
  }

  /** Each element of a decoded list is the element type's decode of the matching raw item. */
  lemma ListDecodesEach(c: Codecs, id: string, el: UserType, kind: Coll, items: seq<Value>)
    requires kind == JList || kind == JArray
    requires Decode(c, ListType(id, el), VList(kind, items)).Ok?
    ensures var r := Decode(c, ListType(id, el), VList(kind, items)).value;
      r.VList? && r.kind == JList && |r.items| == |items|
      && forall i :: 0 <= i < |items| ==> Decode(c, el, items[i]) == Ok(r.items[i])
  {
    DecodeAllPointwise(c, el, items);
  }

  lemma {:induction false} DedupFacts(xs: seq<Value>)
    ensures forall i, j :: 0 <= i < j < |Dedup(xs)| ==> Dedup(xs)[i] != Dedup(xs)[j]
    ensures forall x :: x in Dedup(xs) <==> x in xs
    ensures |Dedup(xs)| <= |xs|
    decreases |xs|
  {
    if xs != [] {
      var init := xs[..|xs| - 1];
      DedupFacts(init);
      assert xs == init + [xs[|xs| - 1]];
    }
  }

  /** A decoded set holds no duplicates and exactly the decoded elements. */
  lemma SetDecodeIsSet(c: Codecs, id: string, el: UserType, raw: Value)
    requires raw != VNull && Decode(c, SetType(id, el), raw).Ok?
    ensures var r := Decode(c, SetType(id, el), raw).value;
      var decoded := DecodeAll(c, el, ItemsOf(raw, {JSet, JList, JArray})).value;
      r.VList? && r.kind == JSet
      && (forall i, j :: 0 <= i < j < |r.items| ==> r.items[i] != r.items[j])
      && (forall x :: x in r.items <==> x in decoded)
  {
    DedupFacts(DecodeAll(c, el, ItemsOf(raw, {JSet, JList, JArray})).value);
  }

  /** Encoding keeps the number of elements of a list, set or array. */
  lemma EncodeKeepsLength(c: Codecs, t: UserType, v: Value)
    requires (t.ListType? || t.SetType? || t.ArrayType?) && v != VNull && Fits(t, v)
    ensures Encode(c, t, v).VList? && |Encode(c, t, v).items| == |v.items|
  {
  }

  /** The provided codecs read back what they write. */
  ghost predicate CodecsRoundTrip(c: Codecs)
  {
    forall impl: nat, x: Value :: c.decode(impl, c.encode(impl, x)) == Ok(x)
  }

  /** Types built from provided types, lists and arrays: their encode loses nothing. */
  predicate Sequential(t: UserType)
  {
    match t
    case Provided(_, _) => true
    case ListType(_, el) => Sequential(el)
    case ArrayType(_, el) => Sequential(el)
    case SetType(_, _) => false
    case MapType(_, _, _) => false
  }

  /** decode(encode(v)) == v for lists and arrays over round-tripping codecs. */
  lemma {:induction false} DecodeEncode(c: Codecs, t: UserType, v: Value)
    requires CodecsRoundTrip(c) && Sequential(t) && Fits(t, v)
    ensures Decode(c, t, Encode(c, t, v)) == Ok(v)
    decreases t, 1
  {
    match t
    case Provided(_, impl) =>
    case ListType(_, el) =>
      if v != VNull {
        DecodeEncodeAll(c, el, v.items);
        assert ItemsOf(VList(JList, EncodeAll(c, el, v.items)), {JList, JArray}) == EncodeAll(c, el, v.items);
      }
    case ArrayType(_, el) =>
      if v != VNull {
        DecodeEncodeAll(c, el, v.items);
      }
  }

  lemma {:induction false} DecodeEncodeAll(c: Codecs, el: UserType, items: seq<Value>)
    requires CodecsRoundTrip(c) && Sequential(el) && AllFit(el, items)
    ensures DecodeAll(c, el, EncodeAll(c, el, items)) == Ok(items)
    decreases el, 2, |items|
  {
    if |items| > 0 {
      var init, last := items[..|items| - 1], items[|items| - 1];
      AllFitSplit(el, items);
      EncodeAllSplit(c, el, items);
      DecodeEncodeAll(c, el, init);
      DecodeEncode(c, el, last);
      DecodeAllSnoc(c, el, EncodeAll(c, el, items), init, last);
      LastSplit(items);
    }
  }

  lemma EncodeAllSplit(c: Codecs, el: UserType, items: seq<Value>)
    requires |items| > 0 && AllFit(el, items) && AllFit(el, items[..|items| - 1]) && Fits(el, items[|items| - 1])
    ensures |EncodeAll(c, el, items)| == |items|
    ensures EncodeAll(c, el, items)[..|items| - 1] == EncodeAll(c, el, items[..|items| - 1])
    ensures EncodeAll(c, el, items)[|items| - 1] == Encode(c, el, items[|items| - 1])
  {
  }

  lemma LastSplit(items: seq<Value>)
    requires |items| > 0
    ensures items == items[..|items| - 1] + [items[|items| - 1]]
  {
  }

  lemma AllFitSplit(el: UserType, items: seq<Value>)
    requires |items| > 0 && AllFit(el, items)
    ensures AllFit(el, items[..|items| - 1]) && Fits(el, items[|items| - 1])
  {
  }

  /** Decoding a list decodes its front, then its last item. */
  lemma DecodeAllSnoc(c: Codecs, el: UserType, enc: seq<Value>, front: seq<Value>, last: Value)
    requires |enc| > 0
    requires DecodeAll(c, el, enc[..|enc| - 1]) == Ok(front) && Decode(c, el, enc[|enc| - 1]) == Ok(last)
    ensures DecodeAll(c, el, enc) == Ok(front + [last])
  {
  }
}
