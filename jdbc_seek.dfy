/**
 * Keyset paging in the JDBC dialect: after the last row of a page, the next
 * page continues with the rows that sort after it, expressed as
 * (a > v1) OR (a = v1 AND b > v2) OR ... over the sort fields, with the
 * comparison turned around for a descending field. Its binds are appended
 * to the statement's and named ":k1", ":k2", ... by their position in the
 * statement's whole bind list.
 */
module JdbcSeek {
  import opened Wrappers
  import opened Strings
  import opened Values
  import opened Authoring
  import opened QueryAst
  import opened SqlRender
  import opened JdbcPredicate
  import opened SqlParens
  import opened JdbcSelect
  import PropertyTypeResolver

  const NeedsSort := "SeekPage requires sort fields"

  /** A sort field ready for the keyset predicate: its column expression, the bound last-seen value, its direction. */
  datatype SeekKey = SeekKey(expr: string, bind: Bind, desc: bool)

  /**
   * One sort field: it must resolve to an expression, have a last-seen
   * value and lead to a scalar type; the value is coerced to that type,
   * and a value the coercion refuses fails the key.
   */
  function KeyOf(ea: EntityAuthoring, view: ViewDef, reg: Registry, after: seq<Entry>, sf: SortField): (r: Result<SeekKey>)
    ensures ResolveSqlExpr(view, sf.field).None? ==> r == Err(IllegalArgument("Unknown sort field: " + sf.field))
    ensures ResolveSqlExpr(view, sf.field).Some? && GetOrNull(after, sf.field) == VNull ==>
      r == Err(IllegalArgument("SeekPage.after missing value for sort field: " + sf.field))
    ensures r.Ok? ==> r.value.bind.value != VNull && r.value.desc == (sf.direction == DESC)
    ensures r.Ok? ==> CoerceScalar(r.value.bind.userTypeId, GetOrNull(after, sf.field)) == Ok(r.value.bind.value)
    ensures r.Ok? ==> PropertyTypeResolver.ResolveNoCache(reg, Some(ea), sf.field) == Ok(Some(r.value.bind.userTypeId))
    ensures (ResolveSqlExpr(view, sf.field).Some? && GetOrNull(after, sf.field) != VNull
             && PropertyTypeResolver.ResolveNoCache(reg, Some(ea), sf.field).Ok?
             && PropertyTypeResolver.ResolveNoCache(reg, Some(ea), sf.field).value.Some?
             && CoerceScalar(PropertyTypeResolver.ResolveNoCache(reg, Some(ea), sf.field).value.value, GetOrNull(after, sf.field)).Err?)
      ==> r == Err(CoerceScalar(PropertyTypeResolver.ResolveNoCache(reg, Some(ea), sf.field).value.value, GetOrNull(after, sf.field)).error)
  {
    match ResolveSqlExpr(view, sf.field)
    case None => Err(IllegalArgument("Unknown sort field: " + sf.field))
    case Some(expr) =>
      var v := GetOrNull(after, sf.field);
      if v == VNull then Err(IllegalArgument("SeekPage.after missing value for sort field: " + sf.field))
      else
        match PropertyTypeResolver.ResolveNoCache(reg, Some(ea), sf.field)
        case Err(e) => Err(e)
        case Ok(None) => Err(QueryValidation(UnknownScalarPath(ea, sf.field)))
        case Ok(Some(ut)) =>
          var c :- CoerceScalar(ut, v);
          Ok(SeekKey(expr, Bind(c, ut), sf.direction == DESC))
  }

  type KeyFn = SortField -> Result<SeekKey>

  /** The keys of the sort fields in order; the first field that fails decides the error. */
  function KeysWith(key: KeyFn, sort: seq<SortField>): (r: Result<seq<SeekKey>>)
    ensures r.Ok? ==> |r.value| == |sort|
  {
    if |sort| == 0 then Ok([])
    else
      var init :- KeysWith(key, sort[..|sort| - 1]);
      var k :- key(sort[|sort| - 1]);
      Ok(init + [k])
  }

  function KeyFnOf(ea: EntityAuthoring, view: ViewDef, reg: Registry, after: seq<Entry>): KeyFn
  {
    sf => KeyOf(ea, view, reg, after, sf)
  }

  /*
   * The text and binds of the predicate.
   */

  /** The name of the n-th bind of the statement, counting from 1. */
  function SeekMark(n: nat): string
  {
    ":k" + NatToString(n)
  }

  function EqPart(k: SeekKey, mark: string): string
  {
    k.expr + " = " + mark
  }

  /** The strict comparison: "<" for a descending field, ">" for an ascending one. */
  function CmpPart(k: SeekKey, mark: string): string
  {
    k.expr + " " + (if k.desc then "<" else ">") + " " + mark
  }

  /** Equalities on the given keys, their marks numbered on from b. */
  function EqParts(ks: seq<SeekKey>, b: nat): seq<string>
  {
    seq(|ks|, j requires 0 <= j < |ks| => EqPart(ks[j], SeekMark(b + j + 1)))
  }

  /** The comparisons of the term of the last key: equal on every earlier key, past the last-seen value on this one. */
  function TermParts(ks: seq<SeekKey>, b: nat): seq<string>
  {
    if |ks| == 0 then [] else EqParts(ks[..|ks| - 1], b) + [CmpPart(ks[|ks| - 1], SeekMark(b + |ks|))]
  }

  /** The OR term of the last key, with b binds already in the statement. */
  function Term(ks: seq<SeekKey>, b: nat): string
  {
    "(" + Join(TermParts(ks, b), " AND ") + ")"
  }

  type TermFn = (seq<SeekKey>, nat) -> string

  /** 0 + 1 + ... + n: the binds the first n terms take. */
  function Tri(n: nat): nat
  {
    if n == 0 then 0 else Tri(n - 1) + n
  }

  /** The OR terms, the i-th over the first i + 1 keys, with m binds already in the statement. */
  function OrTerms(term: TermFn, ks: seq<SeekKey>, m: nat): (r: seq<string>)
    ensures |r| == |ks|
  {
    if |ks| == 0 then [] else OrTerms(term, ks[..|ks| - 1], m) + [term(ks, m + Tri(|ks| - 1))]
  }

  function KeyBinds(ks: seq<SeekKey>): seq<Bind>
  {
    seq(|ks|, j requires 0 <= j < |ks| => ks[j].bind)
  }

  /** The binds in the order the terms add them: each term rebinds every key it mentions. */
  function SeekBinds(ks: seq<SeekKey>): seq<Bind>
  {
    if |ks| == 0 then [] else SeekBinds(ks[..|ks| - 1]) + KeyBinds(ks)
  }

  /** The predicate over the keys of the sort fields, for any rendering of a term. */
  function SeekWith(key: KeyFn, term: TermFn, sort: seq<SortField>, m: nat): Result<Rendered>
  {
    var ks :- KeysWith(key, sort);
    Ok(Rendered(Join(OrTerms(term, ks, m), " OR "), SeekBinds(ks)))
  }

  /** renderSeekPredicate, with m binds already in the statement. */
  function SeekPredicateOf(ea: EntityAuthoring, view: ViewDef, reg: Registry, sort: seq<SortField>, after: seq<Entry>, m: nat)
    : Result<Rendered>
  {
    SeekWith(KeyFnOf(ea, view, reg, after), Term, sort, m)
  }

  /*
   * The keys: errors and alignment.
   */

  lemma {:induction false} KeysAt(key: KeyFn, sort: seq<SortField>, ks: seq<SeekKey>, j: nat)
    requires KeysWith(key, sort) == Ok(ks) && j < |sort|
    ensures key(sort[j]) == Ok(ks[j])
  {
    var init := sort[..|sort| - 1];
    if j < |init| {
      var ks' := KeysWith(key, init).value;
      assert ks == ks' + [ks[|ks| - 1]];
      KeysAt(key, init, ks', j);
      assert init[j] == sort[j];
    }
  }

  /** Once a prefix of the sort fields fails, the whole list fails with the same error. */
  lemma {:induction false} KeysFailureSticks(key: KeyFn, sort: seq<SortField>, i: nat)
    requires i <= |sort| && KeysWith(key, sort[..i]).Err?
    ensures KeysWith(key, sort) == KeysWith(key, sort[..i])
  {
    if i < |sort| {
      var init := sort[..|sort| - 1];
      assert init[..i] == sort[..i];
      KeysFailureSticks(key, init, i);
    } else {
      assert sort[..i] == sort;
    }
  }

  /** The keys fail exactly when some field fails, and then with the error of the first such field. */
  lemma {:induction false} KeysFirstError(key: KeyFn, sort: seq<SortField>)
    ensures KeysWith(key, sort).Err? <==> exists i :: 0 <= i < |sort| && key(sort[i]).Err?
    ensures KeysWith(key, sort).Err? ==>
      exists i :: 0 <= i < |sort| && key(sort[i]) == Err(KeysWith(key, sort).error)
        && forall j :: 0 <= j < i ==> key(sort[j]).Ok?
  {
    if sort != [] {
      var init := sort[..|sort| - 1];
      KeysFirstError(key, init);
      assert forall j :: 0 <= j < |init| ==> init[j] == sort[j];
      if KeysWith(key, init).Ok? {
        var ks := KeysWith(key, init).value;
        forall j | 0 <= j < |init|
          ensures key(sort[j]).Ok?
        {
          KeysAt(key, init, ks, j);
        }
      }
    }
  }

  lemma {:induction false} TriGrows(i: nat, n: nat)
    requires i < n
    ensures Tri(i) + i + 1 <= Tri(n)
    decreases n
  {
    if i < n - 1 {
      TriGrows(i, n - 1);
    }
  }

  lemma {:induction false} SeekBindCount(ks: seq<SeekKey>)
    ensures |SeekBinds(ks)| == Tri(|ks|)
  {
    if ks != [] {
      SeekBindCount(ks[..|ks| - 1]);
    }
  }

  /**
   * The j-th comparison of the i-th term binds key j's value, at position
   * Tri(i) + j of the keyset binds.
   */
  lemma {:induction false} SeekBindAt(ks: seq<SeekKey>, i: nat, j: nat)
    requires j <= i < |ks|
    ensures Tri(i) + j < |SeekBinds(ks)| && SeekBinds(ks)[Tri(i) + j] == ks[j].bind
  {
    var init := ks[..|ks| - 1];
    SeekBindCount(ks);
    SeekBindCount(init);
    if i < |init| {
      SeekBindAt(init, i, j);
      TriGrows(i, |init|);
      assert init[j] == ks[j];
    }
  }

  /**
   * The term of the first i + 1 keys compares key j (j <= i) against the
   * mark b + j + 1: an equality before the last key, the strict comparison on it.
   */
  lemma TermPartAt(ks: seq<SeekKey>, i: nat, j: nat, b: nat)
    requires j <= i < |ks|
    ensures |TermParts(ks[..i + 1], b)| == i + 1
    ensures j < i ==> TermParts(ks[..i + 1], b)[j] == EqPart(ks[j], SeekMark(b + j + 1))
    ensures TermParts(ks[..i + 1], b)[i] == CmpPart(ks[i], SeekMark(b + i + 1))
  {
    var pre := ks[..i + 1];
    assert pre[..i] == ks[..i];
    assert TermParts(pre, b) == EqParts(ks[..i], b) + [CmpPart(ks[i], SeekMark(b + i + 1))];
  }

  /**
   * Marks and binds line up: the i-th term starts numbering after
   * b = |before| + Tri(i) binds, and its j-th comparison names bind b + j + 1
   * of the statement (counting from 1), which holds key j's last-seen value.
   */
  lemma SeekMarksAlign(before: seq<Bind>, ks: seq<SeekKey>, i: nat, j: nat, b: nat)
    requires j <= i < |ks| && b == |before| + Tri(i)
    ensures |TermParts(ks[..i + 1], b)| == i + 1
    ensures j < i ==> TermParts(ks[..i + 1], b)[j] == EqPart(ks[j], SeekMark(b + j + 1))
    ensures TermParts(ks[..i + 1], b)[i] == CmpPart(ks[i], SeekMark(b + i + 1))
    ensures b + j < |before + SeekBinds(ks)| && (before + SeekBinds(ks))[b + j] == ks[j].bind
  {
    TermPartAt(ks, i, j, b);
    SeekBindAt(ks, i, j);
  }

  /*
   * The predicate, rendered as the nested loops of renderSeekPredicate do.
   */

  /**
   * term is the rendering of one OR term; the link is only drawn where the
   * text of a term is named.
   */
  ghost predicate RendersTerms(term: TermFn)
  {
    forall ks, b {:trigger Term(ks, b)} :: term(ks, b) == Term(ks, b)
  }

  /** The equalities of one term: every key before the i-th, looked up and bound again. */
  method EqTerms(key: KeyFn, sort: seq<SortField>, n: nat, ghost ks: seq<SeekKey>, binds: seq<Bind>)
    returns (andTerms: seq<string>, out: seq<Bind>)
    requires n == |ks| <= |sort|
    requires forall j :: 0 <= j < |ks| ==> key(sort[j]) == Ok(ks[j])
    ensures andTerms == EqParts(ks, |binds|)
    ensures out == binds + KeyBinds(ks)
  {
    andTerms := [];
    out := binds;
    var j := 0;
    while j < n
      invariant 0 <= j <= n
      invariant andTerms == EqParts(ks[..j], |binds|)
      invariant out == binds + KeyBinds(ks[..j])
    {
      var k := key(sort[j]).value;
      out := out + [k.bind];
      andTerms := andTerms + [EqPart(k, SeekMark(|out|))];
      assert ks[..j + 1] == ks[..j] + [ks[j]];
      j := j + 1;
    }
    assert ks[..j] == ks;
  }

  lemma SeekBindsSnoc(binds: seq<Bind>, ks: seq<SeekKey>, k: SeekKey)
    ensures binds + SeekBinds(ks + [k]) == binds + SeekBinds(ks) + KeyBinds(ks + [k])
  {
    assert (ks + [k])[..|ks|] == ks;
  }

  lemma KeyBindsSnoc(ks: seq<SeekKey>, k: SeekKey)
    ensures KeyBinds(ks + [k]) == KeyBinds(ks) + [k.bind]
  {
  }

  lemma OrTermsSnoc(term: TermFn, ks: seq<SeekKey>, k: SeekKey, m: nat, orTerms: seq<string>, t: string, next: seq<string>)
    requires orTerms == OrTerms(term, ks, m) && t == term(ks + [k], m + Tri(|ks|)) && next == orTerms + [t]
    ensures next == OrTerms(term, ks + [k], m)
  {
    assert (ks + [k])[..|ks|] == ks;
  }

  /** The text the inner loop builds is the term of the keys so far. */
  lemma TermSnoc(term: TermFn, ks: seq<SeekKey>, k: SeekKey, b: nat, andTerms: seq<string>, t: string)
    requires RendersTerms(term)
    requires andTerms == EqParts(ks, b) + [CmpPart(k, SeekMark(b + |ks| + 1))]
    requires t == "(" + Join(andTerms, " AND ") + ")"
    ensures t == term(ks + [k], b)
  {
    assert (ks + [k])[..|ks|] == ks;
    assert t == Term(ks + [k], b);
  }

  lemma KeysBefore(key: KeyFn, sort: seq<SortField>, i: nat, ks: seq<SeekKey>)
    requires i == |ks| <= |sort| && KeysWith(key, sort[..i]) == Ok(ks)
    ensures forall j :: 0 <= j < |ks| ==> key(sort[j]) == Ok(ks[j])
  {
    forall j | 0 <= j < |ks|
      ensures key(sort[j]) == Ok(ks[j])
    {
      KeysAt(key, sort[..i], ks, j);
    }
  }

  lemma KeysNext(key: KeyFn, sort: seq<SortField>, i: nat, ks: seq<SeekKey>, k: Result<SeekKey>)
    requires i == |ks| < |sort| && KeysWith(key, sort[..i]) == Ok(ks) && k == key(sort[i])
    ensures k.Err? ==> KeysWith(key, sort) == Err(k.error)
    ensures k.Ok? ==> KeysWith(key, sort[..i + 1]) == Ok(ks + [k.value])
  {
    assert sort[..i + 1][..i] == sort[..i];
    if k.Err? {
      KeysFailureSticks(key, sort, i + 1);
    }
  }

  /** One OR term: the equalities on the keys before the i-th, then the comparison on the i-th. */
  method RenderTerm(key: KeyFn, ghost term: TermFn, sort: seq<SortField>, i: nat, ghost ks: seq<SeekKey>,
                    binds: seq<Bind>, ghost m: nat)
    returns (k: Result<SeekKey>, t: string, out: seq<Bind>)
    requires RendersTerms(term)
    requires i == |ks| < |sort| && KeysWith(key, sort[..i]) == Ok(ks)
    requires |binds| == m + Tri(i)
    ensures k == key(sort[i])
    ensures k.Ok? ==> t == term(ks + [k.value], m + Tri(i))
    ensures k.Ok? ==> out == binds + KeyBinds(ks + [k.value])
  {
    KeysBefore(key, sort, i, ks);
    var andTerms, out' := EqTerms(key, sort, i, ks, binds);
    k := key(sort[i]);
    if k.Err? {
      return k, "", out';
    }
    out := out' + [k.value.bind];
    andTerms := andTerms + [CmpPart(k.value, SeekMark(|out|))];
    t := "(" + Join(andTerms, " AND ") + ")";
    TermSnoc(term, ks, k.value, |binds|, andTerms, t);
    KeyBindsSnoc(ks, k.value);
  }

  /** One turn of the outer loop: the i-th term, or the error of the i-th sort field. */
  method SeekStep(key: KeyFn, ghost term: TermFn, sort: seq<SortField>, i: nat, ghost ks: seq<SeekKey>,
                  orTerms: seq<string>, out: seq<Bind>, binds: seq<Bind>)
    returns (k: Result<SeekKey>, orTerms': seq<string>, out': seq<Bind>)
    requires RendersTerms(term)
    requires i == |ks| < |sort| && KeysWith(key, sort[..i]) == Ok(ks)
    requires orTerms == OrTerms(term, ks, |binds|) && out == binds + SeekBinds(ks)
    ensures k.Err? ==> KeysWith(key, sort) == Err(k.error)
    ensures k.Ok? ==> KeysWith(key, sort[..i + 1]) == Ok(ks + [k.value])
    ensures k.Ok? ==> orTerms' == OrTerms(term, ks + [k.value], |binds|)
    ensures k.Ok? ==> out' == binds + SeekBinds(ks + [k.value])
  {
    SeekBindCount(ks);
    var t;
    k, t, out' := RenderTerm(key, term, sort, i, ks, out, |binds|);
    KeysNext(key, sort, i, ks, k);
    orTerms' := orTerms;
    if k.Ok? {
      SeekBindsSnoc(binds, ks, k.value);
      orTerms' := orTerms + [t];
      OrTermsSnoc(term, ks, k.value, |binds|, orTerms, t, orTerms');
    }
  }

  /**
   * renderSeekPredicate: the OR terms, binding into the statement's bind
   * list as it goes; key looks a sort field up each time a term needs it.
   */
  method RenderSeekPredicate(key: KeyFn, ghost term: TermFn, sort: seq<SortField>, binds: seq<Bind>)
    returns (r: Result<string>, out: seq<Bind>)
    requires RendersTerms(term)
    ensures Follows(r, binds, out, SeekWith(key, term, sort, |binds|))
  {
    ghost var ks: seq<SeekKey> := [];
    var orTerms: seq<string> := [];
    out := binds;
    var i := 0;
    while i < |sort|
      invariant 0 <= i <= |sort| && |ks| == i
      invariant KeysWith(key, sort[..i]) == Ok(ks)
      invariant orTerms == OrTerms(term, ks, |binds|)
      invariant out == binds + SeekBinds(ks)
    {
      var k;
      k, orTerms, out := SeekStep(key, term, sort, i, ks, orTerms, out, binds);
      if k.Err? {
        return Err(k.error), out;
      }
      ks := ks + [k.value];
      i := i + 1;
    }
    assert sort[..i] == sort;
    r := Ok(Join(orTerms, " OR "));
  }

  /*
   * appendSeekFilter.
   */

  /** The joiner of appendSeekFilter as intended, keeping the predicate together in parentheses. */
  function SeekJoin(base: SqlStatement, p: Rendered): SqlStatement
  {
    SqlStatement(base.sql + (if BaseHasWhere(base.sql) then " AND " else " WHERE ") + "(" + p.sql + ")",
                 base.binds + p.binds, base.execKind)
  }

  /**
   * appendSeekFilter: no last-seen values is the first page; otherwise the
   * sort fields are required, and their predicate is joined to the statement.
   */
  function SeekOf(ea: EntityAuthoring, view: ViewDef, reg: Registry, base: SqlStatement, sort: seq<SortField>,
                  after: seq<Entry>): (r: Result<SqlStatement>)
    ensures |after| == 0 ==> r == Ok(base)
    ensures |after| > 0 && |sort| == 0 ==> r == Err(IllegalArgument(NeedsSort))
    ensures r.Ok? ==> r.value.execKind == base.execKind && base.binds <= r.value.binds
  {
    if |after| == 0 then Ok(base)
    else if |sort| == 0 then Err(IllegalArgument(NeedsSort))
    else
      var p :- SeekPredicateOf(ea, view, reg, sort, after, |base.binds|);
      if IsBlank(p.sql) then Ok(base) else Ok(SeekJoinAsWritten(base, p))
  }

  method AppendSeekFilter(ea: EntityAuthoring, view: ViewDef, reg: Registry, base: SqlStatement, sort: seq<SortField>,
                          after: seq<Entry>)
    returns (r: Result<SqlStatement>)
    ensures r == SeekOf(ea, view, reg, base, sort, after)
  {
    if |after| == 0 {
      return Ok(base);
    }
    if |sort| == 0 {
      return Err(IllegalArgument(NeedsSort));
    }
    var binds := base.binds;
    var pred;
    pred, binds := RenderSeekPredicate(KeyFnOf(ea, view, reg, after), Term, sort, binds);
    if pred.Err? {
      return Err(pred.error);
    }
    if IsBlank(pred.value) {
      return Ok(base);
    }
    var joiner := if BaseHasWhere(base.sql) then " AND " else " WHERE ";
    r := Ok(SqlStatement(base.sql + joiner + pred.value, binds, base.execKind));
  }

  /*
   * What the keyset predicate adds.
   */

  lemma {:induction false} OrTermsAt(term: TermFn, ks: seq<SeekKey>, m: nat, i: nat)
    requires i < |ks|
    ensures OrTerms(term, ks, m)[i] == term(ks[..i + 1], m + Tri(i))
  {
    var init := ks[..|ks| - 1];
    if i < |init| {
      OrTermsAt(term, init, m, i);
      assert init[..i + 1] == ks[..i + 1];
    } else {
      assert ks[..i + 1] == ks;
    }
  }

  lemma JoinOpens(parts: seq<string>, sep: string)
    requires |parts| >= 1 && |parts[0]| >= 1 && parts[0][0] == '('
    ensures !IsBlank(Join(parts, sep))
  {
    assert Join(parts, sep)[0] == '(';
  }

  lemma TermOpens(term: TermFn, ks: seq<SeekKey>, b: nat)
    requires RendersTerms(term)
    ensures |term(ks, b)| >= 1 && term(ks, b)[0] == '('
  {
    assert Term(ks, b)[0] == '(';
  }

  /** With at least one sort field the predicate starts with "(", so it is never blank. */
  lemma SeekTextNotBlank(term: TermFn, ks: seq<SeekKey>, m: nat)
    requires RendersTerms(term) && |ks| >= 1
    ensures !IsBlank(Join(OrTerms(term, ks, m), " OR "))
  {
    OrTermsAt(term, ks, m, 0);
    TermOpens(term, ks[..1], m);
    JoinOpens(OrTerms(term, ks, m), " OR ");
  }

  /**
   * The keyset binds follow the statement's: one per comparison, so
   * Tri(|sort|) of them in all; a failure is the first failing sort field's.
   */
  lemma SeekOfBinds(ea: EntityAuthoring, view: ViewDef, reg: Registry, base: SqlStatement, sort: seq<SortField>,
                    after: seq<Entry>)
    requires |after| > 0 && |sort| > 0
    ensures var r := SeekOf(ea, view, reg, base, sort, after);
      r.Ok? ==> |r.value.binds| == |base.binds| + Tri(|sort|)
  {
    var key := KeyFnOf(ea, view, reg, after);
    var ks := KeysWith(key, sort);
    if ks.Ok? {
      SeekBindCount(ks.value);
      SeekTextNotBlank(Term, ks.value, |base.binds|);
    }
  }

  lemma SeekOfFails(ea: EntityAuthoring, view: ViewDef, reg: Registry, base: SqlStatement, sort: seq<SortField>,
                    after: seq<Entry>)
    requires |after| > 0 && |sort| > 0
    ensures SeekOf(ea, view, reg, base, sort, after).Err? <==>
      exists i :: 0 <= i < |sort| && KeyOf(ea, view, reg, after, sort[i]).Err?
    ensures SeekOf(ea, view, reg, base, sort, after).Err? ==>
      exists i :: 0 <= i < |sort| && KeyOf(ea, view, reg, after, sort[i]) == Err(SeekOf(ea, view, reg, base, sort, after).error)
        && forall j :: 0 <= j < i ==> KeyOf(ea, view, reg, after, sort[j]).Ok?
  {
    var key := KeyFnOf(ea, view, reg, after);
    KeysFirstError(key, sort);
  }

  /*
   * Keeping the predicate together. Without parentheses, the OR terms of a
   * predicate over two or more sort fields escape an AND that joins it to a
   * WHERE clause already there: SQL binds AND tighter than OR.
   */

  /** The joiner of appendSeekFilter as written: the predicate is appended bare. */
  function SeekJoinAsWritten(base: SqlStatement, p: Rendered): SqlStatement
  {
    SqlStatement(base.sql + (if BaseHasWhere(base.sql) then " AND " else " WHERE ") + p.sql,
                 base.binds + p.binds, base.execKind)
  }

  lemma MarkNoParens(n: nat)
    ensures '(' !in SeekMark(n) && ')' !in SeekMark(n)
  {
    var d := NatToString(n);
    assert SeekMark(n) == ":k" + d;
    assert forall c :: c in d ==> '0' <= c <= '9';
  }

  lemma EqPartBalanced(k: SeekKey, n: nat)
    requires Balanced(k.expr)
    ensures Balanced(EqPart(k, SeekMark(n)))
  {
    MarkNoParens(n);
    var rest := " = " + SeekMark(n);
    NoParensBalanced(rest);
    BalancedConcat(k.expr, rest);
    assert EqPart(k, SeekMark(n)) == k.expr + rest;
  }

  lemma CmpPartBalanced(k: SeekKey, n: nat)
    requires Balanced(k.expr)
    ensures Balanced(CmpPart(k, SeekMark(n)))
  {
    MarkNoParens(n);
    var rest := " " + (if k.desc then "<" else ">") + " " + SeekMark(n);
    NoParensBalanced(rest);
    BalancedConcat(k.expr, rest);
    assert CmpPart(k, SeekMark(n)) == k.expr + rest;
  }

  lemma {:induction false} JoinBalanced(parts: seq<string>, sep: string)
    requires '(' !in sep && ')' !in sep
    requires forall j :: 0 <= j < |parts| ==> Balanced(parts[j])
    ensures Balanced(Join(parts, sep))
    decreases |parts|
  {
    if |parts| == 0 {
      NoParensBalanced("");
    } else if |parts| > 1 {
      JoinBalanced(parts[1..], sep);
      NoParensBalanced(sep);
      BalancedConcat(parts[0], sep);
      BalancedConcat(parts[0] + sep, Join(parts[1..], sep));
    }
  }

  /** With balanced column expressions every term is balanced. */
  lemma TermBalanced(term: TermFn, ks: seq<SeekKey>, b: nat)
    requires RendersTerms(term)
    requires forall j :: 0 <= j < |ks| ==> Balanced(ks[j].expr)
    ensures Balanced(term(ks, b))
  {
    var parts := TermParts(ks, b);
    if |ks| > 0 {
      forall j | 0 <= j < |parts|
        ensures Balanced(parts[j])
      {
        if j < |ks| - 1 {
          EqPartBalanced(ks[j], b + j + 1);
        } else {
          CmpPartBalanced(ks[j], b + |ks|);
        }
      }
    }
    JoinBalanced(parts, " AND ");
    BalancedWrap(Join(parts, " AND "));
    assert term(ks, b) == Term(ks, b);
  }

  /** The first term alone: one key compared, balanced when its expression is. */
  lemma FirstTermBalanced(term: TermFn, ks: seq<SeekKey>, m: nat)
    requires RendersTerms(term) && |ks| >= 1 && Balanced(ks[0].expr)
    ensures Net(term(ks[..1], m)) == 0
  {
    TermBalanced(term, ks[..1], m);
  }

  /** As written: the predicate text has an " OR " outside every parenthesis. */
  lemma {:induction false} SeekTextSplitsAtOr(term: TermFn, ks: seq<SeekKey>, m: nat)
    requires RendersTerms(term) && |ks| >= 2 && Balanced(ks[0].expr)
    ensures OrAtTop(Join(OrTerms(term, ks, m), " OR "), |term(ks[..1], m)|)
  {
    var parts := OrTerms(term, ks, m);
    OrTermsAt(term, ks, m, 0);
    FirstTermBalanced(term, ks, m);
    var t0 := parts[0];
    var p := Join(parts, " OR ");
    assert p == t0 + " OR " + Join(parts[1..], " OR ");
    assert p[..|t0|] == t0;
    assert p[|t0|..|t0| + 4] == " OR ";
  }

  lemma SeekTextBalanced(term: TermFn, ks: seq<SeekKey>, m: nat)
    requires RendersTerms(term)
    requires forall j :: 0 <= j < |ks| ==> Balanced(ks[j].expr)
    ensures Balanced(Join(OrTerms(term, ks, m), " OR "))
  {
    var parts := OrTerms(term, ks, m);
    forall i | 0 <= i < |parts|
      ensures Balanced(parts[i])
    {
      OrTermsAt(term, ks, m, i);
      TermBalanced(term, ks[..i + 1], m + Tri(i));
    }
    JoinBalanced(parts, " OR ");
  }

  lemma SeekTextEnclosed(term: TermFn, ks: seq<SeekKey>, m: nat)
    requires RendersTerms(term)
    requires forall j :: 0 <= j < |ks| ==> Balanced(ks[j].expr)
    ensures KeptTogether("(" + Join(OrTerms(term, ks, m), " OR ") + ")")
  {
    var p := Join(OrTerms(term, ks, m), " OR ");
    SeekTextBalanced(term, ks, m);
    BalancedWrap(p);
    EnclosedNoTopOr("(" + p + ")");
  }

  /**
   * As written, with a WHERE clause already in the statement and two or
   * more sort fields, the statement ends in AND followed by the predicate,
   * whose first " OR " no parenthesis encloses: the filter before the AND
   * only constrains the first term.
   */
  lemma SeekOrEscapesWhere(base: SqlStatement, ks: seq<SeekKey>, m: nat)
    requires BaseHasWhere(base.sql) && |ks| >= 2 && Balanced(ks[0].expr)
    ensures var p := Join(OrTerms(Term, ks, m), " OR ");
      SeekJoinAsWritten(base, Rendered(p, SeekBinds(ks))).sql == base.sql + " AND " + p
      && exists i: nat :: OrAtTop(p, i)
  {
    SeekTextSplitsAtOr(Term, ks, m);
  }

  /**
   * Corrected: SeekJoin appends the predicate as one parenthesised group,
   * so no " OR " of it stands outside the group.
   */
  lemma SeekPredicateEnclosed(ks: seq<SeekKey>, m: nat)
    requires forall j :: 0 <= j < |ks| ==> Balanced(ks[j].expr)
    ensures KeptTogether("(" + Join(OrTerms(Term, ks, m), " OR ") + ")")
  {
    SeekTextEnclosed(Term, ks, m);
  }
}
