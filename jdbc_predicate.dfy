/**
 * How the JDBC dialect turns a filter tree into a SQL predicate: property
 * paths become column expressions through the view's mapping, operands
 * become positional binds named ":b1", ":b2", ... in the order they are
 * met, and a negation is pushed down to the conditions (De Morgan on
 * groups).
 */
module JdbcPredicate {
  import opened Wrappers
  import opened Strings
  import opened Values
  import opened Authoring
  import opened QueryAst
  import opened SqlRender
  import opened PostgresDialect
  import PropertyTypeResolver
  import ViewMappings
  import UuidText

  /** The refusal for a nested query or a GROUP BY marker found in a filter; Java names the element's class. */
  const UnsupportedQuery := "Unsupported QueryElement in filter: io.intellixity.nativa.persistence.query.Query"
  const UnsupportedGroupBy := "Unsupported QueryElement in filter: io.intellixity.nativa.persistence.query.aggregation.GroupBy"

  /** The column expression a mapping entry names: the string itself, or a map's "ref", else its "column". */
  function ExprOfSpec(spec: Value): Option<string>
  {
    match spec
    case VStr(s) => Some(s)
    case VMap(m) =>
      if GetOrNull(m, "ref") != VNull then Some(Show(GetOrNull(m, "ref")))
      else if GetOrNull(m, "column") != VNull then Some(Show(GetOrNull(m, "column")))
      else None
    case _ => None
  }

  /**
   * resolveSqlExpr: a usable direct entry wins; a dotted path then looks its
   * remainder up, one level only, in the parent's "fields" map; None is
   * Java's null.
   */
  function ResolveSqlExpr(view: ViewDef, path: string): Option<string>
  {
    var direct := ExprOfSpec(GetOrNull(view.mapping, path));
    if direct.Some? then direct
    else if '.' in path then
      var parts := SplitFirst(path, '.');
      match GetOrNull(view.mapping, parts[0])
      case VMap(nested) =>
        (match GetOrNull(nested, "fields")
         case VMap(fm) => ExprOfSpec(GetOrNull(fm, parts[1]))
         case _ => None)
      case _ => None
    else ExprOfSpec(GetOrNull(view.mapping, path))
  }

  /**
   * Where the mapping holds no unusable entry under the full path, the
   * expression a filter uses is the reference the mapping policy gives for
   * that path.
   */
  lemma ResolveAgreesWithRef(view: ViewDef, path: string, e: string)
    requires ResolveSqlExpr(view, path) == Some(e)
    requires !HasKey(view.mapping, path) || ExprOfSpec(GetOrNull(view.mapping, path)).Some?
    ensures ViewMappings.Ref(view, path) == e
  {
    if ExprOfSpec(GetOrNull(view.mapping, path)).None? {
      var parts := SplitFirst(path, '.');
      var nested := GetOrNull(view.mapping, parts[0]).entries;
      var fm := GetOrNull(nested, "fields").entries;
      assert ExprOfSpec(GetOrNull(fm, parts[1])) == Some(e);
      assert ViewMappings.FindSpec(view.mapping, path) == ViewMappings.FindSpec(fm, parts[1]);
      assert Get(fm, parts[1]).Some?;
    }
  }

  /** The column type coerceScalar treats specially, compared ignoring case. */
  predicate IsUuidType(userTypeId: string)
  {
    ToLower(userTypeId) == "uuid"
  }

  /**
   * coerceScalar: on a uuid column an operand that is not already a UUID is
   * parsed from its trimmed text, and UUID.fromString may refuse it; null
   * and the operands of any other column pass unchanged.
   */
  function CoerceScalar(userTypeId: string, v: Value): (r: Result<Value>)
    ensures v == VNull || !IsUuidType(userTypeId) || v.VUuid? ==> r == Ok(v)
    ensures r.Err? <==> v != VNull && IsUuidType(userTypeId) && !v.VUuid? && UuidText.FromString(Trim(Show(v))).Err?
    ensures r.Err? ==> r.error == UuidText.FromString(Trim(Show(v))).error
    ensures r.Ok? && v != VNull && IsUuidType(userTypeId) ==> r.value.VUuid?
  {
    if v == VNull then Ok(v)
    else if IsUuidType(userTypeId) then
      if v.VUuid? then Ok(v)
      else
        var u :- UuidText.FromString(Trim(Show(v)));
        Ok(VUuid(u))
    else Ok(v)
  }

  /** A text operand on a uuid column is bound as the UUID's canonical text, which coerces to itself. */
  lemma CoercedUuidCanonical(userTypeId: string, t: string)
    requires IsUuidType(userTypeId) && CoerceScalar(userTypeId, VStr(t)).Ok?
    ensures CoerceScalar(userTypeId, VStr(t)).value.VUuid?
    ensures UuidText.IsCanonical(CoerceScalar(userTypeId, VStr(t)).value.uuid)
    ensures CoerceScalar(userTypeId, VStr(CoerceScalar(userTypeId, VStr(t)).value.uuid)) == CoerceScalar(userTypeId, VStr(t))
  {
    var u := UuidText.FromString(Trim(t)).value;
    CoerceTextParsed(userTypeId, t, u);
    UuidText.ParsedIsCanonical(Trim(t));
    UuidText.TrimCanonical(u);
    CanonicalTextCoerced(userTypeId, u);
  }

  /** Text on a uuid column is bound as the UUID that UUID.fromString parses from it. */
  lemma CoerceTextParsed(userTypeId: string, t: string, u: string)
    requires IsUuidType(userTypeId) && UuidText.FromString(Trim(t)) == Ok(u)
    ensures CoerceScalar(userTypeId, VStr(t)) == Ok(VUuid(u))
  {
  }

  /** Canonical UUID text, padded or not, is accepted on a uuid column as the UUID it spells. */
  lemma CanonicalTextCoerced(userTypeId: string, t: string)
    requires IsUuidType(userTypeId) && UuidText.IsCanonical(Trim(t))
    ensures CoerceScalar(userTypeId, VStr(t)) == Ok(VUuid(Trim(t)))
  {
    UuidText.CanonicalRoundTrip(Trim(t));
    CoerceTextParsed(userTypeId, t, Trim(t));
  }

  /**
   * A comparison on a uuid column whose operand is text UUID.fromString
   * refuses fails the whole render with that IllegalArgument.
   */
  lemma NonUuidTextFailsRender(ea: EntityAuthoring, view: ViewDef, reg: Registry, c: Element, t: string, ut: string, e: Error)
    requires c.Condition? && c.op in {EQ, NE, GT, GE, LT, LE, LIKE} && c.value == VStr(t)
    requires ResolveSqlExpr(view, c.property).Some? && !IsBlank(ResolveSqlExpr(view, c.property).value)
    requires PropertyTypeResolver.ResolveNoCache(reg, Some(ea), c.property) == Ok(Some(ut)) && IsUuidType(ut)
    requires UuidText.FromString(Trim(t)) == Err(e)
    ensures PredicateOf(ea, view, reg, Some(c)) == Err(e)
    ensures e.IllegalArgument?
  {
    assert CoerceScalar(ut, c.value) == Err(e);
    CondSqlRefused(ea, view, reg, c, ut, e);
    assert PredicateOf(ea, view, reg, Some(c)) == CondOf(ea, view, reg)(c, false, 0);
  }

  /** The condition itself, resolved to a uuid column, renders as its operand's refusal. */
  lemma CondSqlRefused(ea: EntityAuthoring, view: ViewDef, reg: Registry, c: Element, ut: string, e: Error)
    requires c.Condition? && c.op in {EQ, NE, GT, GE, LT, LE, LIKE} && c.value != VNull
    requires ResolveSqlExpr(view, c.property).Some? && !IsBlank(ResolveSqlExpr(view, c.property).value)
    requires PropertyTypeResolver.ResolveNoCache(reg, Some(ea), c.property) == Ok(Some(ut))
    requires CoerceScalar(ut, c.value) == Err(e)
    ensures CondSql(ea, view, reg, c, false, 0) == Err(e)
  {
    OpSqlRefused(ResolveSqlExpr(view, c.property).value, c, ut, c.not, 0, e);
  }

  /** A comparison whose operand coerceScalar refuses renders as that refusal. */
  lemma OpSqlRefused(expr: string, c: Element, userTypeId: string, not: bool, k: nat, e: Error)
    requires c.Condition? && c.op in {EQ, NE, GT, GE, LT, LE, LIKE} && c.value != VNull
    requires CoerceScalar(userTypeId, c.value) == Err(e)
    ensures OpSql(expr, c, userTypeId, not, k) == Err(e)
  {
    UnaryRefused(expr, OpText(c.op), c.value, userTypeId, not, k, e);
  }

  /** A refused operand is the comparison's error, with or without the null check. */
  lemma UnaryRefused(expr: string, op: string, value: Value, userTypeId: string, not: bool, k: nat, e: Error)
    requires value != VNull && CoerceScalar(userTypeId, value) == Err(e)
    ensures UnarySql(expr, op, value, userTypeId, not, k) == Err(e)
    ensures UnaryNonNull(expr, op, value, userTypeId, not, k) == Err(e)
  {
  }

  /** "not-a-uuid", padded or not, compared with a uuid column: the render fails with Java's message. */
  lemma NotAUuidFailsRender(ea: EntityAuthoring, view: ViewDef, reg: Registry, c: Element, t: string, ut: string)
    requires c.Condition? && c.op == EQ && c.value == VStr(t) && Trim(t) == "not-a-uuid"
    requires ResolveSqlExpr(view, c.property).Some? && !IsBlank(ResolveSqlExpr(view, c.property).value)
    requires PropertyTypeResolver.ResolveNoCache(reg, Some(ea), c.property) == Ok(Some(ut)) && IsUuidType(ut)
    ensures PredicateOf(ea, view, reg, Some(c)) == Err(IllegalArgument(UuidText.InvalidText("not-a-uuid")))
  {
    var s := Trim(t);
    UuidText.NotAUuid(s);
    NonUuidTextFailsRender(ea, view, reg, c, t, ut, IllegalArgument(UuidText.InvalidText(s)));
  }

  /** toList: null is no value, a List, Set or other Collection its items, anything else (an array too) one value. */
  function ToList(v: Value): seq<Value>
  {
    if v == VNull then []
    else if v.VList? && v.kind != JArray then v.items
    else [v]
  }

  /** The placeholders of n consecutive binds starting at index k. */
  function Placeholders(k: nat, n: nat): (r: seq<string>)
    ensures |r| == n
    ensures forall i :: 0 <= i < n ==> r[i] == Placeholder(k + i)
  {
    seq(n, i requires 0 <= i < n => Placeholder(k + i))
  }

  /** One bind more: its placeholder is appended. */
  lemma PlaceholdersSnoc(k: nat, n: nat)
    ensures Placeholders(k, n + 1) == Placeholders(k, n) + [Placeholder(k + n)]
  {
    assert forall i :: 0 <= i < n ==> Placeholders(k, n + 1)[i] == Placeholders(k, n)[i];
  }

  /** Each value put through coerce and bound with the column's type, in order; the first value refused decides the error. */
  function CoerceEach(coerce: Value -> Result<Value>, vals: seq<Value>, userTypeId: string): (r: Result<seq<Bind>>)
    ensures r.Ok? <==> forall i :: 0 <= i < |vals| ==> coerce(vals[i]).Ok?
    ensures r.Ok? ==> |r.value| == |vals|
    ensures r.Ok? ==> forall i :: 0 <= i < |vals| ==> r.value[i] == Bind(coerce(vals[i]).value, userTypeId)
  {
    if |vals| == 0 then Ok([])
    else
      var pre :- CoerceEach(coerce, vals[..|vals| - 1], userTypeId);
      var v :- coerce(vals[|vals| - 1]);
      Ok(pre + [Bind(v, userTypeId)])
  }

  /** Once a prefix of the values is refused, the whole list is refused with that error. */
  lemma {:induction false} CoerceEachStops(coerce: Value -> Result<Value>, vals: seq<Value>, userTypeId: string, i: nat)
    requires 0 < i <= |vals| && CoerceEach(coerce, vals[..i], userTypeId).Err?
    ensures CoerceEach(coerce, vals, userTypeId) == CoerceEach(coerce, vals[..i], userTypeId)
    decreases |vals| - i
  {
    if i < |vals| {
      assert vals[..i + 1][..i] == vals[..i];
      CoerceEachStops(coerce, vals, userTypeId, i + 1);
    } else {
      assert vals[..i] == vals;
    }
  }

  /** One more value: its coercion is refused, or its bind is appended. */
  lemma CoerceEachStep(coerce: Value -> Result<Value>, vals: seq<Value>, userTypeId: string, i: nat)
    requires i < |vals| && CoerceEach(coerce, vals[..i], userTypeId).Ok?
    ensures coerce(vals[i]).Err? ==> CoerceEach(coerce, vals[..i + 1], userTypeId) == Err(coerce(vals[i]).error)
    ensures coerce(vals[i]).Ok? ==>
      CoerceEach(coerce, vals[..i + 1], userTypeId) == Ok(CoerceEach(coerce, vals[..i], userTypeId).value + [Bind(coerce(vals[i]).value, userTypeId)])
  {
    assert vals[..i + 1][..i] == vals[..i];
  }

  /** vals[i] is the first value coerce refuses, with error e. */
  ghost predicate FirstRefused(coerce: Value -> Result<Value>, vals: seq<Value>, i: nat, e: Error)
    requires i < |vals|
  {
    coerce(vals[i]) == Err(e) && forall j :: 0 <= j < i ==> coerce(vals[j]).Ok?
  }

  /** A refused list is refused with the error of its first refused value. */
  lemma {:induction false} CoerceEachFirstError(coerce: Value -> Result<Value>, vals: seq<Value>, userTypeId: string)
    requires CoerceEach(coerce, vals, userTypeId).Err?
    ensures exists i :: 0 <= i < |vals| && FirstRefused(coerce, vals, i, CoerceEach(coerce, vals, userTypeId).error)
    decreases |vals|
  {
    var init := vals[..|vals| - 1];
    var last := |vals| - 1;
    if CoerceEach(coerce, init, userTypeId).Err? {
      CoerceEachFirstError(coerce, init, userTypeId);
      var i :| 0 <= i < |init| && FirstRefused(coerce, init, i, CoerceEach(coerce, init, userTypeId).error);
      assert forall j :: 0 <= j <= i ==> vals[j] == init[j];
      assert FirstRefused(coerce, vals, i, CoerceEach(coerce, vals, userTypeId).error);
    } else {
      assert forall j :: 0 <= j < last ==> vals[j] == init[j];
      assert FirstRefused(coerce, vals, last, CoerceEach(coerce, vals, userTypeId).error);
    }
  }

  /** coerceScalar for one column type, as a function of the operand. */
  function CoercerFor(userTypeId: string): Value -> Result<Value>
  {
    v => CoerceScalar(userTypeId, v)
  }

  /** Each value coerced by coerceScalar and bound with the column's type, in order. */
  function CoerceAll(vals: seq<Value>, userTypeId: string): (r: Result<seq<Bind>>)
    ensures r.Ok? <==> forall i :: 0 <= i < |vals| ==> CoerceScalar(userTypeId, vals[i]).Ok?
    ensures r.Ok? ==> |r.value| == |vals|
    ensures r.Ok? ==> forall i :: 0 <= i < |vals| ==> r.value[i] == Bind(CoerceScalar(userTypeId, vals[i]).value, userTypeId)
  {
    CoerceEach(CoercerFor(userTypeId), vals, userTypeId)
  }

  /** A refused list of operands is refused with the error of the first operand coerceScalar refuses. */
  lemma CoerceAllFirstError(vals: seq<Value>, userTypeId: string)
    requires CoerceAll(vals, userTypeId).Err?
    ensures exists i :: (0 <= i < |vals| && CoerceScalar(userTypeId, vals[i]) == Err(CoerceAll(vals, userTypeId).error)
                         && forall j :: 0 <= j < i ==> CoerceScalar(userTypeId, vals[j]).Ok?)
  {
    var coerce := CoercerFor(userTypeId);
    CoerceEachFirstError(coerce, vals, userTypeId);
    var i :| 0 <= i < |vals| && FirstRefused(coerce, vals, i, CoerceEach(coerce, vals, userTypeId).error);
    assert CoerceScalar(userTypeId, vals[i]) == Err(CoerceAll(vals, userTypeId).error);
  }

  /** nullCheckSql. */
  function NullCheckSql(expr: string, isNull: bool, not: bool): string
  {
    NotWrap(expr + (if isNull then " IS NULL" else " IS NOT NULL"), not)
  }

  /** unarySql: one coerced bind compared with op; an operand the column's type refuses fails the render. */
  function UnarySql(expr: string, op: string, value: Value, userTypeId: string, not: bool, k: nat): (r: Result<Rendered>)
    ensures r.Err? <==> CoerceScalar(userTypeId, value).Err?
    ensures r.Err? ==> r.error == CoerceScalar(userTypeId, value).error
    ensures r.Ok? ==> r.value.binds == [Bind(CoerceScalar(userTypeId, value).value, userTypeId)]
  {
    var v :- CoerceScalar(userTypeId, value);
    Ok(Rendered(NotWrap(expr + " " + op + " " + Placeholder(k), not), [Bind(v, userTypeId)]))
  }

  /** unaryNonNull: as unarySql, but a null operand is refused first. */
  function UnaryNonNull(expr: string, op: string, value: Value, userTypeId: string, not: bool, k: nat): (r: Result<Rendered>)
    ensures r.Err? <==> value == VNull || CoerceScalar(userTypeId, value).Err?
    ensures value == VNull ==> r.error == IllegalArgument(op + " requires non-null value")
    ensures value != VNull ==> r == UnarySql(expr, op, value, userTypeId, not, k)
  {
    if value == VNull then Err(IllegalArgument(op + " requires non-null value"))
    else UnarySql(expr, op, value, userTypeId, not, k)
  }

  /** The BETWEEN text over two placeholders. */
  function BetweenText(expr: string, p1: string, p2: string): string
  {
    expr + " BETWEEN " + p1 + " AND " + p2
  }

  /** betweenSql: lower then upper, each coerced and bound; the first bound refused decides the error. */
  function BetweenSql(expr: string, lower: Value, upper: Value, userTypeId: string, not: bool, k: nat): (r: Result<Rendered>)
    ensures CoerceScalar(userTypeId, lower).Err? ==> r == Err(CoerceScalar(userTypeId, lower).error)
    ensures CoerceScalar(userTypeId, lower).Ok? && CoerceScalar(userTypeId, upper).Err? ==>
      r == Err(CoerceScalar(userTypeId, upper).error)
    ensures r.Ok? ==> r.value.binds == [Bind(CoerceScalar(userTypeId, lower).value, userTypeId), Bind(CoerceScalar(userTypeId, upper).value, userTypeId)]
    ensures r.Ok? <==> CoerceScalar(userTypeId, lower).Ok? && CoerceScalar(userTypeId, upper).Ok?
  {
    var lo :- CoerceScalar(userTypeId, lower);
    var hi :- CoerceScalar(userTypeId, upper);
    Ok(Rendered(NotWrap(BetweenText(expr, Placeholder(k), Placeholder(k + 1)), not), [Bind(lo, userTypeId), Bind(hi, userTypeId)]))
  }

  /**
   * listSql: one bind per value; with no values IN is false and NOT IN
   * true, which a negation turns around.
   */
  function ListSql(expr: string, op: string, vals: seq<Value>, userTypeId: string, not: bool, k: nat): (r: Result<Rendered>)
    ensures vals == [] ==> r == Ok(Rendered(if not then "TRUE" else "FALSE", []))
    ensures r.Err? <==> CoerceAll(vals, userTypeId).Err?
    ensures r.Err? ==> r.error == CoerceAll(vals, userTypeId).error
    ensures r.Ok? ==> r.value.binds == CoerceAll(vals, userTypeId).value
    ensures r.Ok? && vals != [] ==> r.value.sql == ListText(expr, op, |vals|, not, k)
  {
    if vals == [] then Ok(Rendered(if not then "TRUE" else "FALSE", []))
    else
      var binds :- CoerceAll(vals, userTypeId);
      Ok(Rendered(ListText(expr, op, |vals|, not, k), binds))
  }

  /** The list text over n placeholders numbered on from k. */
  function ListText(expr: string, op: string, n: nat, not: bool, k: nat): string
  {
    NotWrap(expr + " " + op + " (" + Join(Placeholders(k, n), ", ") + ")", not)
  }

  /** ARRAY_CONTAINS with its effective negation: containing no values always holds; a null element is refused. */
  function ContainsOp(expr: string, vals: seq<Value>, userTypeId: string, effNot: bool, k: nat): (r: Result<Rendered>)
    ensures vals == [] ==> r == Ok(Rendered(if effNot then "FALSE" else "TRUE", []))
    ensures r.Err? <==> VNull in vals
    ensures r.Err? ==> r.error == NullPointer("")
    ensures r.Ok? && vals != [] ==> r.value.binds == [Bind(VList(JList, vals), userTypeId)]
  {
    if vals == [] then Ok(Rendered(if effNot then "FALSE" else "TRUE", []))
    else ArrayContainsSql(expr, vals, userTypeId, effNot, k)
  }

  /** ARRAY_OVERLAPS with its effective negation: overlapping no values never holds; a null element is refused. */
  function OverlapsOp(expr: string, vals: seq<Value>, userTypeId: string, effNot: bool, k: nat): (r: Result<Rendered>)
    ensures vals == [] ==> r == Ok(Rendered(if effNot then "TRUE" else "FALSE", []))
    ensures r.Err? <==> VNull in vals
    ensures r.Err? ==> r.error == NullPointer("")
    ensures r.Ok? && vals != [] ==> r.value.binds == [Bind(VList(JList, vals), userTypeId)]
  {
    if vals == [] then Ok(Rendered(if effNot then "TRUE" else "FALSE", []))
    else ArrayOverlapsSql(expr, vals, userTypeId, effNot, k)
  }

  /** The SQL operator word of a comparison or list operator; the other operators have none. */
  function OpText(op: Operator): string
  {
    match op
    case EQ => "="
    case NE => "<>"
    case GT => ">"
    case GE => ">="
    case LT => "<"
    case LE => "<="
    case LIKE => "LIKE"
    case IN => "IN"
    case NIN => "NOT IN"
    case _ => ""
  }

  /** The operator switch of renderPredicateSql, for a resolved expression and type. */
  function OpSql(expr: string, c: Element, userTypeId: string, not: bool, k: nat): Result<Rendered>
    requires c.Condition?
  {
    match c.op
    case EQ | NE =>
      if c.value == VNull then Ok(Rendered(NullCheckSql(expr, c.op == EQ, not), []))
      else UnarySql(expr, OpText(c.op), c.value, userTypeId, not, k)
    case GT | GE | LT | LE | LIKE => UnaryNonNull(expr, OpText(c.op), c.value, userTypeId, not, k)
    case IN | NIN => ListSql(expr, OpText(c.op), ToList(c.value), userTypeId, not, k)
    case RANGE =>
      if c.lower == VNull || c.upper == VNull then
        Err(IllegalArgument("RANGE requires non-null lower+upper for property '" + c.property + "'"))
      else BetweenSql(expr, c.lower, c.upper, userTypeId, not, k)
    case ARRAY_CONTAINS | ARRAY_NOT_CONTAINS =>
      ContainsOp(expr, ToList(c.value), userTypeId, not != (c.op == ARRAY_NOT_CONTAINS), k)
    case ARRAY_OVERLAPS | ARRAY_NOT_OVERLAPS =>
      OverlapsOp(expr, ToList(c.value), userTypeId, not != (c.op == ARRAY_NOT_OVERLAPS), k)
    case JSON_PATH_EXISTS => Ok(Rendered(JsonPathExistsSql(expr, Show(c.value), not), []))
    case JSON_VALUE_EQ => JsonValueEqSql(expr, c.value, not, k)
  }

  /** The array operators: List.copyOf refuses a non-empty operand list that holds a null, before any bind. */
  lemma ArrayOpNullIff(expr: string, c: Element, userTypeId: string, not: bool, k: nat)
    requires c.Condition? && c.op in {ARRAY_CONTAINS, ARRAY_NOT_CONTAINS, ARRAY_OVERLAPS, ARRAY_NOT_OVERLAPS}
    ensures OpSql(expr, c, userTypeId, not, k).Err? <==> VNull in ToList(c.value)
    ensures OpSql(expr, c, userTypeId, not, k).Err? ==> OpSql(expr, c, userTypeId, not, k).error == NullPointer("")
    ensures OpSql(expr, c, userTypeId, not, k).Ok? ==>
      OpSql(expr, c, userTypeId, not, k).value.binds == (if ToList(c.value) == [] then [] else [Bind(VList(JList, ToList(c.value)), userTypeId)])
  {
    match c.op
    case ARRAY_CONTAINS | ARRAY_NOT_CONTAINS =>
    case ARRAY_OVERLAPS | ARRAY_NOT_OVERLAPS =>
  }

  /** An array condition on a mapped scalar path whose operand list holds a null fails the whole render. */
  lemma NullElementFailsRender(ea: EntityAuthoring, view: ViewDef, reg: Registry, c: Element, ut: string)
    requires c.Condition? && c.op in {ARRAY_CONTAINS, ARRAY_NOT_CONTAINS, ARRAY_OVERLAPS, ARRAY_NOT_OVERLAPS}
    requires VNull in ToList(c.value)
    requires ResolveSqlExpr(view, c.property).Some? && !IsBlank(ResolveSqlExpr(view, c.property).value)
    requires PropertyTypeResolver.ResolveNoCache(reg, Some(ea), c.property) == Ok(Some(ut))
    ensures PredicateOf(ea, view, reg, Some(c)) == Err(NullPointer(""))
  {
    ArrayOpNullIff(ResolveSqlExpr(view, c.property).value, c, ut, c.not, 0);
    assert CondSql(ea, view, reg, c, false, 0) == Err(NullPointer(""));
    assert PredicateOf(ea, view, reg, Some(c)) == CondOf(ea, view, reg)(c, false, 0);
  }

  /** The message for a property the view does not map. */
  function UnknownFieldPath(ea: EntityAuthoring, view: ViewDef, path: string): string
  {
    "Unknown field path '" + path + "' for view '" + view.id + "' (entity '" + ea.entityType + "')"
  }

  /** The message for a property that is no scalar field of the entity. */
  function UnknownScalarPath(ea: EntityAuthoring, path: string): string
  {
    "Unknown scalar field path '" + path + "' in entity '" + ea.entityType + "'"
  }

  /** A condition: its expression must resolve and be non-blank, its path must lead to a scalar type. */
  function CondSql(ea: EntityAuthoring, view: ViewDef, reg: Registry, c: Element, negate: bool, k: nat)
    : (r: Result<Rendered>)
    requires c.Condition?
    ensures ResolveSqlExpr(view, c.property).None? ==> r == Err(QueryValidation(UnknownFieldPath(ea, view, c.property)))
  {
    var expr := ResolveSqlExpr(view, c.property);
    if expr.None? || IsBlank(expr.value) then Err(QueryValidation(UnknownFieldPath(ea, view, c.property)))
    else
      match PropertyTypeResolver.ResolveNoCache(reg, Some(ea), c.property)
      case Err(e) => Err(e)
      case Ok(None) => Err(QueryValidation(UnknownScalarPath(ea, c.property)))
      case Ok(Some(ut)) => OpSql(expr.value, c, ut, c.not != negate, k)
  }


  /*
   * The walk over the filter tree.
   */

  /** How one condition renders, given the pending negation and the number of binds already handed out. */
  type CondRenderer = (Element, bool, nat) -> Result<Rendered>

  /** The rendered children of a group so far: the non-blank fragments and every bind. */
  datatype Kids = Kids(sqls: seq<string>, binds: seq<Bind>)

  /** The fragments joined: nothing, the only one bare, or all in parentheses. */
  function Combine(clause: Clause, sqls: seq<string>): (r: string)
    ensures sqls == [] ==> r == ""
    ensures |sqls| == 1 ==> r == sqls[0]
    ensures |sqls| >= 2 ==> |r| >= 2 && r[0] == '(' && r[|r| - 1] == ')'
  {
    if sqls == [] then ""
    else if |sqls| == 1 then sqls[0]
    else "(" + Join(sqls, if clause == OR then " OR " else " AND ") + ")"
  }

  /**
   * renderPredicateSql as a walk with its condition branch left open: a NOT
   * flips the pending negation, a group renders its children left to right
   * and flips its clause under a negation, a nested query or GROUP BY marker
   * is refused. k is the number of binds already handed out; the result's
   * binds are the ones this element adds, in order.
   */
  function Walk(cond: CondRenderer, el: Element, negate: bool, k: nat): Result<Rendered>
    decreases el, 1
  {
    match el
    case Not(e) => Walk(cond, e, !negate, k)
    case Group(clause, es) =>
      var kids :- WalkKids(cond, el, negate, k, |es|);
      Ok(Rendered(Combine(if negate then Flip(clause) else clause, kids.sqls), kids.binds))
    case Condition(_, _, _, _, _, _) => cond(el, negate, k)
    case Nested(_) => Err(IllegalArgument(UnsupportedQuery))
    case GroupBy(_) => Err(IllegalArgument(UnsupportedGroupBy))
  }

  /** The first n children of a group, rendered left to right; a blank fragment is dropped but its binds stay. */
  function WalkKids(cond: CondRenderer, g: Element, negate: bool, k: nat, n: nat): Result<Kids>
    requires g.Group? && n <= |g.elements|
    decreases g, 0, n
  {
    if n == 0 then Ok(Kids([], []))
    else
      var prev :- WalkKids(cond, g, negate, k, n - 1);
      var r :- Walk(cond, g.elements[n - 1], negate, k + |prev.binds|);
      Ok(Kids(if IsBlank(r.sql) then prev.sqls else prev.sqls + [r.sql], prev.binds + r.binds))
  }

  /** The JDBC condition branch (the walk only ever hands it conditions). */
  function CondOf(ea: EntityAuthoring, view: ViewDef, reg: Registry): CondRenderer
  {
    (c: Element, negate: bool, k: nat) =>
      if c.Condition? then CondSql(ea, view, reg, c, negate, k) else Err(IllegalState(""))
  }

  /** renderPredicateSql for an entity, its view and the type registry. */
  function PredSql(ea: EntityAuthoring, view: ViewDef, reg: Registry, el: Element, negate: bool, k: nat): Result<Rendered>
  {
    Walk(CondOf(ea, view, reg), el, negate, k)
  }

  /** renderPredicate: no filter renders as nothing; otherwise binds are counted from the first. */
  function PredicateOf(ea: EntityAuthoring, view: ViewDef, reg: Registry, filter: Option<Element>): Result<Rendered>
  {
    if filter.None? then Ok(Rendered("", [])) else PredSql(ea, view, reg, filter.value, false, 0)
  }

  /** One more child rendered: its fragment kept unless blank, its binds appended, or its error the group's. */
  lemma KidsStep(cond: CondRenderer, g: Element, negate: bool, k: nat, i: nat, prev: Kids, child: Result<Rendered>)
    requires g.Group? && i < |g.elements|
    requires WalkKids(cond, g, negate, k, i) == Ok(prev)
    requires child == Walk(cond, g.elements[i], negate, k + |prev.binds|)
    ensures child.Err? ==> WalkKids(cond, g, negate, k, i + 1) == Err(child.error)
    ensures child.Ok? ==>
              WalkKids(cond, g, negate, k, i + 1) ==
              Ok(Kids(if IsBlank(child.value.sql) then prev.sqls else prev.sqls + [child.value.sql], prev.binds + child.value.binds))
  {
  }

  /** A failed prefix of children fails the longer prefix with the same error. */
  lemma KidsPrevFails(cond: CondRenderer, g: Element, negate: bool, k: nat, i: nat)
    requires g.Group? && i < |g.elements|
    requires WalkKids(cond, g, negate, k, i).Err?
    ensures WalkKids(cond, g, negate, k, i + 1) == WalkKids(cond, g, negate, k, i)
  {
  }

  /** Once a child fails, the group fails with that child's error. */
  lemma {:induction false} KidsFailureSticks(cond: CondRenderer, g: Element, negate: bool, k: nat, n: nat)
    requires g.Group? && 0 < n <= |g.elements|
    requires WalkKids(cond, g, negate, k, n).Err?
    ensures Walk(cond, g, negate, k) == Err(WalkKids(cond, g, negate, k, n).error)
    decreases |g.elements| - n
  {
    if n < |g.elements| {
      KidsPrevFails(cond, g, negate, k, n);
      KidsFailureSticks(cond, g, negate, k, n + 1);
    }
  }

  /** What one child's rendering, matching its specification, does to the group's progress. */
  lemma ChildStep(cond: CondRenderer, g: Element, negate: bool, k: nat, i: nat, prev: Kids,
                  s: Result<string>, before: seq<Bind>, after: seq<Bind>)
    requires g.Group? && i < |g.elements|
    requires WalkKids(cond, g, negate, k, i) == Ok(prev)
    requires |before| == k + |prev.binds|
    requires Follows(s, before, after, Walk(cond, g.elements[i], negate, |before|))
    ensures s.Err? ==> Walk(cond, g, negate, k) == Err(s.error)
    ensures s.Ok? ==>
              |before| <= |after| && after == before + after[|before|..] &&
              WalkKids(cond, g, negate, k, i + 1) ==
              Ok(Kids(if IsBlank(s.value) then prev.sqls else prev.sqls + [s.value], prev.binds + after[|before|..]))
  {
    var child := Walk(cond, g.elements[i], negate, |before|);
    KidsStep(cond, g, negate, k, i, prev, child);
    if s.Err? {
      KidsFailureSticks(cond, g, negate, k, i + 1);
    } else {
      assert after[|before|..] == child.value.binds;
    }
  }

  /** A child that rendered: the fragments and binds of the children so far grow by its own. */
  lemma KidsAdvance(cond: CondRenderer, g: Element, negate: bool, b0: seq<Bind>, i: nat, next: nat,
                    sqls: seq<string>, kb: seq<Bind>, s: string, after: seq<Bind>,
                    sqls': seq<string>, kb': seq<Bind>)
    requires g.Group? && i < |g.elements| && next == i + 1
    requires WalkKids(cond, g, negate, |b0|, i) == Ok(Kids(sqls, kb))
    requires Follows(Ok(s), b0 + kb, after, Walk(cond, g.elements[i], negate, |b0 + kb|))
    requires |b0 + kb| <= |after| && kb' == kb + after[|b0 + kb|..]
    requires sqls' == if IsBlank(s) then sqls else sqls + [s]
    ensures after == b0 + kb'
    ensures WalkKids(cond, g, negate, |b0|, next) == Ok(Kids(sqls', kb'))
  {
    ChildStep(cond, g, negate, |b0|, i, Kids(sqls, kb), Ok(s), b0 + kb, after);
    BindsAssoc(b0, kb, after[|b0 + kb|..]);
  }

  /** A group whose children all rendered: their fragments combined under the (possibly flipped) clause. */
  lemma GroupDone(cond: CondRenderer, g: Element, negate: bool, k: nat, kids: Kids)
    requires g.Group? && WalkKids(cond, g, negate, k, |g.elements|) == Ok(kids)
    ensures Walk(cond, g, negate, k) ==
      Ok(Rendered(Combine(if negate then Flip(g.clause) else g.clause, kids.sqls), kids.binds))
  {
  }

  /** cond renders every condition as the JDBC condition branch does. */
  ghost predicate Renders(cond: CondRenderer, ea: EntityAuthoring, view: ViewDef, reg: Registry)
  {
    forall c: Element, negate: bool, k: nat {:trigger CondSql(ea, view, reg, c, negate, k)} ::
      c.Condition? ==> cond(c, negate, k) == CondSql(ea, view, reg, c, negate, k)
  }

  lemma CondOfRenders(ea: EntityAuthoring, view: ViewDef, reg: Registry)
    ensures Renders(CondOf(ea, view, reg), ea, view, reg)
  {
  }

  /*
   * Negation.
   */

  /** A condition branch for which a pending negation is the same as the condition's own NOT flag flipped. */
  ghost predicate DualCond(cond: CondRenderer)
  {
    forall c: Element, k: nat :: c.Condition? ==> cond(c, true, k) == cond(Dual(c), false, k)
  }

  lemma {:induction false} WalkDual(cond: CondRenderer, el: Element, k: nat)
    requires DualCond(cond)
    ensures Walk(cond, el, true, k) == Walk(cond, Dual(el), false, k)
    decreases el, 1
  {
    match el
    case Group(clause, es) =>
      WalkKidsDual(cond, el, Dual(el), k, |es|);
      assert Flip(Flip(clause)) == clause;
    case Condition(_, _, _, _, _, _) =>
    case Not(e) =>
    case Nested(_) =>
    case GroupBy(_) =>
  }

  /** Children rendered under a negation equal, one by one, their duals rendered without it. */
  lemma {:induction false} WalkKidsDual(cond: CondRenderer, g: Element, h: Element, k: nat, n: nat)
    requires DualCond(cond)
    requires g.Group? && h.Group? && |h.elements| == |g.elements| && n <= |g.elements|
    requires forall i :: 0 <= i < |g.elements| ==> h.elements[i] == Dual(g.elements[i])
    ensures WalkKids(cond, g, true, k, n) == WalkKids(cond, h, false, k, n)
    decreases g, 0, n
  {
    if n > 0 {
      WalkKidsDual(cond, g, h, k, n - 1);
      var prev := WalkKids(cond, g, true, k, n - 1);
      if prev.Ok? {
        var kk := k + |prev.value.binds|;
        var child := Walk(cond, g.elements[n - 1], true, kk);
        WalkDual(cond, g.elements[n - 1], kk);
        KidsStep(cond, g, true, k, n - 1, prev.value, child);
        KidsStep(cond, h, false, k, n - 1, prev.value, child);
      }
    }
  }

  /** The operator switch reads the operator, the operands and the property, never the NOT flag. */
  lemma OpSqlIgnoresFlag(expr: string, c: Element, d: Element, userTypeId: string, not: bool, k: nat)
    requires c.Condition? && d.Condition?
    requires c.property == d.property && c.op == d.op && c.value == d.value && c.lower == d.lower && c.upper == d.upper
    ensures OpSql(expr, c, userTypeId, not, k) == OpSql(expr, d, userTypeId, not, k)
  {
  }

  /** A pending negation on a condition is the condition's own NOT flag flipped. */
  lemma CondSqlDual(ea: EntityAuthoring, view: ViewDef, reg: Registry, c: Element, k: nat)
    requires c.Condition?
    ensures CondSql(ea, view, reg, c, true, k) == CondSql(ea, view, reg, Dual(c), false, k)
  {
    var d := Dual(c);
    assert d.property == c.property && d.not == !c.not;
    var expr := ResolveSqlExpr(view, c.property);
    if expr.Some? && !IsBlank(expr.value) {
      var ut := PropertyTypeResolver.ResolveNoCache(reg, Some(ea), c.property);
      if ut.Ok? && ut.value.Some? {
        OpSqlIgnoresFlag(expr.value, c, d, ut.value.value, c.not != true, k);
      }
    }
  }

  lemma CondOfDual(ea: EntityAuthoring, view: ViewDef, reg: Registry)
    ensures DualCond(CondOf(ea, view, reg))
  {
    forall c: Element, k: nat | c.Condition?
      ensures CondOf(ea, view, reg)(c, true, k) == CondOf(ea, view, reg)(Dual(c), false, k)
    {
      CondSqlDual(ea, view, reg, c, k);
    }
  }

  /** Rendering a negated filter is rendering its De Morgan dual: the same SQL, the same binds, the same errors. */
  lemma NegationIsDual(ea: EntityAuthoring, view: ViewDef, reg: Registry, el: Element, k: nat)
    ensures PredSql(ea, view, reg, el, true, k) == PredSql(ea, view, reg, Dual(el), false, k)
  {
    CondOfDual(ea, view, reg);
    WalkDual(CondOf(ea, view, reg), el, k);
  }

  /*
   * Binds.
   */

  /** How many binds a condition adds, read off its operator and operands alone. */
  function CondBinds(c: Element): nat
    requires c.Condition?
  {
    match c.op
    case EQ | NE => if c.value == VNull then 0 else 1
    case IN | NIN => |ToList(c.value)|
    case RANGE => 2
    case ARRAY_CONTAINS | ARRAY_NOT_CONTAINS | ARRAY_OVERLAPS | ARRAY_NOT_OVERLAPS => if ToList(c.value) == [] then 0 else 1
    case JSON_PATH_EXISTS => 0
    case _ => 1
  }


  /** How many binds a filter adds: the sum over its conditions, whatever the negation. */
  function BindCount(el: Element): nat
    decreases el, 1
  {
    match el
    case Condition(_, _, _, _, _, _) => CondBinds(el)
    case Group(_, es) => BindCountKids(el, |es|)
    case Not(e) => BindCount(e)
    case Nested(_) => 0
    case GroupBy(_) => 0
  }

  function BindCountKids(g: Element, n: nat): nat
    requires g.Group? && n <= |g.elements|
    decreases g, 0, n
  {
    if n == 0 then 0 else BindCountKids(g, n - 1) + BindCount(g.elements[n - 1])
  }

  /** A condition branch that adds as many binds as CondBinds says. */
  ghost predicate CountsBinds(cond: CondRenderer)
  {
    forall c: Element, negate: bool, k: nat ::
      c.Condition? && cond(c, negate, k).Ok? ==> |cond(c, negate, k).value.binds| == CondBinds(c)
  }

  lemma {:induction false} WalkBindsCounted(cond: CondRenderer, el: Element, negate: bool, k: nat)
    requires CountsBinds(cond) && Walk(cond, el, negate, k).Ok?
    ensures |Walk(cond, el, negate, k).value.binds| == BindCount(el)
    decreases el, 1
  {
    match el
    case Group(_, es) => WalkKidsCounted(cond, el, negate, k, |es|);
    case Condition(_, _, _, _, _, _) =>
    case Not(e) => WalkBindsCounted(cond, e, !negate, k);
    case Nested(_) =>
    case GroupBy(_) =>
  }

  lemma {:induction false} WalkKidsCounted(cond: CondRenderer, g: Element, negate: bool, k: nat, n: nat)
    requires CountsBinds(cond) && g.Group? && n <= |g.elements| && WalkKids(cond, g, negate, k, n).Ok?
    ensures |WalkKids(cond, g, negate, k, n).value.binds| == BindCountKids(g, n)
    decreases g, 0, n
  {
    if n > 0 {
      WalkKidsCounted(cond, g, negate, k, n - 1);
      var prev := WalkKids(cond, g, negate, k, n - 1).value;
      WalkBindsCounted(cond, g.elements[n - 1], negate, k + |prev.binds|);
    }
  }

  lemma OpBindCount(expr: string, c: Element, userTypeId: string, not: bool, k: nat)
    requires c.Condition? && OpSql(expr, c, userTypeId, not, k).Ok?
    ensures |OpSql(expr, c, userTypeId, not, k).value.binds| == CondBinds(c)
  {
    match c.op
    case EQ | NE =>
    case GT | GE | LT | LE | LIKE =>
    case IN | NIN =>
    case RANGE =>
    case ARRAY_CONTAINS | ARRAY_NOT_CONTAINS =>
    case ARRAY_OVERLAPS | ARRAY_NOT_OVERLAPS =>
    case JSON_PATH_EXISTS =>
    case JSON_VALUE_EQ =>
  }

  lemma CondOfCounts(ea: EntityAuthoring, view: ViewDef, reg: Registry)
    ensures CountsBinds(CondOf(ea, view, reg))
  {
    var cond := CondOf(ea, view, reg);
    forall c: Element, negate: bool, k: nat | c.Condition? && cond(c, negate, k).Ok?
      ensures |cond(c, negate, k).value.binds| == CondBinds(c)
    {
      var expr := ResolveSqlExpr(view, c.property);
      var ut := PropertyTypeResolver.ResolveNoCache(reg, Some(ea), c.property);
      OpBindCount(expr.value, c, ut.value.value, c.not != negate, k);
    }
  }

  /** Every rendered filter carries exactly as many binds as its conditions call for, negated or not. */
  lemma BindsCounted(ea: EntityAuthoring, view: ViewDef, reg: Registry, el: Element, negate: bool, k: nat)
    requires PredSql(ea, view, reg, el, negate, k).Ok?
    ensures |PredSql(ea, view, reg, el, negate, k).value.binds| == BindCount(el)
  {
    CondOfCounts(ea, view, reg);
    WalkBindsCounted(CondOf(ea, view, reg), el, negate, k);
  }

  /** The operands a filter binds: none without a filter, otherwise one count per condition. */
  function FilterBinds(where: Option<Element>): nat
  {
    if where.None? then 0 else BindCount(where.value)
  }

  /** The predicate's binds are all kept, also when its text is blank. */
  lemma PredicateBinds(ea: EntityAuthoring, view: ViewDef, reg: Registry, where: Option<Element>)
    requires PredicateOf(ea, view, reg, where).Ok?
    ensures |PredicateOf(ea, view, reg, where).value.binds| == FilterBinds(where)
    ensures IsBlank(PredicateOf(ea, view, reg, where).value.sql) ==> FilterBinds(where) == 0
  {
    if where.Some? {
      BindsCounted(ea, view, reg, where.value, false, 0);
      BlankBindsNothing(ea, view, reg, where.value, false, 0);
    }
  }

  /*
   * Blank renderings.
   */

  /** A condition branch whose fragments are never blank. */
  ghost predicate NeverBlank(cond: CondRenderer)
  {
    forall c: Element, negate: bool, k: nat ::
      c.Condition? && cond(c, negate, k).Ok? ==> !IsBlank(cond(c, negate, k).value.sql)
  }

  /** Combining non-blank fragments gives a non-blank fragment. */
  lemma CombineNotBlank(clause: Clause, sqls: seq<string>)
    requires sqls != [] && forall i :: 0 <= i < |sqls| ==> !IsBlank(sqls[i])
    ensures !IsBlank(Combine(clause, sqls))
  {
    if |sqls| >= 2 {
      assert Combine(clause, sqls)[0] == '(';
    }
  }

  lemma {:induction false} WalkBlank(cond: CondRenderer, el: Element, negate: bool, k: nat)
    requires NeverBlank(cond) && Walk(cond, el, negate, k).Ok?
    ensures IsBlank(Walk(cond, el, negate, k).value.sql) ==> Walk(cond, el, negate, k).value.binds == []
    decreases el, 1
  {
    match el
    case Group(clause, es) =>
      WalkKidsBlank(cond, el, negate, k, |es|);
      var kids := WalkKids(cond, el, negate, k, |es|).value;
      if kids.sqls != [] {
        CombineNotBlank(if negate then Flip(clause) else clause, kids.sqls);
      }
    case Condition(_, _, _, _, _, _) =>
    case Not(e) => WalkBlank(cond, e, !negate, k);
    case Nested(_) =>
    case GroupBy(_) =>
  }

  /** The kept fragments of a group are non-blank, and with none kept the group bound nothing. */
  lemma {:induction false} WalkKidsBlank(cond: CondRenderer, g: Element, negate: bool, k: nat, n: nat)
    requires NeverBlank(cond) && g.Group? && n <= |g.elements| && WalkKids(cond, g, negate, k, n).Ok?
    ensures forall i :: 0 <= i < |WalkKids(cond, g, negate, k, n).value.sqls| ==>
      !IsBlank(WalkKids(cond, g, negate, k, n).value.sqls[i])
    ensures WalkKids(cond, g, negate, k, n).value.sqls == [] ==> WalkKids(cond, g, negate, k, n).value.binds == []
    decreases g, 0, n
  {
    if n > 0 {
      WalkKidsBlank(cond, g, negate, k, n - 1);
      var prev := WalkKids(cond, g, negate, k, n - 1).value;
      WalkBlank(cond, g.elements[n - 1], negate, k + |prev.binds|);
    }
  }

  /** A fragment that starts with a non-blank expression is non-blank, wrapped in NOT or not. */
  lemma ExprLeads(expr: string, sql: string, not: bool)
    requires !IsBlank(expr) && expr <= sql
    ensures !IsBlank(NotWrap(sql, not))
  {
    var i :| 0 <= i < |expr| && !IsWhitespace(expr[i]);
    assert sql[i] == expr[i];
    if not {
      assert NotWrap(sql, not)[0] == 'N';
    }
  }

  lemma TrueFalseNotBlank(s: string)
    requires s == "TRUE" || s == "FALSE"
    ensures !IsBlank(s)
  {
    assert !IsWhitespace(s[0]);
  }

  lemma UnaryNotBlank(expr: string, op: string, value: Value, userTypeId: string, not: bool, k: nat)
    requires !IsBlank(expr) && UnarySql(expr, op, value, userTypeId, not, k).Ok?
    ensures !IsBlank(UnarySql(expr, op, value, userTypeId, not, k).value.sql)
  {
    UnarySqlText(expr, op, value, userTypeId, not, k);
    ComparisonNotBlank(expr, op, not, k, UnarySql(expr, op, value, userTypeId, not, k).value.sql);
  }

  /** "expr op :bN", negated or not, is non-blank when expr is. */
  lemma ComparisonNotBlank(expr: string, op: string, not: bool, k: nat, sql: string)
    requires !IsBlank(expr) && sql == NotWrap(expr + " " + op + " " + Placeholder(k), not)
    ensures !IsBlank(sql)
  {
    ExprLeads(expr, expr + " " + op + " " + Placeholder(k), not);
  }

  lemma UnarySqlText(expr: string, op: string, value: Value, userTypeId: string, not: bool, k: nat)
    requires UnarySql(expr, op, value, userTypeId, not, k).Ok?
    ensures UnarySql(expr, op, value, userTypeId, not, k).value.sql == NotWrap(expr + " " + op + " " + Placeholder(k), not)
  {
  }

  lemma ListNotBlank(expr: string, op: string, vals: seq<Value>, userTypeId: string, not: bool, k: nat)
    requires !IsBlank(expr) && ListSql(expr, op, vals, userTypeId, not, k).Ok?
    ensures !IsBlank(ListSql(expr, op, vals, userTypeId, not, k).value.sql)
  {
    if vals == [] {
      TrueFalseNotBlank(ListSql(expr, op, vals, userTypeId, not, k).value.sql);
    } else {
      ListTextNotBlank(expr, op, |vals|, not, k);
    }
  }

  lemma ListTextNotBlank(expr: string, op: string, n: nat, not: bool, k: nat)
    requires !IsBlank(expr)
    ensures !IsBlank(ListText(expr, op, n, not, k))
  {
    ExprLeads(expr, expr + " " + op + " (" + Join(Placeholders(k, n), ", ") + ")", not);
  }

  lemma JsonExistsNotBlank(expr: string, lit: string, not: bool)
    requires !IsBlank(expr)
    ensures !IsBlank(NotWrap(expr + " #> " + lit + " IS NOT NULL", not))
  {
    ExprLeads(expr, expr + " #> " + lit + " IS NOT NULL", not);
  }

  /** A condition never renders blank: its expression, or TRUE or FALSE, is always there. */
  lemma OpNotBlank(expr: string, c: Element, userTypeId: string, not: bool, k: nat)
    requires c.Condition? && !IsBlank(expr) && OpSql(expr, c, userTypeId, not, k).Ok?
    ensures !IsBlank(OpSql(expr, c, userTypeId, not, k).value.sql)
  {
    var vals := ToList(c.value);
    match c.op
    case EQ | NE =>
      if c.value == VNull { NullCheckNotBlank(expr, c.op == EQ, not); }
      else { UnaryNotBlank(expr, OpText(c.op), c.value, userTypeId, not, k); }
    case GT | GE | LT | LE | LIKE => UnaryNotBlank(expr, OpText(c.op), c.value, userTypeId, not, k);
    case IN | NIN => ListNotBlank(expr, OpText(c.op), vals, userTypeId, not, k);
    case RANGE => BetweenNotBlank(expr, c.lower, c.upper, userTypeId, not, k);
    case ARRAY_CONTAINS | ARRAY_NOT_CONTAINS => ContainsNotBlank(expr, vals, userTypeId, not != (c.op == ARRAY_NOT_CONTAINS), k);
    case ARRAY_OVERLAPS | ARRAY_NOT_OVERLAPS => OverlapsNotBlank(expr, vals, userTypeId, not != (c.op == ARRAY_NOT_OVERLAPS), k);
    case JSON_PATH_EXISTS => JsonExistsNotBlank(expr, PgTextArrayLiteral(Show(c.value)), not);
    case JSON_VALUE_EQ => ExprLeads(expr, expr + " @> " + Placeholder(k), not);
  }

  lemma NullCheckNotBlank(expr: string, isNull: bool, not: bool)
    requires !IsBlank(expr)
    ensures !IsBlank(NullCheckSql(expr, isNull, not))
  {
    ExprLeads(expr, expr + (if isNull then " IS NULL" else " IS NOT NULL"), not);
  }

  lemma BetweenNotBlank(expr: string, lower: Value, upper: Value, userTypeId: string, not: bool, k: nat)
    requires !IsBlank(expr) && BetweenSql(expr, lower, upper, userTypeId, not, k).Ok?
    ensures !IsBlank(BetweenSql(expr, lower, upper, userTypeId, not, k).value.sql)
  {
    BetweenSqlText(expr, lower, upper, userTypeId, not, k);
    BetweenTextNotBlank(expr, not, k);
  }

  lemma BetweenTextNotBlank(expr: string, not: bool, k: nat)
    requires !IsBlank(expr)
    ensures !IsBlank(NotWrap(BetweenText(expr, Placeholder(k), Placeholder(k + 1)), not))
  {
    ExprLeads(expr, BetweenText(expr, Placeholder(k), Placeholder(k + 1)), not);
  }

  lemma BetweenSqlText(expr: string, lower: Value, upper: Value, userTypeId: string, not: bool, k: nat)
    requires BetweenSql(expr, lower, upper, userTypeId, not, k).Ok?
    ensures BetweenSql(expr, lower, upper, userTypeId, not, k).value.sql == NotWrap(BetweenText(expr, Placeholder(k), Placeholder(k + 1)), not)
  {
  }

  lemma ContainsNotBlank(expr: string, vals: seq<Value>, userTypeId: string, effNot: bool, k: nat)
    requires !IsBlank(expr) && ContainsOp(expr, vals, userTypeId, effNot, k).Ok?
    ensures !IsBlank(ContainsOp(expr, vals, userTypeId, effNot, k).value.sql)
  {
    if vals == [] {
      TrueFalseNotBlank(ContainsOp(expr, vals, userTypeId, effNot, k).value.sql);
    } else {
      ExprLeads(expr, expr + " @> " + Placeholder(k), effNot);
    }
  }

  lemma OverlapsNotBlank(expr: string, vals: seq<Value>, userTypeId: string, effNot: bool, k: nat)
    requires !IsBlank(expr) && OverlapsOp(expr, vals, userTypeId, effNot, k).Ok?
    ensures !IsBlank(OverlapsOp(expr, vals, userTypeId, effNot, k).value.sql)
  {
    if vals == [] {
      TrueFalseNotBlank(OverlapsOp(expr, vals, userTypeId, effNot, k).value.sql);
    } else {
      ExprLeads(expr, expr + " && " + Placeholder(k), effNot);
    }
  }

  lemma JoinFirst(parts: seq<string>, sep: string)
    requires parts != []
    ensures Join(parts, sep) == parts[0] + Join(parts, sep)[|parts[0]|..]
  {
  }


  lemma CondOfNeverBlank(ea: EntityAuthoring, view: ViewDef, reg: Registry)
    ensures NeverBlank(CondOf(ea, view, reg))
  {
    var cond := CondOf(ea, view, reg);
    forall c: Element, negate: bool, k: nat | c.Condition? && cond(c, negate, k).Ok?
      ensures !IsBlank(cond(c, negate, k).value.sql)
    {
      var expr := ResolveSqlExpr(view, c.property);
      var ut := PropertyTypeResolver.ResolveNoCache(reg, Some(ea), c.property);
      OpNotBlank(expr.value, c, ut.value.value, c.not != negate, k);
    }
  }

  /**
   * A filter that renders blank binds nothing, so dropping a blank fragment
   * (as a group and appendFilter do) never leaves a bind without its
   * placeholder.
   */
  lemma BlankBindsNothing(ea: EntityAuthoring, view: ViewDef, reg: Registry, el: Element, negate: bool, k: nat)
    requires PredSql(ea, view, reg, el, negate, k).Ok?
    ensures IsBlank(PredSql(ea, view, reg, el, negate, k).value.sql) ==> PredSql(ea, view, reg, el, negate, k).value.binds == []
  {
    CondOfNeverBlank(ea, view, reg);
    WalkBlank(CondOf(ea, view, reg), el, negate, k);
  }

  /*
   * The renderer, threading one RenderCtx through the tree.
   */

  /** The method's outcome matches the specification: the same error, or the same SQL with the binds appended. */
  predicate Follows(r: Result<string>, before: seq<Bind>, after: seq<Bind>, spec: Result<Rendered>)
  {
    match spec
    case Err(e) => r == Err(e)
    case Ok(rd) => r == Ok(rd.sql) && after == before + rd.binds
  }

  /** unarySql: the operand is coerced before its bind is added, so a refused operand adds nothing. */
  method Unary(expr: string, op: string, value: Value, userTypeId: string, not: bool, ctx: RenderCtx)
    returns (r: Result<string>)
    requires ctx.Valid()
    modifies ctx
    ensures ctx.Valid()
    ensures Follows(r, old(ctx.binds), ctx.binds, UnarySql(expr, op, value, userTypeId, not, |old(ctx.binds)|))
    ensures r.Err? ==> ctx.binds == old(ctx.binds)
  {
    var v := CoerceScalar(userTypeId, value);
    if v.Err? {
      return Err(v.error);
    }
    var p := ctx.Add(Bind(v.value, userTypeId));
    r := Ok(NotWrap(expr + " " + op + " " + p, not));
  }

  lemma BetweenSqlOk(expr: string, lower: Value, upper: Value, userTypeId: string, not: bool, k: nat, lo: Value, hi: Value)
    requires CoerceScalar(userTypeId, lower) == Ok(lo) && CoerceScalar(userTypeId, upper) == Ok(hi)
    ensures BetweenSql(expr, lower, upper, userTypeId, not, k)
      == Ok(Rendered(NotWrap(BetweenText(expr, Placeholder(k), Placeholder(k + 1)), not), [Bind(lo, userTypeId), Bind(hi, userTypeId)]))
  {
  }

  /** betweenSql: both bounds are coerced before either bind is added. */
  method Between(expr: string, lower: Value, upper: Value, userTypeId: string, not: bool, ctx: RenderCtx)
    returns (r: Result<string>)
    requires ctx.Valid()
    modifies ctx
    ensures ctx.Valid()
    ensures Follows(r, old(ctx.binds), ctx.binds, BetweenSql(expr, lower, upper, userTypeId, not, |old(ctx.binds)|))
    ensures r.Err? ==> ctx.binds == old(ctx.binds)
  {
    ghost var b0 := ctx.binds;
    var lo := CoerceScalar(userTypeId, lower);
    if lo.Err? {
      return Err(lo.error);
    }
    var hi := CoerceScalar(userTypeId, upper);
    if hi.Err? {
      return Err(hi.error);
    }
    BetweenSqlOk(expr, lower, upper, userTypeId, not, |b0|, lo.value, hi.value);
    var p1 := ctx.Add(Bind(lo.value, userTypeId));
    ghost var b1 := ctx.binds;
    assert |b1| == |b0| + 1;
    var p2 := ctx.Add(Bind(hi.value, userTypeId));
    BindsAssoc(b0, [Bind(lo.value, userTypeId)], [Bind(hi.value, userTypeId)]);
    r := Ok(NotWrap(BetweenText(expr, p1, p2), not));
  }

  /** listSql, coercing and binding one value at a time as its loop does. */
  method ListIn(expr: string, op: string, vals: seq<Value>, userTypeId: string, not: bool, ctx: RenderCtx)
    returns (r: Result<string>)
    requires ctx.Valid()
    modifies ctx
    ensures ctx.Valid()
    ensures Follows(r, old(ctx.binds), ctx.binds, ListSql(expr, op, vals, userTypeId, not, |old(ctx.binds)|))
  {
    if vals == [] {
      return Ok(if not then "TRUE" else "FALSE");
    }
    ghost var b0 := ctx.binds;
    var ph := BindEach(CoercerFor(userTypeId), vals, userTypeId, ctx);
    if ph.Err? {
      ListSqlRefused(expr, op, vals, userTypeId, not, |b0|, ph.error);
      return Err(ph.error);
    }
    ListSqlOk(expr, op, vals, userTypeId, not, |b0|, ctx.binds[|b0|..]);
    r := Ok(NotWrap(expr + " " + op + " (" + Join(ph.value, ", ") + ")", not));
  }

  /**
   * listSql's loop: each value coerced, then bound; the first value refused
   * stops it with its error. The renderer passes coerceScalar for the
   * column's type as coerce.
   */
  method BindEach(coerce: Value -> Result<Value>, vals: seq<Value>, userTypeId: string, ctx: RenderCtx) returns (r: Result<seq<string>>)
    requires ctx.Valid()
    modifies ctx
    ensures ctx.Valid()
    ensures CoerceEach(coerce, vals, userTypeId).Err? ==> r == Err(CoerceEach(coerce, vals, userTypeId).error)
    ensures CoerceEach(coerce, vals, userTypeId).Ok? ==>
      r == Ok(Placeholders(|old(ctx.binds)|, |vals|))
      && ctx.binds == old(ctx.binds) + CoerceEach(coerce, vals, userTypeId).value
  {
    ghost var b0 := ctx.binds;
    ghost var bs: seq<Bind> := [];
    var ph: seq<string> := [];
    var i := 0;
    while i < |vals|
      invariant 0 <= i <= |vals| && |bs| == i
      invariant ctx.Valid()
      invariant ph == Placeholders(|b0|, i)
      invariant CoerceEach(coerce, vals[..i], userTypeId) == Ok(bs)
      invariant ctx.binds == b0 + bs
    {
      var v := coerce(vals[i]);
      CoerceEachStep(coerce, vals, userTypeId, i);
      if v.Err? {
        CoerceEachStops(coerce, vals, userTypeId, i + 1);
        return Err(v.error);
      }
      var p := ctx.Add(Bind(v.value, userTypeId));
      PlaceholdersSnoc(|b0|, i);
      bs := bs + [Bind(v.value, userTypeId)];
      ph := ph + [p];
      i := i + 1;
    }
    assert vals[..i] == vals;
    r := Ok(ph);
  }

  /** The list text over every coerced bind, when no operand is refused. */
  lemma ListSqlOk(expr: string, op: string, vals: seq<Value>, userTypeId: string, not: bool, k: nat, bs: seq<Bind>)
    requires vals != [] && CoerceEach(CoercerFor(userTypeId), vals, userTypeId) == Ok(bs)
    ensures ListSql(expr, op, vals, userTypeId, not, k) == Ok(Rendered(ListText(expr, op, |vals|, not, k), bs))
  {
  }

  /** The error of the first refused operand, when one is refused. */
  lemma ListSqlRefused(expr: string, op: string, vals: seq<Value>, userTypeId: string, not: bool, k: nat, e: Error)
    requires vals != [] && CoerceEach(CoercerFor(userTypeId), vals, userTypeId) == Err(e)
    ensures ListSql(expr, op, vals, userTypeId, not, k) == Err(e)
  {
  }

  method NonNull(expr: string, op: string, value: Value, userTypeId: string, not: bool, ctx: RenderCtx)
    returns (r: Result<string>)
    requires ctx.Valid()
    modifies ctx
    ensures ctx.Valid()
    ensures Follows(r, old(ctx.binds), ctx.binds, UnaryNonNull(expr, op, value, userTypeId, not, |old(ctx.binds)|))
  {
    if value == VNull {
      return Err(IllegalArgument(op + " requires non-null value"));
    }
    r := Unary(expr, op, value, userTypeId, not, ctx);
  }

  method Contains(expr: string, vals: seq<Value>, userTypeId: string, effNot: bool, ctx: RenderCtx)
    returns (r: Result<string>)
    requires ctx.Valid()
    modifies ctx
    ensures ctx.Valid()
    ensures Follows(r, old(ctx.binds), ctx.binds, ContainsOp(expr, vals, userTypeId, effNot, |old(ctx.binds)|))
    ensures r.Err? ==> ctx.binds == old(ctx.binds)
  {
    if vals == [] {
      return Ok(if effNot then "FALSE" else "TRUE");
    }
    r := ArrayContains(expr, vals, userTypeId, effNot, ctx);
  }

  method Overlaps(expr: string, vals: seq<Value>, userTypeId: string, effNot: bool, ctx: RenderCtx)
    returns (r: Result<string>)
    requires ctx.Valid()
    modifies ctx
    ensures ctx.Valid()
    ensures Follows(r, old(ctx.binds), ctx.binds, OverlapsOp(expr, vals, userTypeId, effNot, |old(ctx.binds)|))
    ensures r.Err? ==> ctx.binds == old(ctx.binds)
  {
    if vals == [] {
      return Ok(if effNot then "TRUE" else "FALSE");
    }
    r := ArrayOverlaps(expr, vals, userTypeId, effNot, ctx);
  }

  /** The comparison operators: one bind, or a null check for (in)equality with null. */
  predicate Comparison(op: Operator)
  {
    op in {EQ, NE, GT, GE, LT, LE, LIKE, RANGE}
  }

  /** The operator switch, adding binds to the context. */
  method RenderOp(expr: string, c: Element, userTypeId: string, not: bool, ctx: RenderCtx) returns (r: Result<string>)
    requires c.Condition? && ctx.Valid()
    modifies ctx
    ensures ctx.Valid()
    ensures Follows(r, old(ctx.binds), ctx.binds, OpSql(expr, c, userTypeId, not, |old(ctx.binds)|))
  {
    if Comparison(c.op) {
      r := RenderComparison(expr, c, userTypeId, not, ctx);
    } else {
      r := RenderCollectionOp(expr, c, userTypeId, not, ctx);
    }
  }

  method RenderComparison(expr: string, c: Element, userTypeId: string, not: bool, ctx: RenderCtx) returns (r: Result<string>)
    requires c.Condition? && Comparison(c.op) && ctx.Valid()
    modifies ctx
    ensures ctx.Valid()
    ensures Follows(r, old(ctx.binds), ctx.binds, OpSql(expr, c, userTypeId, not, |old(ctx.binds)|))
  {
    match c.op {
      case EQ | NE =>
        if c.value == VNull {
          return Ok(NullCheckSql(expr, c.op == EQ, not));
        }
        r := Unary(expr, OpText(c.op), c.value, userTypeId, not, ctx);
      case GT | GE | LT | LE | LIKE => r := NonNull(expr, OpText(c.op), c.value, userTypeId, not, ctx);
      case RANGE =>
        if c.lower == VNull || c.upper == VNull {
          return Err(IllegalArgument("RANGE requires non-null lower+upper for property '" + c.property + "'"));
        }
        r := Between(expr, c.lower, c.upper, userTypeId, not, ctx);
    }
  }

  method RenderCollectionOp(expr: string, c: Element, userTypeId: string, not: bool, ctx: RenderCtx) returns (r: Result<string>)
    requires c.Condition? && !Comparison(c.op) && ctx.Valid()
    modifies ctx
    ensures ctx.Valid()
    ensures Follows(r, old(ctx.binds), ctx.binds, OpSql(expr, c, userTypeId, not, |old(ctx.binds)|))
  {
    match c.op {
      case IN | NIN => r := ListIn(expr, OpText(c.op), ToList(c.value), userTypeId, not, ctx);
      case ARRAY_CONTAINS | ARRAY_NOT_CONTAINS =>
        r := Contains(expr, ToList(c.value), userTypeId, not != (c.op == ARRAY_NOT_CONTAINS), ctx);
      case ARRAY_OVERLAPS | ARRAY_NOT_OVERLAPS =>
        r := Overlaps(expr, ToList(c.value), userTypeId, not != (c.op == ARRAY_NOT_OVERLAPS), ctx);
      case JSON_PATH_EXISTS => r := Ok(JsonPathExistsSql(expr, Show(c.value), not));
      case JSON_VALUE_EQ => r := JsonValueEq(expr, c.value, not, ctx);
    }
  }

  /** A condition: resolve its expression and scalar type, then render its operator. */
  method RenderCondition(ea: EntityAuthoring, view: ViewDef, reg: Registry, c: Element, ctx: RenderCtx, negate: bool)
    returns (r: Result<string>)
    requires c.Condition? && ctx.Valid()
    modifies ctx
    ensures ctx.Valid()
    ensures Follows(r, old(ctx.binds), ctx.binds, CondSql(ea, view, reg, c, negate, |old(ctx.binds)|))
  {
    var expr := ResolveSqlExpr(view, c.property);
    if expr.None? || IsBlank(expr.value) {
      return Err(QueryValidation(UnknownFieldPath(ea, view, c.property)));
    }
    var ut := PropertyTypeResolver.ResolveNoCache(reg, Some(ea), c.property);
    if ut.Err? {
      return Err(ut.error);
    }
    if ut.value.None? {
      return Err(QueryValidation(UnknownScalarPath(ea, c.property)));
    }
    r := RenderOp(expr.value, c, ut.value.value, c.not != negate, ctx);
  }


  /** renderPredicateSql: the element rendered into the shared context. */
  method RenderPredicateSql(ea: EntityAuthoring, view: ViewDef, reg: Registry, el: Element, ctx: RenderCtx, negate: bool,
                            ghost cond: CondRenderer)
    returns (r: Result<string>)
    requires ctx.Valid() && Renders(cond, ea, view, reg)
    modifies ctx
    ensures ctx.Valid()
    ensures Follows(r, old(ctx.binds), ctx.binds, Walk(cond, el, negate, |old(ctx.binds)|))
    decreases el, 1
  {
    match el {
      case Not(e) =>
        r := RenderPredicateSql(ea, view, reg, e, ctx, !negate, cond);
      case Group(_, _) =>
        r := RenderGroup(ea, view, reg, el, ctx, negate, cond);
      case Condition(_, _, _, _, _, _) =>
        r := RenderCondition(ea, view, reg, el, ctx, negate);
      case Nested(_) =>
        r := Err(IllegalArgument(UnsupportedQuery));
      case GroupBy(_) =>
        r := Err(IllegalArgument(UnsupportedGroupBy));
    }
  }

  lemma BindsAssoc(a: seq<Bind>, b: seq<Bind>, c: seq<Bind>)
    ensures a + (b + c) == (a + b) + c
  {
  }

  /** The children's fragments joined as renderPredicateSql does. */
  method JoinKids(clause: Clause, childSql: seq<string>) returns (sql: string)
    ensures sql == Combine(clause, childSql)
  {
    if childSql == [] {
      return "";
    }
    if |childSql| == 1 {
      return childSql[0];
    }
    var sep := if clause == OR then " OR " else " AND ";
    sql := "(" + Join(childSql, sep) + ")";
  }

  /** A logical group: each child in turn, blank fragments skipped, then joined with the (possibly flipped) clause. */
  method RenderGroup(ea: EntityAuthoring, view: ViewDef, reg: Registry, g: Element, ctx: RenderCtx, negate: bool,
                     ghost cond: CondRenderer)
    returns (r: Result<string>)
    requires g.Group? && ctx.Valid() && Renders(cond, ea, view, reg)
    modifies ctx
    ensures ctx.Valid()
    ensures Follows(r, old(ctx.binds), ctx.binds, Walk(cond, g, negate, |old(ctx.binds)|))
    decreases g, 0
  {
    ghost var b0 := ctx.binds;
    var clause := g.clause;
    if negate {
      clause := if clause == OR then AND else OR;
    }
    var childSql: seq<string> := [];
    ghost var kb: seq<Bind> := [];
    var i := 0;
    while i < |g.elements|
      invariant 0 <= i <= |g.elements|
      invariant ctx.Valid()
      invariant WalkKids(cond, g, negate, |b0|, i) == Ok(Kids(childSql, kb))
      invariant ctx.binds == b0 + kb
    {
      ghost var before := ctx.binds;
      var s := RenderPredicateSql(ea, view, reg, g.elements[i], ctx, negate, cond);
      if s.Err? {
        ChildStep(cond, g, negate, |b0|, i, Kids(childSql, kb), s, before, ctx.binds);
        return Err(s.error);
      }
      ghost var prevSql, prevKb := childSql, kb;
      kb := kb + ctx.binds[|b0 + kb|..];
      childSql := if IsBlank(s.value) then childSql else childSql + [s.value];
      var next := i + 1;
      KidsAdvance(cond, g, negate, b0, i, next, prevSql, prevKb, s.value, ctx.binds, childSql, kb);
      i := next;
    }
    GroupDone(cond, g, negate, |b0|, Kids(childSql, kb));
    var sql := JoinKids(clause, childSql);
    r := Ok(sql);
  }

  /** renderPredicate: a fresh context, so the filter's placeholders start at :b1. */
  method RenderPredicate(ea: EntityAuthoring, view: ViewDef, reg: Registry, filter: Option<Element>)
    returns (r: Result<Rendered>)
    ensures r == PredicateOf(ea, view, reg, filter)
  {
    if filter.None? {
      return Ok(Rendered("", []));
    }
    var ctx := new RenderCtx();
    assert |ctx.binds| == 0;
    CondOfRenders(ea, view, reg);
    ghost var spec := PredSql(ea, view, reg, filter.value, false, 0);
    var sql := RenderPredicateSql(ea, view, reg, filter.value, ctx, false, CondOf(ea, view, reg));
    if sql.Err? {
      return Err(sql.error);
    }
    assert ctx.binds == spec.value.binds;
    r := Ok(Rendered(sql.value, ctx.binds));
  }
}
