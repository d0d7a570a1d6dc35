/**
 * MongoQueryRenderer: a filter tree rendered to a MongoDB filter document.
 * A negated group is rewritten by De Morgan, a negated condition is wrapped
 * in $nor, EQ/NE with null compare against null, LIKE becomes an anchored
 * regex, and every operand goes through the binder pipeline, whose output
 * is read back from a scratch document at the field's path.
 */
module MongoRender {
  import opened Wrappers
  import opened Strings
  import opened Values
  import opened Authoring
  import opened QueryAst
  import MongoViewMapping
  import PropertyTypeResolver

  const UnsupportedQuery := "Unsupported QueryElement in filter: io.intellixity.nativa.persistence.query.Query"
  const UnsupportedGroupBy := "Unsupported QueryElement in filter: io.intellixity.nativa.persistence.query.aggregation.GroupBy"

  /** A BSON document: its entries in insertion order. */
  type Doc = seq<Entry>

  /**
   * The binder pipeline for one operand: the user type encodes the bind's
   * value and the binder writes it into a fresh document under the path;
   * the result is that document, or the error either step raised.
   */
  type Binder = (string, Bind) -> Result<Doc>

  /*
   * Paths.
   */

  /** resolvePath: the explicit mapping of the property when there is a non-blank one, else the property path itself. */
  function ResolvePath(view: Option<ViewDef>, path: string): (r: string)
    ensures MongoViewMapping.ExplicitRef(view, path).None? ==> r == path
    ensures r == path || (MongoViewMapping.ExplicitRef(view, path) == Some(r) && !IsBlank(r))
  {
    var ref := MongoViewMapping.ExplicitRef(view, path);
    if ref.None? || IsBlank(ref.value) then path else ref.value
  }

  /** A property mapped by a non-blank spec under its own key renders at the mapped path. */
  lemma MappedPathUsed(view: ViewDef, path: string, spec: Value, r: string)
    requires Get(view.mapping, path) == Some(spec)
    requires MongoViewMapping.RefFromSpec(spec) == Some(r) && !IsBlank(r)
    ensures ResolvePath(Some(view), path) == r
  {
    MongoViewMapping.DirectKeyWins(view, path, spec, r);
  }

  /** Without a view, or with an empty mapping, every property path is used as it is. */
  lemma UnmappedPathUnchanged(view: Option<ViewDef>, path: string)
    requires view.None? || view.value.mapping == []
    ensures ResolvePath(view, path) == path
  {
    MongoViewMapping.NoViewNoRef(view, path);
  }

  /** The three prefixes resolveJsonPath strips in turn: "$.", then "$", then ".". */
  function StripJsonRoot(p: string): string
  {
    var p1 := if |p| >= 2 && p[0] == '$' && p[1] == '.' then p[2..] else p;
    var p2 := if |p1| >= 1 && p1[0] == '$' then p1[1..] else p1;
    if |p2| >= 1 && p2[0] == '.' then p2[1..] else p2
  }

  /** resolveJsonPath: the JSON path, trimmed and stripped of its root, appended to the base path; nothing left means the base itself. */
  function ResolveJsonPath(base: string, jsonPath: string): string
  {
    var p := StripJsonRoot(Trim(jsonPath));
    if IsBlank(p) then base else base + "." + p
  }

  /** A root-only JSON path ("", "$", "." or "$.") addresses the base field itself. */
  lemma JsonRootIsBase(base: string, jsonPath: string)
    requires || |jsonPath| == 0
             || (|jsonPath| == 1 && (jsonPath[0] == '$' || jsonPath[0] == '.'))
             || (|jsonPath| == 2 && jsonPath[0] == '$' && jsonPath[1] == '.')
    ensures ResolveJsonPath(base, jsonPath) == base
  {
    TrimStable(jsonPath);
    StripRootOnly(jsonPath);
    BlankStripIsBase(base, jsonPath);
  }

  lemma StripRootOnly(p: string)
    requires || |p| == 0
             || (|p| == 1 && (p[0] == '$' || p[0] == '.'))
             || (|p| == 2 && p[0] == '$' && p[1] == '.')
    ensures |StripJsonRoot(p)| == 0
  {
  }

  lemma BlankStripIsBase(base: string, p: string)
    requires Trim(p) == p && |StripJsonRoot(p)| == 0
    ensures ResolveJsonPath(base, p) == base
  {
  }

  /** Each of the prefixes "$.", "$" and "." is stripped from a relative path q, and q itself is left alone. */
  lemma StripSpelling(q: string, s: string)
    requires |q| > 0 && q[0] != '$' && q[0] != '.'
    requires s == q || s == "$." + q || s == "$" + q || s == "." + q
    ensures StripJsonRoot(s) == q
  {
    if s == "$." + q {
      assert s[2..] == q;
    } else if s == "$" + q {
      assert s[1..] == q;
    } else if s == "." + q {
      assert s[1..] == q;
    }
  }

  /** A path with nothing to trim that strips down to a non-blank q addresses base.q. */
  lemma JsonSpelling(base: string, q: string, s: string)
    requires |s| > 0 && !IsTrimmable(s[0]) && !IsTrimmable(s[|s| - 1])
    requires StripJsonRoot(s) == q && !IsBlank(q)
    ensures ResolveJsonPath(base, s) == base + "." + q
  {
    TrimStable(s);
  }

  /** The four spellings q, "$.q", "$q" and ".q" of a relative JSON path address the same sub-field base.q. */
  lemma JsonSpellingsAgree(base: string, q: string)
    requires |q| > 0 && !IsTrimmable(q[0]) && !IsTrimmable(q[|q| - 1]) && q[0] != '$' && q[0] != '.'
    ensures ResolveJsonPath(base, q) == base + "." + q
    ensures ResolveJsonPath(base, "$." + q) == base + "." + q
    ensures ResolveJsonPath(base, "$" + q) == base + "." + q
    ensures ResolveJsonPath(base, "." + q) == base + "." + q
  {
    assert !IsBlank(q) by {
      assert !IsWhitespace(q[0]);
    }
    var a, b, c := "$." + q, "$" + q, "." + q;
    assert a[|a| - 1] == q[|q| - 1] && b[|b| - 1] == q[|q| - 1] && c[|c| - 1] == q[|q| - 1];
    StripSpelling(q, q);
    StripSpelling(q, a);
    StripSpelling(q, b);
    StripSpelling(q, c);
    JsonSpelling(base, q, q);
    JsonSpelling(base, q, a);
    JsonSpelling(base, q, b);
    JsonSpelling(base, q, c);
  }

  /*
   * LIKE.
   */

  /** One pattern character as regex: % matches any run, _ any one character, anything else itself, quoted. */
  function CharRegex(c: char): (r: string)
    ensures |r| > 0 && (r[0] == '.' || r[0] == '\\')
  {
    if c == '%' then ".*" else if c == '_' then "." else "\\Q" + [c] + "\\E"
  }

  /** The pattern translated character by character. */
  function Translate(p: string): (r: string)
    ensures |p| > 0 ==> |r| > 0 && (r[0] == '.' || r[0] == '\\')
  {
    if |p| == 0 then "" else CharRegex(p[0]) + Translate(p[1..])
  }

  /** The $regex that likePositive builds: the translation anchored at both ends. */
  function LikeRegexOf(p: string): (r: string)
    ensures |r| >= 2 && r[0] == '^' && r[|r| - 1] == '$'
  {
    "^" + Translate(p) + "$"
  }

  /** Reads a translation back into the pattern it came from. */
  function Untranslate(re: string): string
    decreases |re|
  {
    if |re| == 0 then ""
    else if |re| >= 2 && re[..2] == ".*" then "%" + Untranslate(re[2..])
    else if re[0] == '.' then "_" + Untranslate(re[1..])
    else if |re| >= 5 then [re[2]] + Untranslate(re[5..])
    else ""
  }

  /** The translation loses nothing: the pattern can be read back from its regex. */
  lemma {:induction false} TranslateRoundTrip(p: string)
    ensures Untranslate(Translate(p)) == p
  {
    if |p| > 0 {
      TranslateRoundTrip(p[1..]);
      var c, rest := CharRegex(p[0]), Translate(p[1..]);
      var re := c + rest;
      if p[0] == '%' {
        assert re[..2] == ".*" && re[2..] == rest;
      } else if p[0] == '_' {
        assert re[1..] == rest;
        assert |re| >= 2 ==> re[1] == rest[0];
      } else {
        assert re[0] == '\\' && re[2] == p[0] && re[5..] == rest;
      }
      assert p == [p[0]] + p[1..];
    }
  }

  /** Two patterns give the same regex only when they are the same pattern. */
  lemma LikeRegexInjective(p: string, q: string)
    requires LikeRegexOf(p) == LikeRegexOf(q)
    ensures p == q
  {
    var a, b := LikeRegexOf(p), LikeRegexOf(q);
    assert Translate(p) == a[1..|a| - 1];
    assert Translate(q) == b[1..|b| - 1];
    TranslateRoundTrip(p);
    TranslateRoundTrip(q);
  }

  lemma {:induction false} TranslateSnoc(p: string, c: char)
    ensures Translate(p + [c]) == Translate(p) + CharRegex(c)
  {
    if |p| == 0 {
      assert p + [c] == [c];
    } else {
      assert (p + [c])[1..] == p[1..] + [c];
      TranslateSnoc(p[1..], c);
    }
  }

  /** likePositive's loop: the regex built one pattern character at a time. */
  method LikeRegex(p: string) returns (re: string)
    ensures re == LikeRegexOf(p)
  {
    re := "^";
    var i := 0;
    while i < |p|
      invariant 0 <= i <= |p|
      invariant re == "^" + Translate(p[..i])
    {
      var ch := p[i];
      var piece := if ch == '%' then ".*" else if ch == '_' then "." else "\\Q" + [ch] + "\\E";
      assert p[..i + 1] == p[..i] + [ch];
      TranslateSnoc(p[..i], ch);
      re := re + piece;
      i := i + 1;
    }
    assert p[..i] == p;
    re := re + "$";
  }

  /*
   * Operands.
   */

  /** The value reached by walking the path's segments through nested documents; anything that is no document on the way gives null. */
  function PathValue(cur: Value, parts: seq<string>): Value
    decreases |parts|
  {
    if |parts| == 0 then cur
    else if !cur.VMap? then VNull
    else PathValue(GetOrNull(cur.entries, parts[0]), parts[1..])
  }

  /** getByPath: a blank path reads nothing, any other is split on '.' and walked from the root. */
  function GetByPathOf(root: Doc, path: string): Value
  {
    if IsBlank(path) then VNull else PathValue(VMap(root), Split(path, '.'))
  }

  /** getByPath's loop over the path segments. */
  method GetByPath(root: Doc, path: string) returns (v: Value)
    ensures v == GetByPathOf(root, path)
  {
    if IsBlank(path) {
      return VNull;
    }
    var parts := Split(path, '.');
    var cur := VMap(root);
    var i := 0;
    while i < |parts|
      invariant 0 <= i <= |parts|
      invariant PathValue(cur, parts[i..]) == PathValue(VMap(root), parts)
    {
      if !cur.VMap? {
        return VNull;
      }
      assert parts[i..][1..] == parts[i + 1..];
      cur := GetOrNull(cur.entries, parts[i]);
      i := i + 1;
    }
    v := cur;
  }

  /** The document that holds v at the end of a chain of nested single-entry documents. */
  function Nest(parts: seq<string>, v: Value): (r: Value)
    ensures |parts| > 0 ==> r.VMap?
  {
    if |parts| == 0 then v else VMap([Entry(parts[0], Nest(parts[1..], v))])
  }

  lemma {:induction false} NestReadBack(parts: seq<string>, v: Value)
    ensures PathValue(Nest(parts, v), parts) == v
  {
    if |parts| > 0 {
      NestReadBack(parts[1..], v);
    }
  }

  /** A value the binder nests under the path's segments is exactly what getByPath reads back. */
  lemma BoundAtPathReadBack(path: string, v: Value)
    requires !IsBlank(path) && |Split(path, '.')| > 0
    ensures GetByPathOf(Nest(Split(path, '.'), v).entries, path) == v
  {
    NestReadBack(Split(path, '.'), v);
  }

  /** boundValue: the operand bound with the field's user type, read back at the path. */
  function BoundValue(bind: Binder, path: string, raw: Value, userTypeId: string): Result<Value>
  {
    var tmp :- bind(path, Bind(raw, userTypeId));
    Ok(GetByPathOf(tmp, path))
  }

  /** A binder that stores the operand under the path's segments makes the operand itself the bound value. */
  lemma StoringBinderKeepsOperand(bind: Binder, path: string, raw: Value, userTypeId: string)
    requires !IsBlank(path) && |Split(path, '.')| > 0
    requires bind(path, Bind(raw, userTypeId)) == Ok(Nest(Split(path, '.'), raw).entries)
    ensures BoundValue(bind, path, raw, userTypeId) == Ok(raw)
  {
    BoundAtPathReadBack(path, raw);
  }

  /** boundValue as the renderer calls it. */
  method BindValue(bind: Binder, path: string, raw: Value, userTypeId: string) returns (r: Result<Value>)
    ensures r == BoundValue(bind, path, raw, userTypeId)
  {
    var tmp := bind(path, Bind(raw, userTypeId));
    if tmp.Err? {
      return Err(tmp.error);
    }
    var v := GetByPath(tmp.value, path);
    r := Ok(v);
  }

  /** boundList: every operand bound in order; the first failure is the list's. */
  function BoundListOf(bind: Binder, path: string, raws: seq<Value>, userTypeId: string): (r: Result<seq<Value>>)
    ensures r.Ok? <==> forall i :: 0 <= i < |raws| ==> BoundValue(bind, path, raws[i], userTypeId).Ok?
    ensures r.Ok? ==> |r.value| == |raws|
    ensures r.Ok? ==> forall i :: 0 <= i < |raws| ==> r.value[i] == BoundValue(bind, path, raws[i], userTypeId).value
  {
    if |raws| == 0 then Ok([])
    else
      var prev :- BoundListOf(bind, path, raws[..|raws| - 1], userTypeId);
      var v :- BoundValue(bind, path, raws[|raws| - 1], userTypeId);
      assert forall i :: 0 <= i < |raws| - 1 ==> raws[..|raws| - 1][i] == raws[i];
      Ok(prev + [v])
  }

  lemma BoundListStep(bind: Binder, path: string, raws: seq<Value>, userTypeId: string, i: nat, out: seq<Value>, v: Result<Value>)
    requires i < |raws|
    requires BoundListOf(bind, path, raws[..i], userTypeId) == Ok(out)
    requires v == BoundValue(bind, path, raws[i], userTypeId)
    ensures v.Err? ==> BoundListOf(bind, path, raws, userTypeId).Err?
    ensures v.Ok? ==> BoundListOf(bind, path, raws[..i + 1], userTypeId) == Ok(out + [v.value])
  {
    assert raws[..i + 1][..i] == raws[..i];
  }

  /** boundList's loop. */
  method BoundList(bind: Binder, path: string, raws: seq<Value>, userTypeId: string) returns (r: Result<seq<Value>>)
    ensures r.Ok? <==> BoundListOf(bind, path, raws, userTypeId).Ok?
    ensures r.Ok? ==> r == BoundListOf(bind, path, raws, userTypeId)
  {
    var out: seq<Value> := [];
    var i := 0;
    while i < |raws|
      invariant 0 <= i <= |raws|
      invariant BoundListOf(bind, path, raws[..i], userTypeId) == Ok(out)
    {
      var v := BindValue(bind, path, raws[i], userTypeId);
      BoundListStep(bind, path, raws, userTypeId, i, out, v);
      if v.Err? {
        return Err(v.error);
      }
      out := out + [v.value];
      i := i + 1;
    }
    assert raws[..i] == raws;
    r := Ok(out);
  }

  /** toList: null is no operands, a List or other Collection its elements, anything else (an array included) the one operand. */
  function ToList(v: Value): (r: seq<Value>)
    ensures v == VNull ==> r == []
    ensures v.VList? && v.kind != JArray ==> r == v.items
    ensures v != VNull && !(v.VList? && v.kind != JArray) ==> r == [v]
  {
    if v == VNull then []
    else if v.VList? && v.kind != JArray then v.items
    else [v]
  }

  /*
   * One condition.
   */

  /** { path: { key: v } }. */
  function OpDoc(path: string, key: string, v: Value): Doc
  {
    [Entry(path, VMap([Entry(key, v)]))]
  }

  /** A negated fragment: { $nor: [ positive ] }. */
  function Nor(positive: Doc): Doc
  {
    [Entry("$nor", VList(JList, [VMap(positive)]))]
  }

  /** Operator.name(): the constant's own spelling. */
  function OpName(op: Operator): string
  {
    match op
    case EQ => "EQ"
    case NE => "NE"
    case GT => "GT"
    case GE => "GE"
    case LT => "LT"
    case LE => "LE"
    case IN => "IN"
    case NIN => "NIN"
    case RANGE => "RANGE"
    case LIKE => "LIKE"
    case ARRAY_CONTAINS => "ARRAY_CONTAINS"
    case ARRAY_NOT_CONTAINS => "ARRAY_NOT_CONTAINS"
    case ARRAY_OVERLAPS => "ARRAY_OVERLAPS"
    case ARRAY_NOT_OVERLAPS => "ARRAY_NOT_OVERLAPS"
    case JSON_PATH_EXISTS => "JSON_PATH_EXISTS"
    case JSON_VALUE_EQ => "JSON_VALUE_EQ"
  }

  function NonNullMessage(what: string): string
  {
    what + " requires non-null value"
  }

  /** EQ and NE: a null operand is compared as null itself, any other is bound first. */
  function EqualityDoc(bind: Binder, path: string, ne: bool, value: Value, userTypeId: string): Result<Doc>
  {
    var v :- if value == VNull then Ok(VNull) else BoundValue(bind, path, value, userTypeId);
    Ok(if ne then OpDoc(path, "$ne", v) else [Entry(path, v)])
  }

  /** likePositive: { path: { $regex: the anchored translation of the operand's text } }; a null operand is refused. */
  function LikeDoc(path: string, value: Value): Result<Doc>
  {
    if value == VNull then Err(IllegalArgument(NonNullMessage("LIKE")))
    else Ok(OpDoc(path, "$regex", VStr(LikeRegexOf(Show(value)))))
  }

  /** JSON_PATH_EXISTS: the operand's text is a JSON path below the field, which must exist. */
  function ExistsDoc(path: string, value: Value): Doc
  {
    [Entry(ResolveJsonPath(path, Show(value)), VMap([Entry("$exists", VBool(true))]))]
  }

  /** A comparison with one bound operand, which must not be null. */
  function CompareDoc(bind: Binder, path: string, op: Operator, key: string, value: Value, userTypeId: string): Result<Doc>
  {
    if value == VNull then Err(IllegalArgument(NonNullMessage(OpName(op))))
    else
      var v :- BoundValue(bind, path, value, userTypeId);
      Ok(OpDoc(path, key, v))
  }

  /** A list operator over the bound operands of toList. */
  function ListDoc(bind: Binder, path: string, key: string, value: Value, userTypeId: string): Result<Doc>
  {
    var vs :- BoundListOf(bind, path, ToList(value), userTypeId);
    Ok(OpDoc(path, key, VList(JList, vs)))
  }

  /** RANGE: lower then upper, each checked for null and bound in that order. */
  function RangeDoc(bind: Binder, path: string, lower: Value, upper: Value, userTypeId: string): Result<Doc>
  {
    if lower == VNull then Err(IllegalArgument(NonNullMessage("RANGE.lower")))
    else
      var lo :- BoundValue(bind, path, lower, userTypeId);
      if upper == VNull then Err(IllegalArgument(NonNullMessage("RANGE.upper")))
      else
        var hi :- BoundValue(bind, path, upper, userTypeId);
        Ok([Entry(path, VMap([Entry("$gte", lo), Entry("$lte", hi)]))])
  }

  /** jsonValueEqPositive: a {path, value} operand; the value is bound at the resolved sub-path. */
  function JsonValueEqDoc(bind: Binder, base: string, value: Value, userTypeId: string): Result<Doc>
  {
    if !value.VMap? then Err(IllegalArgument("JSON_VALUE_EQ expects value object {path,value}"))
    else
      var pathObj := GetOrNull(value.entries, "path");
      if pathObj == VNull then Err(IllegalArgument("JSON_VALUE_EQ requires 'path'"))
      else
        var full := ResolveJsonPath(base, Show(pathObj));
        var v :- BoundValue(bind, full, GetOrNull(value.entries, "value"), userTypeId);
        Ok([Entry(full, v)])
  }

  /** The positive fragment of a condition under operator op (the switch of render). */
  function PositiveDoc(bind: Binder, path: string, op: Operator, value: Value, lower: Value, upper: Value, userTypeId: string)
    : Result<Doc>
  {
    match op
    case EQ => EqualityDoc(bind, path, false, value, userTypeId)
    case NE => EqualityDoc(bind, path, true, value, userTypeId)
    case GT => CompareDoc(bind, path, op, "$gt", value, userTypeId)
    case GE => CompareDoc(bind, path, op, "$gte", value, userTypeId)
    case LT => CompareDoc(bind, path, op, "$lt", value, userTypeId)
    case LE => CompareDoc(bind, path, op, "$lte", value, userTypeId)
    case IN => ListDoc(bind, path, "$in", value, userTypeId)
    case NIN => ListDoc(bind, path, "$nin", value, userTypeId)
    case RANGE => RangeDoc(bind, path, lower, upper, userTypeId)
    case LIKE => LikeDoc(path, value)
    case ARRAY_CONTAINS => ListDoc(bind, path, "$all", value, userTypeId)
    case ARRAY_OVERLAPS => ListDoc(bind, path, "$in", value, userTypeId)
    case JSON_PATH_EXISTS => Ok(ExistsDoc(path, value))
    case JSON_VALUE_EQ => JsonValueEqDoc(bind, path, value, userTypeId)
    case _ => Err(IllegalArgument("Unsupported operator: " + OpName(op)))
  }

  /** The two negative array operators become their positive forms with the NOT flag flipped. */
  function Positive(op: Operator, not: bool): (r: (Operator, bool))
    ensures r.0 != ARRAY_NOT_CONTAINS && r.0 != ARRAY_NOT_OVERLAPS
    ensures op != ARRAY_NOT_CONTAINS && op != ARRAY_NOT_OVERLAPS ==> r == (op, not)
  {
    if op == ARRAY_NOT_CONTAINS then (ARRAY_CONTAINS, !not)
    else if op == ARRAY_NOT_OVERLAPS then (ARRAY_OVERLAPS, !not)
    else (op, not)
  }

  /** resolveScalarUserTypeId, or nothing when no resolver is configured. */
  function ScalarTypeOf(types: Option<Registry>, ea: EntityAuthoring, path: string): Result<Option<string>>
  {
    if types.None? then Ok(None) else PropertyTypeResolver.ResolveNoCache(types.value, Some(ea), path)
  }

  function UnknownScalarPath(ea: EntityAuthoring, path: string): string
  {
    "Unknown scalar field path '" + path + "' in entity '" + ea.entityType + "'"
  }

  /** A condition: its path resolved, its scalar type required, its operator rendered and wrapped in $nor when negated. */
  function CondDoc(ea: EntityAuthoring, view: Option<ViewDef>, types: Option<Registry>, bind: Binder, c: Element, negate: bool)
    : Result<Doc>
    requires c.Condition?
  {
    var path := ResolvePath(view, c.property);
    var ut :- ScalarTypeOf(types, ea, c.property);
    if ut.None? then Err(QueryValidation(UnknownScalarPath(ea, c.property)))
    else
      var (op, not) := Positive(c.op, c.not != negate);
      var positive :- PositiveDoc(bind, path, op, c.value, c.lower, c.upper, ut.value);
      Ok(if not then Nor(positive) else positive)
  }

  /** Every condition of an entity whose type is unknown at that path fails validation, and so does every condition without a resolver. */
  lemma UnknownScalarRejected(ea: EntityAuthoring, view: Option<ViewDef>, types: Option<Registry>, bind: Binder, c: Element, negate: bool)
    requires c.Condition?
    requires types.None? || PropertyTypeResolver.ResolveNoCache(types.value, Some(ea), c.property) == Ok(None)
    ensures CondDoc(ea, view, types, bind, c, negate) == Err(QueryValidation(UnknownScalarPath(ea, c.property)))
  {
  }

  /** A condition whose NOT flag differs from the pending negation is { $nor: [ the same condition, not negated ] }. */
  lemma NegatedConditionIsNor(ea: EntityAuthoring, view: Option<ViewDef>, types: Option<Registry>, bind: Binder, c: Element)
    requires c.Condition? && c.op != ARRAY_NOT_CONTAINS && c.op != ARRAY_NOT_OVERLAPS
    requires CondDoc(ea, view, types, bind, c.(not := false), false).Ok?
    ensures CondDoc(ea, view, types, bind, c.(not := true), false) == Ok(Nor(CondDoc(ea, view, types, bind, c.(not := false), false).value))
  {
  }

  /** ARRAY_NOT_CONTAINS and ARRAY_NOT_OVERLAPS render as ARRAY_CONTAINS and ARRAY_OVERLAPS with the NOT flag flipped. */
  lemma NegativeArrayOpsFlip(ea: EntityAuthoring, view: Option<ViewDef>, types: Option<Registry>, bind: Binder, c: Element, negate: bool)
    requires c.Condition?
    ensures CondDoc(ea, view, types, bind, c.(op := ARRAY_NOT_CONTAINS), negate)
         == CondDoc(ea, view, types, bind, c.(op := ARRAY_CONTAINS, not := !c.not), negate)
    ensures CondDoc(ea, view, types, bind, c.(op := ARRAY_NOT_OVERLAPS), negate)
         == CondDoc(ea, view, types, bind, c.(op := ARRAY_OVERLAPS, not := !c.not), negate)
  {
  }

  /** EQ null matches documents whose field is null or missing; NE null those where it is present and not null. */
  lemma NullComparisons(ea: EntityAuthoring, view: Option<ViewDef>, types: Option<Registry>, bind: Binder, p: string, userTypeId: string)
    requires ScalarTypeOf(types, ea, p) == Ok(Some(userTypeId))
    ensures CondDoc(ea, view, types, bind, Condition(p, EQ, VNull, VNull, VNull, false), false)
         == Ok([Entry(ResolvePath(view, p), VNull)])
    ensures CondDoc(ea, view, types, bind, Condition(p, NE, VNull, VNull, VNull, false), false)
         == Ok([Entry(ResolvePath(view, p), VMap([Entry("$ne", VNull)]))])
  {
  }

  /** LIKE renders as the anchored regex of the operand's text; a null operand is refused. */
  lemma LikeIsRegex(ea: EntityAuthoring, view: Option<ViewDef>, types: Option<Registry>, bind: Binder, p: string, v: Value, userTypeId: string)
    requires ScalarTypeOf(types, ea, p) == Ok(Some(userTypeId))
    ensures v != VNull ==>
              (CondDoc(ea, view, types, bind, Condition(p, LIKE, v, VNull, VNull, false), false)
               == Ok([Entry(ResolvePath(view, p), VMap([Entry("$regex", VStr(LikeRegexOf(Show(v))))]))]))
    ensures v == VNull ==>
              (CondDoc(ea, view, types, bind, Condition(p, LIKE, v, VNull, VNull, false), false)
               == Err(IllegalArgument(NonNullMessage("LIKE"))))
  {
  }

  /** The ordered comparisons refuse a null operand, naming the operator. */
  lemma ComparisonRefusesNull(ea: EntityAuthoring, view: Option<ViewDef>, types: Option<Registry>, bind: Binder, c: Element, negate: bool, userTypeId: string)
    requires c.Condition? && c.value == VNull && c.op in {GT, GE, LT, LE}
    requires ScalarTypeOf(types, ea, c.property) == Ok(Some(userTypeId))
    ensures CondDoc(ea, view, types, bind, c, negate) == Err(IllegalArgument(NonNullMessage(OpName(c.op))))
  {
  }

  /** A pending negation on a condition is the condition's own NOT flag flipped. */
  lemma CondDocDual(ea: EntityAuthoring, view: Option<ViewDef>, types: Option<Registry>, bind: Binder, c: Element)
    requires c.Condition?
    ensures CondDoc(ea, view, types, bind, c, true) == CondDoc(ea, view, types, bind, Dual(c), false)
  {
    var d := Dual(c);
    assert d == c.(not := !c.not);
    assert (c.not != true) == (d.not != false);
  }

  /*
   * The walk over the filter tree.
   */

  /** How one condition renders, given the pending negation. */
  type CondDocFn = (Element, bool) -> Result<Doc>

  /** The element list of a $and / $or. */
  function Docs(parts: seq<Doc>): (r: seq<Value>)
    ensures |r| == |parts|
    ensures forall i :: 0 <= i < |parts| ==> r[i] == VMap(parts[i])
  {
    seq(|parts|, i requires 0 <= i < |parts| => VMap(parts[i]))
  }

  /** A group's document from its non-empty parts: nothing, the only part bare, or $or / $and over all of them. */
  function GroupDoc(clause: Clause, parts: seq<Doc>): Doc
  {
    if |parts| == 0 then []
    else if |parts| == 1 then parts[0]
    else [Entry(if clause == OR then "$or" else "$and", VList(JList, Docs(parts)))]
  }

  /**
   * render with its condition branch left open: a NOT flips the pending
   * negation, a group renders its children and swaps its clause under a
   * negation, a nested query or GROUP BY marker is refused.
   */
  function Walk(cond: CondDocFn, el: Element, negate: bool): Result<Doc>
    decreases el, 1
  {
    match el
    case Not(e) => Walk(cond, e, !negate)
    case Group(clause, es) =>
      var parts :- Parts(cond, el, negate, |es|);
      Ok(GroupDoc(if negate then Flip(clause) else clause, parts))
    case Condition(_, _, _, _, _, _) => cond(el, negate)
    case Nested(_) => Err(IllegalArgument(UnsupportedQuery))
    case GroupBy(_) => Err(IllegalArgument(UnsupportedGroupBy))
  }

  /** The documents of the first n children of a group, empty ones dropped. */
  function Parts(cond: CondDocFn, g: Element, negate: bool, n: nat): (r: Result<seq<Doc>>)
    requires g.Group? && n <= |g.elements|
    ensures r.Ok? ==> |r.value| <= n
    ensures r.Ok? ==> forall i :: 0 <= i < |r.value| ==> |r.value[i]| > 0
    decreases g, 0, n
  {
    if n == 0 then Ok([])
    else
      var prev :- Parts(cond, g, negate, n - 1);
      var d :- Walk(cond, g.elements[n - 1], negate);
      Ok(if |d| == 0 then prev else prev + [d])
  }

  /** The MongoDB condition branch (the walk only ever hands it conditions). */
  function CondOf(ea: EntityAuthoring, view: Option<ViewDef>, types: Option<Registry>, bind: Binder): CondDocFn
  {
    (c: Element, negate: bool) => if c.Condition? then CondDoc(ea, view, types, bind, c, negate) else Err(IllegalState(""))
  }

  /** render for an entity, its view, the type resolver and the binder pipeline. */
  function RenderOf(ea: EntityAuthoring, view: Option<ViewDef>, types: Option<Registry>, bind: Binder, el: Element, negate: bool)
    : Result<Doc>
  {
    Walk(CondOf(ea, view, types, bind), el, negate)
  }

  /** toBson: no filter is the empty document, which matches everything. */
  function ToBsonOf(ea: EntityAuthoring, view: Option<ViewDef>, types: Option<Registry>, bind: Binder, filter: Option<Element>)
    : Result<Doc>
  {
    if filter.None? then Ok([]) else RenderOf(ea, view, types, bind, filter.value, false)
  }

  /** A group with no children renders as the empty document under either polarity. */
  lemma EmptyGroupIsEmpty(cond: CondDocFn, clause: Clause, negate: bool)
    ensures Walk(cond, Group(clause, []), negate) == Ok([])
  {
  }

  /** A group with one child renders exactly as that child: the part is returned unwrapped. */
  lemma SingleChildUnwrapped(cond: CondDocFn, clause: Clause, e: Element, negate: bool)
    ensures Walk(cond, Group(clause, [e]), negate) == Walk(cond, e, negate)
  {
    var g := Group(clause, [e]);
    assert g.elements[0] == e;
    var d := Walk(cond, e, negate);
    if d.Ok? {
      var none: seq<Doc> := [];
      assert none + [d.value] == [d.value];
      assert Parts(cond, g, negate, 1) == Ok(if |d.value| == 0 then [] else [d.value]);
    } else {
      assert Parts(cond, g, negate, 1) == Err(d.error);
    }
  }

  /** Two non-empty children combine under $and / $or, the clause swapped under a negation. */
  lemma TwoChildrenCombine(cond: CondDocFn, clause: Clause, e1: Element, e2: Element, negate: bool, d1: Doc, d2: Doc)
    requires Walk(cond, e1, negate) == Ok(d1) && |d1| > 0
    requires Walk(cond, e2, negate) == Ok(d2) && |d2| > 0
    ensures Walk(cond, Group(clause, [e1, e2]), negate)
         == Ok([Entry(if (if negate then Flip(clause) else clause) == OR then "$or" else "$and",
                      VList(JList, [VMap(d1), VMap(d2)]))])
  {
    var g := Group(clause, [e1, e2]);
    assert g.elements[0] == e1 && g.elements[1] == e2;
    var none: seq<Doc> := [];
    assert none + [d1] == [d1] && [d1] + [d2] == [d1, d2];
    assert Parts(cond, g, negate, 1) == Ok([d1]);
    assert Parts(cond, g, negate, 2) == Ok([d1, d2]);
    assert Docs([d1, d2]) == [VMap(d1), VMap(d2)];
  }

  /** A condition branch for which a pending negation is the condition's own NOT flag flipped. */
  ghost predicate DualCond(cond: CondDocFn)
  {
    forall c: Element :: c.Condition? ==> cond(c, true) == cond(Dual(c), false)
  }

  lemma {:induction false} WalkDual(cond: CondDocFn, el: Element)
    requires DualCond(cond)
    ensures Walk(cond, el, true) == Walk(cond, Dual(el), false)
    decreases el, 1
  {
    match el
    case Group(clause, es) =>
      PartsDual(cond, el, Dual(el), |es|);
      assert Flip(Flip(clause)) == clause;
    case Condition(_, _, _, _, _, _) =>
    case Not(e) =>
    case Nested(_) =>
    case GroupBy(_) =>
  }

  /** Children rendered under a negation equal, one by one, their duals rendered without it. */
  lemma {:induction false} PartsDual(cond: CondDocFn, g: Element, h: Element, n: nat)
    requires DualCond(cond)
    requires g.Group? && h.Group? && |h.elements| == |g.elements| && n <= |g.elements|
    requires forall i :: 0 <= i < |g.elements| ==> h.elements[i] == Dual(g.elements[i])
    ensures Parts(cond, g, true, n) == Parts(cond, h, false, n)
    decreases g, 0, n
  {
    if n > 0 {
      PartsDual(cond, g, h, n - 1);
      WalkDual(cond, g.elements[n - 1]);
    }
  }

  lemma CondOfDual(ea: EntityAuthoring, view: Option<ViewDef>, types: Option<Registry>, bind: Binder)
    ensures DualCond(CondOf(ea, view, types, bind))
  {
    forall c: Element | c.Condition?
      ensures CondOf(ea, view, types, bind)(c, true) == CondOf(ea, view, types, bind)(Dual(c), false)
    {
      CondDocDual(ea, view, types, bind, c);
    }
  }

  /** Rendering a negated filter is rendering its De Morgan dual: the same document, or the same error. */
  lemma NegationIsDual(ea: EntityAuthoring, view: Option<ViewDef>, types: Option<Registry>, bind: Binder, el: Element)
    ensures RenderOf(ea, view, types, bind, el, true) == RenderOf(ea, view, types, bind, Dual(el), false)
  {
    CondOfDual(ea, view, types, bind);
    WalkDual(CondOf(ea, view, types, bind), el);
  }

  /*
   * The renderer as it runs: the operator switch and the group loop.
   */

  /** The positive fragment, with the operands bound by the loops above. */
  method RenderPositive(bind: Binder, path: string, op: Operator, value: Value, lower: Value, upper: Value, userTypeId: string)
    returns (r: Result<Doc>)
    ensures r == PositiveDoc(bind, path, op, value, lower, upper, userTypeId)
  {
    match op {
      case EQ => r := RenderEquality(bind, path, false, value, userTypeId);
      case NE => r := RenderEquality(bind, path, true, value, userTypeId);
      case GT => r := RenderCompare(bind, path, op, "$gt", value, userTypeId);
      case GE => r := RenderCompare(bind, path, op, "$gte", value, userTypeId);
      case LT => r := RenderCompare(bind, path, op, "$lt", value, userTypeId);
      case LE => r := RenderCompare(bind, path, op, "$lte", value, userTypeId);
      case IN => r := RenderList(bind, path, "$in", value, userTypeId);
      case NIN => r := RenderList(bind, path, "$nin", value, userTypeId);
      case RANGE => r := RenderRange(bind, path, lower, upper, userTypeId);
      case LIKE => r := RenderLike(path, value);
      case ARRAY_CONTAINS => r := RenderList(bind, path, "$all", value, userTypeId);
      case ARRAY_OVERLAPS => r := RenderList(bind, path, "$in", value, userTypeId);
      case JSON_PATH_EXISTS => r := Ok(ExistsDoc(path, value));
      case JSON_VALUE_EQ => r := RenderJsonValueEq(bind, path, value, userTypeId);
      case ARRAY_NOT_CONTAINS => r := Err(IllegalArgument("Unsupported operator: " + OpName(op)));
      case ARRAY_NOT_OVERLAPS => r := Err(IllegalArgument("Unsupported operator: " + OpName(op)));
    }
  }

  method RenderEquality(bind: Binder, path: string, ne: bool, value: Value, userTypeId: string) returns (r: Result<Doc>)
    ensures r == EqualityDoc(bind, path, ne, value, userTypeId)
  {
    var v := Ok(VNull);
    if value != VNull {
      v := BindValue(bind, path, value, userTypeId);
      if v.Err? {
        return Err(v.error);
      }
    }
    r := Ok(if ne then OpDoc(path, "$ne", v.value) else [Entry(path, v.value)]);
  }

  method RenderLike(path: string, value: Value) returns (r: Result<Doc>)
    ensures r == LikeDoc(path, value)
  {
    if value == VNull {
      return Err(IllegalArgument(NonNullMessage("LIKE")));
    }
    var re := LikeRegex(Show(value));
    r := Ok(OpDoc(path, "$regex", VStr(re)));
  }

  method RenderCompare(bind: Binder, path: string, op: Operator, key: string, value: Value, userTypeId: string)
    returns (r: Result<Doc>)
    ensures r == CompareDoc(bind, path, op, key, value, userTypeId)
  {
    if value == VNull {
      return Err(IllegalArgument(NonNullMessage(OpName(op))));
    }
    var v := BindValue(bind, path, value, userTypeId);
    r := if v.Err? then Err(v.error) else Ok(OpDoc(path, key, v.value));
  }

  method RenderList(bind: Binder, path: string, key: string, value: Value, userTypeId: string) returns (r: Result<Doc>)
    ensures r == ListDoc(bind, path, key, value, userTypeId)
  {
    var vs := BoundList(bind, path, ToList(value), userTypeId);
    if vs.Err? {
      var e := BoundListOf(bind, path, ToList(value), userTypeId);
      return Err(e.error);
    }
    r := Ok(OpDoc(path, key, VList(JList, vs.value)));
  }

  method RenderRange(bind: Binder, path: string, lower: Value, upper: Value, userTypeId: string) returns (r: Result<Doc>)
    ensures r == RangeDoc(bind, path, lower, upper, userTypeId)
  {
    if lower == VNull {
      return Err(IllegalArgument(NonNullMessage("RANGE.lower")));
    }
    var lo := BindValue(bind, path, lower, userTypeId);
    if lo.Err? {
      return Err(lo.error);
    }
    if upper == VNull {
      return Err(IllegalArgument(NonNullMessage("RANGE.upper")));
    }
    var hi := BindValue(bind, path, upper, userTypeId);
    if hi.Err? {
      return Err(hi.error);
    }
    r := Ok([Entry(path, VMap([Entry("$gte", lo.value), Entry("$lte", hi.value)]))]);
  }

  method RenderJsonValueEq(bind: Binder, base: string, value: Value, userTypeId: string) returns (r: Result<Doc>)
    ensures r == JsonValueEqDoc(bind, base, value, userTypeId)
  {
    if !value.VMap? {
      return Err(IllegalArgument("JSON_VALUE_EQ expects value object {path,value}"));
    }
    var pathObj := GetOrNull(value.entries, "path");
    var valObj := GetOrNull(value.entries, "value");
    if pathObj == VNull {
      return Err(IllegalArgument("JSON_VALUE_EQ requires 'path'"));
    }
    var full := ResolveJsonPath(base, Show(pathObj));
    var v := BindValue(bind, full, valObj, userTypeId);
    r := if v.Err? then Err(v.error) else Ok([Entry(full, v.value)]);
  }

  /** A condition as render handles it. */
  method RenderCondition(ea: EntityAuthoring, view: Option<ViewDef>, types: Option<Registry>, bind: Binder, c: Element, negate: bool)
    returns (r: Result<Doc>)
    requires c.Condition?
    ensures r == CondDoc(ea, view, types, bind, c, negate)
  {
    var path := ResolvePath(view, c.property);
    var ut := ScalarTypeOf(types, ea, c.property);
    if ut.Err? {
      return Err(ut.error);
    }
    if ut.value.None? {
      return Err(QueryValidation(UnknownScalarPath(ea, c.property)));
    }
    var not := c.not != negate;
    var op := c.op;
    if op == ARRAY_NOT_CONTAINS {
      op := ARRAY_CONTAINS;
      not := !not;
    }
    if op == ARRAY_NOT_OVERLAPS {
      op := ARRAY_OVERLAPS;
      not := !not;
    }
    var positive := RenderPositive(bind, path, op, c.value, c.lower, c.upper, ut.value.value);
    if positive.Err? {
      return Err(positive.error);
    }
    r := Ok(if not then Nor(positive.value) else positive.value);
  }

  /** The link between a walk's condition branch and the concrete one. */
  ghost predicate Renders(cond: CondDocFn, ea: EntityAuthoring, view: Option<ViewDef>, types: Option<Registry>, bind: Binder)
  {
    forall c: Element, negate: bool {:trigger CondDoc(ea, view, types, bind, c, negate)} ::
      c.Condition? ==> cond(c, negate) == CondDoc(ea, view, types, bind, c, negate)
  }

  lemma CondOfRenders(ea: EntityAuthoring, view: Option<ViewDef>, types: Option<Registry>, bind: Binder)
    ensures Renders(CondOf(ea, view, types, bind), ea, view, types, bind)
  {
  }

  /** One more child rendered: kept when non-empty. */
  lemma PartsStep(cond: CondDocFn, g: Element, negate: bool, i: nat, next: nat, prev: seq<Doc>, d: Doc)
    requires g.Group? && i < |g.elements| && next == i + 1
    requires Parts(cond, g, negate, i) == Ok(prev)
    requires Walk(cond, g.elements[i], negate) == Ok(d)
    ensures Parts(cond, g, negate, next) == Ok(if |d| == 0 then prev else prev + [d])
  {
  }

  /** A failing child fails the group's parts with its error. */
  lemma PartsFail(cond: CondDocFn, g: Element, negate: bool, i: nat, next: nat, prev: seq<Doc>, e: Error)
    requires g.Group? && i < |g.elements| && next == i + 1
    requires Parts(cond, g, negate, i) == Ok(prev)
    requires Walk(cond, g.elements[i], negate) == Err(e)
    ensures Parts(cond, g, negate, |g.elements|) == Err(e)
  {
    assert Parts(cond, g, negate, next) == Err(e);
    PartsFailureSticks(cond, g, negate, next, e);
  }

  /** A group's document is built from the parts of all its children, or fails with their error. */
  lemma GroupFromParts(cond: CondDocFn, g: Element, negate: bool)
    requires g.Group?
    ensures Parts(cond, g, negate, |g.elements|).Err? ==>
              Walk(cond, g, negate) == Err(Parts(cond, g, negate, |g.elements|).error)
    ensures Parts(cond, g, negate, |g.elements|).Ok? ==>
              Walk(cond, g, negate) == Ok(GroupDoc(if negate then Flip(g.clause) else g.clause, Parts(cond, g, negate, |g.elements|).value))
  {
  }

  /** Once a child fails, every longer prefix of the group fails with the same error. */
  lemma {:induction false} PartsFailureSticks(cond: CondDocFn, g: Element, negate: bool, n: nat, e: Error)
    requires g.Group? && 0 < n <= |g.elements|
    requires Parts(cond, g, negate, n) == Err(e)
    ensures Parts(cond, g, negate, |g.elements|) == Err(e)
    decreases |g.elements| - n
  {
    if n < |g.elements| {
      PartsFailureSticks(cond, g, negate, n + 1, e);
    }
  }

  /** render: the element dispatched on its kind. */
  method Render(ea: EntityAuthoring, view: Option<ViewDef>, types: Option<Registry>, bind: Binder, el: Element, negate: bool,
                ghost cond: CondDocFn)
    returns (r: Result<Doc>)
    requires Renders(cond, ea, view, types, bind)
    ensures r == Walk(cond, el, negate)
    decreases el, 1
  {
    match el {
      case Not(e) =>
        r := Render(ea, view, types, bind, e, !negate, cond);
      case Group(_, _) =>
        r := RenderGroup(ea, view, types, bind, el, negate, cond);
      case Condition(_, _, _, _, _, _) =>
        r := RenderCondition(ea, view, types, bind, el, negate);
      case Nested(_) =>
        r := Err(IllegalArgument(UnsupportedQuery));
      case GroupBy(_) =>
        r := Err(IllegalArgument(UnsupportedGroupBy));
    }
  }

  /** A logical group: the clause swapped under a negation, each child rendered in turn, empty documents skipped. */
  method RenderGroup(ea: EntityAuthoring, view: Option<ViewDef>, types: Option<Registry>, bind: Binder, g: Element, negate: bool,
                     ghost cond: CondDocFn)
    returns (r: Result<Doc>)
    requires g.Group? && Renders(cond, ea, view, types, bind)
    ensures r == Walk(cond, g, negate)
    decreases g, 0
  {
    var clause := g.clause;
    if negate {
      clause := if clause == OR then AND else OR;
    }
    var parts: seq<Doc> := [];
    var i := 0;
    while i < |g.elements|
      invariant 0 <= i <= |g.elements|
      invariant Parts(cond, g, negate, i) == Ok(parts)
    {
      var d := Render(ea, view, types, bind, g.elements[i], negate, cond);
      var next := i + 1;
      if d.Err? {
        PartsFail(cond, g, negate, i, next, parts, d.error);
        GroupFromParts(cond, g, negate);
        return Err(d.error);
      }
      PartsStep(cond, g, negate, i, next, parts, d.value);
      if |d.value| > 0 {
        parts := parts + [d.value];
      }
      i := next;
    }
    GroupFromParts(cond, g, negate);
    r := Ok(GroupDoc(clause, parts));
  }

  /** toBson. */
  method ToBson(ea: EntityAuthoring, view: Option<ViewDef>, types: Option<Registry>, bind: Binder, filter: Option<Element>)
    returns (r: Result<Doc>)
    ensures r == ToBsonOf(ea, view, types, bind, filter)
  {
    if filter.None? {
      return Ok([]);
    }
    CondOfRenders(ea, view, types, bind);
    r := Render(ea, view, types, bind, filter.value, false, CondOf(ea, view, types, bind));
  }
}
