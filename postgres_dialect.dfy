/**
 * The Postgres dialect's own pieces: identifier quoting, LIMIT/OFFSET
 * paging, RETURNING on insert, and the array and JSON operators rendered
 * with @>, && and #>.
 */
module PostgresDialect {
  import opened Wrappers
  import opened Strings
  import opened Values
  import opened SqlRender
  import SqlParams

  const Id := "postgres"

  /** insertExecKind: reading the returned key needs a query; without RETURNING it is an update. */
  function InsertExecKind(returningColumns: seq<string>): (k: ExecKind)
    ensures k == QUERY_ONE_VALUE <==> returningColumns != []
    ensures k == UPDATE <==> returningColumns == []
  {
    if returningColumns == [] then UPDATE else QUERY_ONE_VALUE
  }

  /** quoteIdent: double quotes around the identifier, embedded double quotes doubled. */
  function QuoteIdent(ident: string): (r: string)
    ensures |r| >= 2 && r[0] == '"' && r[|r| - 1] == '"'
  {
    "\"" + ReplaceChar(ident, '"', "\"\"") + "\""
  }

  /** The body of a quoted identifier read back: "" stands for one quote, a lone quote is malformed. */
  function UnescapeQuotes(body: string): (r: Option<string>)
    decreases |body|
  {
    if body == [] then Some([])
    else if body[0] == '"' then
      if |body| >= 2 && body[1] == '"' then
        match UnescapeQuotes(body[2..])
        case None => None
        case Some(rest) => Some("\"" + rest)
      else None
    else
      match UnescapeQuotes(body[1..])
      case None => None
      case Some(rest) => Some([body[0]] + rest)
  }

  /** A quoted identifier read back to the name it quotes. */
  function Unquote(quoted: string): Option<string>
  {
    if |quoted| >= 2 && quoted[0] == '"' && quoted[|quoted| - 1] == '"' then
      UnescapeQuotes(quoted[1..|quoted| - 1])
    else None
  }

  lemma {:induction false} UnescapeReplaced(s: string)
    ensures UnescapeQuotes(ReplaceChar(s, '"', "\"\"")) == Some(s)
  {
    if s != [] {
      var rest := ReplaceChar(s[1..], '"', "\"\"");
      UnescapeReplaced(s[1..]);
      if s[0] == '"' {
        assert ReplaceChar(s, '"', "\"\"") == "\"\"" + rest;
        assert ("\"\"" + rest)[2..] == rest;
      } else {
        assert ReplaceChar(s, '"', "\"\"") == [s[0]] + rest;
        assert ([s[0]] + rest)[1..] == rest;
      }
      assert s == [s[0]] + s[1..];
    }
  }

  /** Quoting loses nothing: every identifier, quotes included, reads back from its quoted form. */
  lemma QuoteIdentRoundTrip(ident: string)
    ensures Unquote(QuoteIdent(ident)) == Some(ident)
  {
    var q := QuoteIdent(ident);
    assert q[1..|q| - 1] == ReplaceChar(ident, '"', "\"\"");
    UnescapeReplaced(ident);
  }

  /** Distinct identifiers stay distinct once quoted. */
  lemma QuoteIdentInjective(a: string, b: string)
    requires QuoteIdent(a) == QuoteIdent(b)
    ensures a == b
  {
    QuoteIdentRoundTrip(a);
    QuoteIdentRoundTrip(b);
  }

  /** Each identifier quoted, in order. */
  function QuoteAll(idents: seq<string>): (r: seq<string>)
    ensures |r| == |idents| && forall i :: 0 <= i < |idents| ==> r[i] == QuoteIdent(idents[i])
  {
    if idents == [] then [] else [QuoteIdent(idents[0])] + QuoteAll(idents[1..])
  }

  /** applyOffsetPage: LIMIT then OFFSET, binds kept; the two-argument statement is a query. */
  function ApplyOffsetPage(base: SqlStatement, offset: nat, limit: nat): (r: SqlStatement)
    ensures r.binds == base.binds && r.execKind == QUERY
    ensures r.sql == base.sql + " LIMIT " + NatToString(limit) + " OFFSET " + NatToString(offset)
  {
    SqlStatement(base.sql + " LIMIT " + NatToString(limit) + " OFFSET " + NatToString(offset), base.binds, QUERY)
  }

  /** applySeekPage: LIMIT only (the keyset predicate does the skipping), binds and kind kept. */
  function ApplySeekPage(base: SqlStatement, limit: nat): (r: SqlStatement)
    ensures r.binds == base.binds && r.execKind == base.execKind
    ensures r.sql == base.sql + " LIMIT " + NatToString(limit)
  {
    SqlStatement(base.sql + " LIMIT " + NatToString(limit), base.binds, base.execKind)
  }

  /** applyInsertReturning: RETURNING and the quoted columns, when there are any. */
  function ApplyInsertReturning(insertSql: string, returningColumns: seq<string>): (r: string)
    ensures returningColumns == [] ==> r == insertSql
    ensures returningColumns != [] ==> r == insertSql + " RETURNING " + Join(QuoteAll(returningColumns), ", ")
  {
    if returningColumns == [] then insertSql
    else insertSql + " RETURNING " + Join(QuoteAll(returningColumns), ", ")
  }

  /**
   * renderArrayContains: the whole value list is one bind, compared with @>.
   * The list is copied with List.copyOf first, which refuses a null element.
   */
  function ArrayContainsSql(expr: string, values: seq<Value>, userTypeId: string, not: bool, k: nat): (r: Result<Rendered>)
    ensures r.Err? <==> VNull in values
    ensures r.Err? ==> r.error == NullPointer("")
    ensures r.Ok? ==> r.value.binds == [Bind(VList(JList, values), userTypeId)]
    ensures r.Ok? ==> r.value.sql == NotWrap(expr + " @> " + Placeholder(k), not)
  {
    if VNull in values then Err(NullPointer(""))
    else Ok(Rendered(NotWrap(expr + " @> " + Placeholder(k), not), [Bind(VList(JList, values), userTypeId)]))
  }

  /** renderArrayOverlaps: as renderArrayContains, compared with &&. */
  function ArrayOverlapsSql(expr: string, values: seq<Value>, userTypeId: string, not: bool, k: nat): (r: Result<Rendered>)
    ensures r.Err? <==> VNull in values
    ensures r.Err? ==> r.error == NullPointer("")
    ensures r.Ok? ==> r.value.binds == [Bind(VList(JList, values), userTypeId)]
    ensures r.Ok? ==> r.value.sql == NotWrap(expr + " && " + Placeholder(k), not)
  {
    if VNull in values then Err(NullPointer(""))
    else Ok(Rendered(NotWrap(expr + " && " + Placeholder(k), not), [Bind(VList(JList, values), userTypeId)]))
  }

  /** The copy is refused before the bind is added, so a refused list leaves the context as it was. */
  method ArrayContains(expr: string, values: seq<Value>, userTypeId: string, not: bool, ctx: RenderCtx)
    returns (r: Result<string>)
    requires ctx.Valid()
    modifies ctx
    ensures ctx.Valid()
    ensures r.Err? <==> ArrayContainsSql(expr, values, userTypeId, not, |old(ctx.binds)|).Err?
    ensures r.Err? ==> r.error == NullPointer("") && ctx.binds == old(ctx.binds)
    ensures r.Ok? ==> r.value == ArrayContainsSql(expr, values, userTypeId, not, |old(ctx.binds)|).value.sql
    ensures r.Ok? ==> ctx.binds == old(ctx.binds) + ArrayContainsSql(expr, values, userTypeId, not, |old(ctx.binds)|).value.binds
  {
    if VNull in values {
      return Err(NullPointer(""));
    }
    var p := ctx.Add(Bind(VList(JList, values), userTypeId));
    r := Ok(NotWrap(expr + " @> " + p, not));
  }

  method ArrayOverlaps(expr: string, values: seq<Value>, userTypeId: string, not: bool, ctx: RenderCtx)
    returns (r: Result<string>)
    requires ctx.Valid()
    modifies ctx
    ensures ctx.Valid()
    ensures r.Err? <==> ArrayOverlapsSql(expr, values, userTypeId, not, |old(ctx.binds)|).Err?
    ensures r.Err? ==> r.error == NullPointer("") && ctx.binds == old(ctx.binds)
    ensures r.Ok? ==> r.value == ArrayOverlapsSql(expr, values, userTypeId, not, |old(ctx.binds)|).value.sql
    ensures r.Ok? ==> ctx.binds == old(ctx.binds) + ArrayOverlapsSql(expr, values, userTypeId, not, |old(ctx.binds)|).value.binds
  {
    if VNull in values {
      return Err(NullPointer(""));
    }
    var p := ctx.Add(Bind(VList(JList, values), userTypeId));
    r := Ok(NotWrap(expr + " && " + p, not));
  }

  /** The leading "$.", "$" and "." a path may carry, each removed once. */
  function StripRoots(p0: string): (p: string)
    ensures |p| <= |p0|
  {
    var p1 := if |p0| >= 2 && p0[0] == '$' && p0[1] == '.' then p0[2..] else p0;
    var p2 := if |p1| >= 1 && p1[0] == '$' then p1[1..] else p1;
    if |p2| >= 1 && p2[0] == '.' then p2[1..] else p2
  }

  /** The JSON path trimmed, then stripped of its roots. */
  function StripJsonRoot(jsonPath: string): (p: string)
    ensures |p| <= |jsonPath|
  {
    StripRoots(Trim(jsonPath))
  }

  /** The segments of a JSON path, comma-joined as the text[] body. */
  function ArrayBody(jsonPath: string): string
  {
    Join(Split(StripJsonRoot(jsonPath), '.'), ",")
  }

  /** pgTextArrayLiteral, as written: the segments between '{' and '}' in single quotes, unescaped. */
  function PgTextArrayLiteral(jsonPath: string): (r: string)
    ensures IsBlank(StripJsonRoot(jsonPath)) ==> r == "'{}'"
    ensures !IsBlank(StripJsonRoot(jsonPath)) ==> r == "'{" + ArrayBody(jsonPath) + "}'"
  {
    if IsBlank(StripJsonRoot(jsonPath)) then "'{}'" else "'{" + ArrayBody(jsonPath) + "}'"
  }

  /**
   * The literal as intended: a quote in its body doubled, so that the body
   * stays inside the SQL string literal. It agrees with the literal as
   * written on every path without a quote.
   */
  function PgTextArrayLiteralEscaped(jsonPath: string): (r: string)
    ensures '\'' !in ArrayBody(jsonPath) ==> r == PgTextArrayLiteral(jsonPath)
  {
    if IsBlank(StripJsonRoot(jsonPath)) then "'{}'"
    else "'{" + ReplaceChar(ArrayBody(jsonPath), '\'', "''") + "}'"
  }

  /** A path without a root and without padding is its own stripped form. */
  lemma StripPlain(s: string)
    requires s != [] && !IsTrimmable(s[0]) && !IsTrimmable(s[|s| - 1])
    requires s[0] != '$' && s[0] != '.'
    ensures StripJsonRoot(s) == s
  {
    TrimStable(s);
  }

  lemma RootDotStripped(s: string, t: string)
    requires |s| >= 3 && s[0] == '$' && s[1] == '.' && s[2..] == t
    requires t[0] != '$' && t[0] != '.'
    ensures StripRoots(s) == t
  {
  }

  /** The root "$." is stripped once from an unpadded path. */
  lemma StripRoot(s: string, t: string)
    requires |s| >= 3 && s[0] == '$' && s[1] == '.' && s[2..] == t
    requires !IsTrimmable(t[|t| - 1]) && t[0] != '$' && t[0] != '.'
    ensures StripJsonRoot(s) == t
  {
    assert s[|s| - 1] == t[|t| - 1];
    TrimStable(s);
    RootDotStripped(s, t);
  }

  /** "$.a.b" is the root "$." before "a.b". */
  lemma RootedAB(p: string)
    requires p == "$.a.b"
    ensures |p| >= 3 && p[0] == '$' && p[1] == '.' && p[2..] == "a.b"
  {
  }

  /** The bare roots "$" and "$." strip to nothing. */
  lemma StripRootOnly(s: string)
    requires s == "$" || s == "$."
    ensures StripJsonRoot(s) == ""
  {
    assert s[0] == '$' && (|s| == 1 || (|s| == 2 && s[1] == '.'));
    TrimStable(s);
    RootsOnly(s);
  }

  lemma RootsOnly(s: string)
    requires (|s| == 1 && s[0] == '$') || (|s| == 2 && s[0] == '$' && s[1] == '.')
    ensures |StripRoots(s)| == 0
  {
  }

  /** A path of trimmable characters only strips to nothing. */
  lemma StripAllPadding(s: string)
    requires forall i :: 0 <= i < |s| ==> IsTrimmable(s[i])
    ensures StripJsonRoot(s) == ""
  {
    assert TrimStart(s) == [];
  }

  /** A text with one non-blank character is not blank. */
  lemma NotBlankAt(s: string, i: nat)
    requires i < |s| && !IsWhitespace(s[i])
    ensures !IsBlank(s)
  {
  }

  lemma SplitTwo(s: string)
    requires s == "a.b"
    ensures Split(s, '.') == ["a", "b"]
  {
    assert Join(["a", "b"], ".") == s by {
      assert ["a", "b"][1..] == ["b"];
    }
    JoinSplitAll(["a", "b"], '.');
    assert s[1] == '.';
  }

  /** A path that strips to "a.b" has the text[] body "a,b". */
  lemma ArrayBodyAB(p: string)
    requires StripJsonRoot(p) == "a.b"
    ensures !IsBlank(StripJsonRoot(p)) && ArrayBody(p) == "a,b"
  {
    NotBlankAt(StripJsonRoot(p), 0);
    SplitTwo(StripJsonRoot(p));
    JoinAB(Split(StripJsonRoot(p), '.'));
  }

  lemma JoinAB(parts: seq<string>)
    requires parts == ["a", "b"]
    ensures Join(parts, ",") == "a,b"
  {
    assert parts[1..] == ["b"];
  }

  /** A path that strips to "a.b" renders as '{a,b}'. */
  lemma LiteralAB(p: string)
    requires StripJsonRoot(p) == "a.b"
    ensures PgTextArrayLiteral(p) == "'{a,b}'"
  {
    ArrayBodyAB(p);
    var b := ArrayBody(p);
    assert PgTextArrayLiteral(p) == "'{" + b + "}'";
    FrameAB(b);
  }

  lemma FrameAB(b: string)
    requires b == "a,b"
    ensures "'{" + b + "}'" == "'{a,b}'"
  {
  }

  /** pgTextArrayLiteral("$.a.b") and pgTextArrayLiteral("a.b") are both '{a,b}'. */
  lemma PgTextArrayLiteralExample(p: string)
    requires p == "$.a.b" || p == "a.b"
    ensures PgTextArrayLiteral(p) == "'{a,b}'"
  {
    if p == "a.b" {
      StripPlain(p);
    } else {
      RootedAB(p);
      StripRoot(p, "a.b");
    }
    LiteralAB(p);
  }

  /** A path that is only a root, or only blanks, gives the empty array '{}'. */
  lemma PgTextArrayLiteralEmpty(p: string)
    requires p == "$" || p == "$." || p == "  "
    ensures PgTextArrayLiteral(p) == "'{}'"
  {
    if p == "  " {
      StripAllPadding(p);
    } else {
      StripRootOnly(p);
    }
  }

  /** renderJsonPathExists: the path as a text[] literal, tested with #> ... IS NOT NULL; no bind. */
  function JsonPathExistsSql(expr: string, jsonPath: string, not: bool): string
  {
    NotWrap(expr + " #> " + PgTextArrayLiteral(jsonPath) + " IS NOT NULL", not)
  }

  /** The path "$.a.b" on column meta renders meta #> '{a,b}' IS NOT NULL. */
  lemma JsonPathExistsExample(expr: string, p: string, want: string)
    requires expr == "meta" && p == "$.a.b" && want == "meta #> '{a,b}' IS NOT NULL"
    ensures JsonPathExistsSql(expr, p, false) == want
  {
    PgTextArrayLiteralExample(p);
    JsonExistsFrame(expr, PgTextArrayLiteral(p), want);
  }

  lemma JsonExistsFrame(expr: string, lit: string, want: string)
    requires expr == "meta" && lit == "'{a,b}'" && want == "meta #> '{a,b}' IS NOT NULL"
    ensures expr + " #> " + lit + " IS NOT NULL" == want
  {
  }

  /**
   * On a plain column expression, and a path without a single quote, the
   * path test names no parameter and hides none of the text after it from
   * the parameter scanner; all of it reaches JDBC as written.
   */
  lemma JsonPathExistsBindsNothing(expr: string, jsonPath: string, not: bool, tail: string)
    requires '\'' !in ArrayBody(jsonPath)
    requires ':' !in expr && '\'' !in expr
    ensures SqlParams.Names(SqlParams.Tokens(JsonPathExistsSql(expr, jsonPath, not) + tail))
      == SqlParams.Names(SqlParams.Tokens(expr + tail))
    ensures SqlParams.Names(SqlParams.Tokens(expr + tail)) == SqlParams.Names(SqlParams.Tokens(tail))
    ensures SqlParams.Render(SqlParams.Tokens(JsonPathExistsSql(expr, jsonPath, not) + tail))
      == JsonPathExistsSql(expr, jsonPath, not) + SqlParams.Render(SqlParams.Tokens(tail))
  {
    var lit := PgTextArrayLiteral(jsonPath);
    var pre := (if not then "NOT (" else "") + expr + " #> ";
    var close := " IS NOT NULL" + (if not then ")" else "");
    JsonExistsSplit(expr, lit, not, tail, pre, close);
    PlainNotPrefix(expr, not, pre);
    ClosePlain(not, close);
    FramedLiteralScan(pre, jsonPath, close, tail);
    SqlParams.PlainPrefixNames(expr, tail);
  }

  /** A quote-free path literal between two plain texts hides nothing from the scanner and is copied as written. */
  lemma FramedLiteralScan(pre: string, jsonPath: string, close: string, tail: string)
    requires '\'' !in ArrayBody(jsonPath)
    requires ':' !in pre && '\'' !in pre && ':' !in close && '\'' !in close && close != []
    ensures SqlParams.Names(SqlParams.Tokens(pre + (PgTextArrayLiteral(jsonPath) + (close + tail))))
      == SqlParams.Names(SqlParams.Tokens(tail))
    ensures SqlParams.Render(SqlParams.Tokens(pre + (PgTextArrayLiteral(jsonPath) + (close + tail))))
      == pre + PgTextArrayLiteral(jsonPath) + close + SqlParams.Render(SqlParams.Tokens(tail))
  {
    var lit := PgTextArrayLiteralEscaped(jsonPath);
    assert lit == PgTextArrayLiteral(jsonPath);
    var post := close + tail;
    SqlParams.PlainPrefixNames(pre, lit + post);
    SqlParams.PlainPrefixRender(pre, lit + post);
    EscapedLiteralBindsNothing(jsonPath, post);
    EscapedLiteralUnchanged(jsonPath, post);
    SqlParams.PlainPrefixNames(close, tail);
    SqlParams.PlainPrefixRender(close, tail);
    ConcatAssoc4(pre, lit, close, SqlParams.Render(SqlParams.Tokens(tail)));
  }

  lemma JsonExistsSplit(expr: string, lit: string, not: bool, tail: string, pre: string, close: string)
    requires pre == (if not then "NOT (" else "") + expr + " #> "
    requires close == " IS NOT NULL" + (if not then ")" else "")
    ensures NotWrap(expr + " #> " + lit + " IS NOT NULL", not) + tail == pre + (lit + (close + tail))
    ensures NotWrap(expr + " #> " + lit + " IS NOT NULL", not) == pre + lit + close
  {
    if not {
      assert NotWrap(expr + " #> " + lit + " IS NOT NULL", not) == "NOT (" + expr + " #> " + lit + " IS NOT NULL" + ")";
    }
  }

  lemma ConcatAssoc4(a: string, b: string, c: string, d: string)
    ensures a + (b + (c + d)) == a + b + c + d
  {
  }

  lemma ClosePlain(not: bool, close: string)
    requires close == " IS NOT NULL" + (if not then ")" else "")
    ensures ':' !in close && '\'' !in close && close != []
  {
  }

  lemma PlainNotPrefix(expr: string, not: bool, pre: string)
    requires ':' !in expr && '\'' !in expr
    requires pre == (if not then "NOT (" else "") + expr + " #> "
    ensures ':' !in pre && '\'' !in pre
  {
  }

  /** The document the path segments build around a value, innermost segment last; a null value cannot be wrapped. */
  function Nest(parts: seq<string>, value: Value): (r: Result<Value>)
    ensures parts == [] ==> r == Ok(value)
    ensures r.Err? <==> parts != [] && value == VNull
    ensures r.Err? ==> r.error == NullPointer("")
    decreases |parts|
  {
    if parts == [] then Ok(value)
    else
      var inner :- Nest(parts[1..], value);
      if inner == VNull then Err(NullPointer("")) else Ok(VMap([Entry(parts[0], inner)]))
  }

  /** jsonFragment: the value itself for a blank path (a map or list as it is, anything else under "value"), else nested under the segments. */
  function JsonFragmentOf(jsonPath: string, value: Value): (r: Result<Value>)
  {
    var p := StripJsonRoot(jsonPath);
    if IsBlank(p) then
      if value.VMap? || (value.VList? && value.kind == JList) then Ok(value)
      else if value == VNull then Err(NullPointer(""))
      else Ok(VMap([Entry("value", value)]))
    else Nest(Split(p, '.'), value)
  }

  /** jsonFragment, as its loop re-wrapping cur from the last segment to the first. */
  method JsonFragment(jsonPath: string, value: Value) returns (r: Result<Value>)
    ensures r == JsonFragmentOf(jsonPath, value)
  {
    var p := StripJsonRoot(jsonPath);
    if IsBlank(p) {
      if value.VMap? || (value.VList? && value.kind == JList) {
        return Ok(value);
      }
      if value == VNull {
        return Err(NullPointer(""));
      }
      return Ok(VMap([Entry("value", value)]));
    }
    var parts := Split(p, '.');
    var cur := value;
    var j := |parts|;
    while j > 0
      invariant 0 <= j <= |parts|
      invariant Nest(parts[j..], value) == Ok(cur)
      decreases j
    {
      if cur == VNull {
        assert Nest(parts[j - 1..], value).Err? by {
          assert parts[j - 1..][1..] == parts[j..];
        }
        NestFailureSticks(parts, value, j - 1);
        return Err(NullPointer(""));
      }
      assert parts[j - 1..][1..] == parts[j..];
      cur := VMap([Entry(parts[j - 1], cur)]);
      j := j - 1;
    }
    assert parts[0..] == parts;
    r := Ok(cur);
  }

  lemma {:induction false} NestFailureSticks(parts: seq<string>, value: Value, j: nat)
    requires j <= |parts| && Nest(parts[j..], value).Err?
    ensures Nest(parts, value) == Err(NullPointer(""))
    decreases j
  {
    if j > 0 {
      assert parts[j - 1..][1..] == parts[j..];
      NestFailureSticks(parts, value, j - 1);
    } else {
      assert parts[0..] == parts;
    }
  }

  /** Following the segments down the fragment. */
  function Dig(doc: Value, parts: seq<string>): Option<Value>
    decreases |parts|
  {
    if parts == [] then Some(doc)
    else if doc.VMap? then
      match Get(doc.entries, parts[0])
      case None => None
      case Some(child) => Dig(child, parts[1..])
    else None
  }

  /** The fragment holds the value exactly at the path it was built from. */
  lemma {:induction false} NestThenDig(parts: seq<string>, value: Value)
    requires Nest(parts, value).Ok?
    ensures Dig(Nest(parts, value).value, parts) == Some(value)
    decreases |parts|
  {
    if parts != [] {
      NestThenDig(parts[1..], value);
    }
  }

  /** jsonFragment("$.a.b", 5) is {a: {b: 5}}. */
  lemma JsonFragmentExample(p: string, v: Value)
    requires p == "$.a.b" && v == VInt(5)
    ensures JsonFragmentOf(p, v) == Ok(VMap([Entry("a", VMap([Entry("b", v)]))]))
  {
    RootedAB(p);
    StripRoot(p, "a.b");
    FragmentAB(p, v);
  }

  /** A path that strips to "a.b" puts a non-null value under a, then b. */
  lemma FragmentAB(p: string, v: Value)
    requires StripJsonRoot(p) == "a.b" && v != VNull
    ensures JsonFragmentOf(p, v) == Ok(VMap([Entry("a", VMap([Entry("b", v)]))]))
  {
    NotBlankAt(StripJsonRoot(p), 0);
    var parts := Split(StripJsonRoot(p), '.');
    SplitTwo(StripJsonRoot(p));
    NestAB(parts, v);
  }

  lemma NestAB(parts: seq<string>, v: Value)
    requires parts == ["a", "b"] && v != VNull
    ensures Nest(parts, v) == Ok(VMap([Entry("a", VMap([Entry("b", v)]))]))
  {
    assert parts[1..][1..] == [];
    assert Nest(parts[1..], v) == Ok(VMap([Entry("b", v)]));
  }

  /** renderJsonValueEq: {path, value} becomes one json bind compared with @>. */
  function JsonValueEqSql(expr: string, valueObj: Value, not: bool, k: nat): (r: Result<Rendered>)
    ensures !valueObj.VMap? ==> r == Err(IllegalArgument("JSON_VALUE_EQ expects value object {path,value}"))
    ensures valueObj.VMap? && GetOrNull(valueObj.entries, "path") == VNull ==> r == Err(IllegalArgument("JSON_VALUE_EQ requires 'path'"))
    ensures r.Ok? ==> |r.value.binds| == 1 && r.value.binds[0].userTypeId == "json"
    ensures r.Ok? ==> r.value.sql == NotWrap(expr + " @> " + Placeholder(k), not)
  {
    if !valueObj.VMap? then Err(IllegalArgument("JSON_VALUE_EQ expects value object {path,value}"))
    else
      var path := GetOrNull(valueObj.entries, "path");
      if path == VNull then Err(IllegalArgument("JSON_VALUE_EQ requires 'path'"))
      else
        var fragment :- JsonFragmentOf(Show(path), GetOrNull(valueObj.entries, "value"));
        Ok(Rendered(NotWrap(expr + " @> " + Placeholder(k), not), [Bind(fragment, "json")]))
  }

  method JsonValueEq(expr: string, valueObj: Value, not: bool, ctx: RenderCtx) returns (r: Result<string>)
    requires ctx.Valid()
    modifies ctx
    ensures ctx.Valid()
    ensures JsonValueEqSql(expr, valueObj, not, |old(ctx.binds)|).Err? ==>
      r == Err(JsonValueEqSql(expr, valueObj, not, |old(ctx.binds)|).error)
    ensures JsonValueEqSql(expr, valueObj, not, |old(ctx.binds)|).Ok? ==>
      r == Ok(JsonValueEqSql(expr, valueObj, not, |old(ctx.binds)|).value.sql) &&
      ctx.binds == old(ctx.binds) + JsonValueEqSql(expr, valueObj, not, |old(ctx.binds)|).value.binds
  {
    if !valueObj.VMap? {
      return Err(IllegalArgument("JSON_VALUE_EQ expects value object {path,value}"));
    }
    var path := GetOrNull(valueObj.entries, "path");
    if path == VNull {
      return Err(IllegalArgument("JSON_VALUE_EQ requires 'path'"));
    }
    var fragment := JsonFragment(Show(path), GetOrNull(valueObj.entries, "value"));
    if fragment.Err? {
      return Err(fragment.error);
    }
    var p := ctx.Add(Bind(fragment.value, "json"));
    r := Ok(NotWrap(expr + " @> " + p, not));
  }

  /*
   * How the text[] literal of a JSON path meets the named-parameter scanner
   * that every statement passes through before it reaches JDBC.
   */

  /** One character of the body as the escaped literal spells it. */
  function Esc(c: char): (r: string)
    ensures c == '\'' ==> r == "''"
    ensures c != '\'' ==> r == [c]
  {
    if c == '\'' then "''" else [c]
  }

  lemma EscHead(x: string)
    requires x != []
    ensures ReplaceChar(x, '\'', "''") == Esc(x[0]) + ReplaceChar(x[1..], '\'', "''")
  {
  }

  /** One escaped character of the body inside quotes: "''" for a quote, the character itself otherwise. */
  lemma EscapedStep(s: string, i: nat, c: char)
    requires i + |Esc(c)| <= |s| && s[i..i + |Esc(c)|] == Esc(c)
    ensures SqlParams.Step(s, i, true)
      == if c == '\'' then (SqlParams.QuoteEscape, i + 2, true) else (SqlParams.Text(c), i + 1, true)
  {
    assert s[i] == Esc(c)[0];
    if c == '\'' {
      assert s[i + 1] == Esc(c)[1];
    }
  }

  /** An escaped character, spelled from i to j, binds nothing and keeps the scanner inside the literal. */
  lemma EscapedOneNames(s: string, i: nat, j: nat, c: char)
    requires j == i + |Esc(c)| && j <= |s| && s[i..j] == Esc(c)
    ensures SqlParams.Names(SqlParams.Lex(s, i, true)) == SqlParams.Names(SqlParams.Lex(s, j, true))
  {
    EscapedStep(s, i, c);
    SqlParams.NamesStep(s, i, true);
  }

  /** An escaped character, spelled from i to j, passes through the scanner as it is. */
  lemma EscapedOneText(s: string, i: nat, j: nat, c: char)
    requires j == i + |Esc(c)| && j <= |s| && s[i..j] == Esc(c)
    ensures SqlParams.Render(SqlParams.Lex(s, i, true)) == Esc(c) + SqlParams.Render(SqlParams.Lex(s, j, true))
  {
    EscapedStep(s, i, c);
    SqlParams.RenderStep(s, i, true);
  }

  /** A slice spelling h + rest spells h, then rest. */
  lemma SplitSlice(s: string, i: nat, j: nat, k: nat, h: string, rest: string)
    requires j == i + |h| && k == j + |rest| && k <= |s| && s[i..k] == h + rest
    ensures s[i..j] == h && s[j..k] == rest
  {
    assert s[i..j] == s[i..k][..|h|];
    assert s[j..k] == s[i..k][|h|..];
  }

  /** Doubled quotes keep the scanner inside the literal and bind nothing; k is where they end. */
  lemma {:induction false} EscapedBodyNames(s: string, i: nat, k: nat, x: string, e: string)
    requires e == ReplaceChar(x, '\'', "''")
    requires k == i + |e| && k <= |s| && s[i..k] == e
    ensures SqlParams.Names(SqlParams.Lex(s, i, true)) == SqlParams.Names(SqlParams.Lex(s, k, true))
    decreases |x|
  {
    if |x| > 0 {
      var h, rest := Esc(x[0]), ReplaceChar(x[1..], '\'', "''");
      var j := i + |h|;
      assert s[i..j] == h && s[j..k] == rest by {
        EscHead(x);
        SplitSlice(s, i, j, k, h, rest);
      }
      EscapedOneNames(s, i, j, x[0]);
      EscapedBodyNames(s, j, k, x[1..], rest);
    }
  }

  /** Doubled quotes pass through the scanner as they are; k is where they end. */
  lemma {:induction false} EscapedBodyText(s: string, i: nat, k: nat, x: string, e: string)
    requires e == ReplaceChar(x, '\'', "''")
    requires k == i + |e| && k <= |s| && s[i..k] == e
    ensures SqlParams.Render(SqlParams.Lex(s, i, true)) == e + SqlParams.Render(SqlParams.Lex(s, k, true))
    decreases |x|
  {
    if |x| > 0 {
      var h, rest := Esc(x[0]), ReplaceChar(x[1..], '\'', "''");
      var j := i + |h|;
      assert e == h + rest && s[i..j] == h && s[j..k] == rest by {
        EscHead(x);
        SplitSlice(s, i, j, k, h, rest);
      }
      EscapedOneText(s, i, j, x[0]);
      EscapedBodyText(s, j, k, x[1..], rest);
      Chain(e, h, rest, SqlParams.Render(SqlParams.Lex(s, i, true)),
        SqlParams.Render(SqlParams.Lex(s, j, true)), SqlParams.Render(SqlParams.Lex(s, k, true)));
    }
  }

  lemma Chain(e: string, h: string, rest: string, whole: string, after: string, end: string)
    requires e == h + rest && whole == h + after && after == rest + end
    ensures whole == e + end
  {
  }

  lemma ConcatAssoc(a: string, b: string, c: string)
    ensures a + (b + c) == (a + b) + c
  {
  }

  /** The tokens of the escaped literal's frame: the quote and brace that open it, the brace and quote that close it. */
  lemma LiteralFrame(s: string, e: string)
    requires |s| >= |e| + 4 && s[..|e| + 4] == "'{" + e + "}'"
    requires |s| == |e| + 4 || s[|e| + 4] != '\''
    ensures SqlParams.Step(s, 0, false) == (SqlParams.Text('\''), 1, true)
    ensures SqlParams.Step(s, 1, true) == (SqlParams.Text('{'), 2, true)
    ensures SqlParams.Step(s, |e| + 2, true) == (SqlParams.Text('}'), |e| + 3, true)
    ensures SqlParams.Step(s, |e| + 3, true) == (SqlParams.Text('\''), |e| + 4, false)
    ensures s[2..2 + |e|] == e
  {
    assert s[0] == '\'' && s[1] == '{' && s[|e| + 2] == '}' && s[|e| + 3] == '\'';
  }

  /** The body of the escaped literal, before its quotes are doubled. */
  function LiteralBody(jsonPath: string): string
  {
    if IsBlank(StripJsonRoot(jsonPath)) then "" else ArrayBody(jsonPath)
  }

  lemma EscapedLiteralShape(jsonPath: string)
    ensures PgTextArrayLiteralEscaped(jsonPath) == "'{" + ReplaceChar(LiteralBody(jsonPath), '\'', "''") + "}'"
  {
    var x := LiteralBody(jsonPath);
    if IsBlank(StripJsonRoot(jsonPath)) {
      assert ReplaceChar(x, '\'', "''") == [];
      FrameEmpty(ReplaceChar(x, '\'', "''"));
    }
  }

  lemma FrameEmpty(e: string)
    requires e == []
    ensures "'{" + e + "}'" == "'{}'"
  {
  }

  /** An escaped body in its frame binds nothing, whatever follows it. */
  lemma FramedBodyNames(x: string, tail: string)
    requires tail == [] || tail[0] != '\''
    ensures SqlParams.Names(SqlParams.Tokens("'{" + ReplaceChar(x, '\'', "''") + "}'" + tail))
      == SqlParams.Names(SqlParams.Tokens(tail))
  {
    var e := ReplaceChar(x, '\'', "''");
    var lit := "'{" + e + "}'";
    var s := lit + tail;
    assert s[..|e| + 4] == lit;
    LiteralFrame(s, e);
    SqlParams.NamesStep(s, 0, false);
    SqlParams.NamesStep(s, 1, true);
    EscapedBodyNames(s, 2, |e| + 2, x, e);
    SqlParams.NamesStep(s, |e| + 2, true);
    SqlParams.NamesStep(s, |e| + 3, true);
    SqlParams.LexShift(lit, tail, 0, false);
    assert SqlParams.Names(SqlParams.Lex(s, 0, false)) == SqlParams.Names(SqlParams.Lex(s, |lit|, false));
  }

  /** An escaped body in its frame passes through the scanner as it is. */
  lemma FramedBodyText(x: string, tail: string)
    requires tail == [] || tail[0] != '\''
    ensures SqlParams.Render(SqlParams.Tokens("'{" + ReplaceChar(x, '\'', "''") + "}'" + tail))
      == "'{" + ReplaceChar(x, '\'', "''") + "}'" + SqlParams.Render(SqlParams.Tokens(tail))
  {
    var e := ReplaceChar(x, '\'', "''");
    var lit := "'{" + e + "}'";
    var s := lit + tail;
    assert s[..|e| + 4] == lit;
    LiteralFrame(s, e);
    SqlParams.RenderStep(s, 0, false);
    SqlParams.RenderStep(s, 1, true);
    EscapedBodyText(s, 2, |e| + 2, x, e);
    SqlParams.RenderStep(s, |e| + 2, true);
    SqlParams.RenderStep(s, |e| + 3, true);
    SqlParams.LexShift(lit, tail, 0, false);
    var after := SqlParams.Render(SqlParams.Tokens(tail));
    assert SqlParams.Render(SqlParams.Lex(s, 0, false)) == "'" + ("{" + (e + ("}" + ("'" + after))));
    FrameAssoc(e, after);
  }

  lemma FrameAssoc(e: string, after: string)
    ensures "'" + ("{" + (e + ("}" + ("'" + after)))) == "'{" + e + "}'" + after
  {
  }

  /**
   * The escaped literal is inert: placed before any text that does not
   * itself start with a quote, it binds nothing and leaves the text's own
   * parameters as they were.
   */
  lemma EscapedLiteralBindsNothing(jsonPath: string, tail: string)
    requires tail == [] || tail[0] != '\''
    ensures SqlParams.Names(SqlParams.Tokens(PgTextArrayLiteralEscaped(jsonPath) + tail))
      == SqlParams.Names(SqlParams.Tokens(tail))
  {
    EscapedLiteralShape(jsonPath);
    FramedBodyNames(LiteralBody(jsonPath), tail);
  }

  /** The escaped literal reaches JDBC exactly as it was rendered. */
  lemma EscapedLiteralUnchanged(jsonPath: string, tail: string)
    requires tail == [] || tail[0] != '\''
    ensures SqlParams.Render(SqlParams.Tokens(PgTextArrayLiteralEscaped(jsonPath) + tail))
      == PgTextArrayLiteralEscaped(jsonPath) + SqlParams.Render(SqlParams.Tokens(tail))
  {
    EscapedLiteralShape(jsonPath);
    FramedBodyText(LiteralBody(jsonPath), tail);
  }

  /** The path x'y has no root, no dot and no padding: its literal as written is '{x'y}'. */
  lemma LiteralXY(p: string)
    requires p == "x'y"
    ensures PgTextArrayLiteral(p) == "'{x'y}'"
  {
    StripPlain(p);
    NotBlankAt(p, 0);
    assert '.' !in p by {
      assert p[0] != '.' && p[1] != '.' && p[2] != '.';
    }
    assert Split(p, '.') == [p];
    FrameXY(ArrayBody(p));
  }

  lemma FrameXY(e: string)
    requires e == "x'y"
    ensures "'{" + e + "}'" == "'{x'y}'"
  {
  }

  /** Outside quotes, ":b1" is the one parameter b1. */
  lemma PlaceholderB1(b: string)
    requires b == ":b1"
    ensures SqlParams.Names(SqlParams.Tokens(b)) == ["b1"]
  {
    assert b[1..3] == "b1";
    assert SqlParams.IdentEnd(b, 3) == 3;
    assert SqlParams.IdentEnd(b, 2) == 3;
    assert SqlParams.Step(b, 0, false) == (SqlParams.Placeholder("b1"), 3, false);
    SqlParams.NamesStep(b, 0, false);
  }

  /** After '{x'y}' the scanner is inside a quote again, so ":b1" is plain text. */
  lemma SwallowB1(s: string)
    requires s == "'{x'y}'" + ":b1"
    ensures SqlParams.Names(SqlParams.Tokens(s)) == []
  {
    assert s[0] == '\'' && s[1] == '{' && s[2] == 'x' && s[3] == '\'' && s[4] == 'y' && s[5] == '}' && s[6] == '\'';
    assert s[7] == ':' && s[8] == 'b' && s[9] == '1' && |s| == 10;
    SkipText(s, 0, false, 1, true);
    SkipText(s, 1, true, 2, true);
    SkipText(s, 2, true, 3, true);
    SkipText(s, 3, true, 4, false);
    SkipText(s, 4, false, 5, false);
    SkipText(s, 5, false, 6, false);
    SkipText(s, 6, false, 7, true);
    SqlParams.QuotedTailHasNoNames(s, 7);
  }

  /** A step that reads no placeholder adds no name. */
  lemma SkipText(s: string, i: nat, inQuote: bool, j: nat, q: bool)
    requires i < |s| && SqlParams.Step(s, i, inQuote).1 == j && SqlParams.Step(s, i, inQuote).2 == q
    requires !SqlParams.Step(s, i, inQuote).0.Placeholder?
    ensures SqlParams.Names(SqlParams.Lex(s, i, inQuote)) == SqlParams.Names(SqlParams.Lex(s, j, q))
  {
    SqlParams.NamesStep(s, i, inQuote);
  }

  /**
   * As written, a quote in the path ends the literal early: the path "x'y"
   * leaves the scanner inside a quote, so a placeholder rendered after it is
   * never turned into a "?" and its bind has no parameter to go to.
   */
  lemma QuotedPathSwallowsPlaceholder(p: string, b: string)
    requires p == "x'y" && b == ":b1"
    ensures PgTextArrayLiteral(p) == "'{x'y}'"
    ensures SqlParams.Names(SqlParams.Tokens(b)) == ["b1"]
    ensures SqlParams.Names(SqlParams.Tokens(PgTextArrayLiteral(p) + b)) == []
  {
    LiteralXY(p);
    PlaceholderB1(b);
    SwallowB1(PgTextArrayLiteral(p) + b);
  }
}
