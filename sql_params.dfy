/**
 * Named parameters in view SQL: a purely lexical scan finds each ":name"
 * outside single quotes (a "::" cast is not a parameter), rewrites it to a
 * JDBC "?" and resolves one bind per occurrence, in order.
 */
module SqlParams {
  import opened Wrappers
  import opened Values
  import SqlRender

  predicate IsIdentStart(c: char)
  {
    ('A' <= c <= 'Z') || ('a' <= c <= 'z') || c == '_'
  }

  predicate IsIdentPart(c: char)
  {
    IsIdentStart(c) || ('0' <= c <= '9')
  }

  /** The end of the identifier run that starts at or continues from j. */
  function IdentEnd(s: string, j: nat): (r: nat)
    requires j <= |s|
    ensures j <= r <= |s|
    ensures forall k :: j <= k < r ==> IsIdentPart(s[k])
    ensures r == |s| || !IsIdentPart(s[r])
    decreases |s| - j
  {
    if j < |s| && IsIdentPart(s[j]) then IdentEnd(s, j + 1) else j
  }

  /** A lexical unit of view SQL as the scanner sees it. */
  datatype Token =
    | Text(c: char)            // copied through unchanged
    | QuoteEscape              // '' inside a quoted literal
    | Cast                     // :: outside quotes
    | Placeholder(name: string)  // :name outside quotes

  /** One scanning step at position i: the token found, where the scan resumes, and the quote state after it. */
  function Step(s: string, i: nat, inQuote: bool): (r: (Token, nat, bool))
    requires i < |s|
    ensures i < r.1 <= |s|
  {
    if s[i] == '\'' then
      if inQuote && i + 1 < |s| && s[i + 1] == '\'' then (QuoteEscape, i + 2, inQuote)
      else (Text('\''), i + 1, !inQuote)
    else if !inQuote && s[i] == ':' then
      if i + 1 < |s| && s[i + 1] == ':' then (Cast, i + 2, inQuote)
      else if i + 1 < |s| && IsIdentStart(s[i + 1]) then
        var end := IdentEnd(s, i + 2);
        (Placeholder(s[i + 1..end]), end, inQuote)
      else (Text(':'), i + 1, inQuote)
    else (Text(s[i]), i + 1, inQuote)
  }

  /** The scanner from position i, inside or outside a single-quoted literal. */
  function Lex(s: string, i: nat, inQuote: bool): seq<Token>
    requires i <= |s|
    decreases |s| - i
  {
    if i == |s| then []
    else
      var (t, j, q) := Step(s, i, inQuote);
      [t] + Lex(s, j, q)
  }

  /** The JDBC spelling of one token: a placeholder becomes "?". */
  function JdbcText(t: Token): string
  {
    match t
    case Text(c) => [c]
    case QuoteEscape => "''"
    case Cast => "::"
    case Placeholder(_) => "?"
  }

  /** The source spelling of one token: a placeholder is ":" and its name. */
  function SourceText(t: Token): string
  {
    match t
    case Text(c) => [c]
    case QuoteEscape => "''"
    case Cast => "::"
    case Placeholder(n) => ":" + n
  }

  /** The JDBC text of a token sequence. */
  function Render(ts: seq<Token>): string
  {
    if ts == [] then [] else JdbcText(ts[0]) + Render(ts[1..])
  }

  /** The source text of a token sequence. */
  function Source(ts: seq<Token>): string
  {
    if ts == [] then [] else SourceText(ts[0]) + Source(ts[1..])
  }

  /** The parameter names, in order of appearance. */
  function Names(ts: seq<Token>): seq<string>
  {
    if ts == [] then []
    else (if ts[0].Placeholder? then [ts[0].name] else []) + Names(ts[1..])
  }

  /** The tokens of a whole statement. */
  function Tokens(s: string): seq<Token>
  {
    Lex(s, 0, false)
  }

  lemma {:induction false} RenderAppend(a: seq<Token>, b: seq<Token>)
    ensures Render(a + b) == Render(a) + Render(b)
  {
    if a == [] {
      assert a + b == b;
    } else {
      assert (a + b)[0] == a[0];
      assert (a + b)[1..] == a[1..] + b;
      RenderAppend(a[1..], b);
    }
  }

  lemma {:induction false} NamesAppend(a: seq<Token>, b: seq<Token>)
    ensures Names(a + b) == Names(a) + Names(b)
  {
    if a == [] {
      assert a + b == b;
    } else {
      assert (a + b)[0] == a[0];
      assert (a + b)[1..] == a[1..] + b;
      NamesAppend(a[1..], b);
    }
  }

  lemma RenderStep(s: string, i: nat, inQuote: bool)
    requires i < |s|
    ensures Render(Lex(s, i, inQuote))
      == JdbcText(Step(s, i, inQuote).0) + Render(Lex(s, Step(s, i, inQuote).1, Step(s, i, inQuote).2))
  {
    var (t, j, q) := Step(s, i, inQuote);
    RenderAppend([t], Lex(s, j, q));
  }

  lemma NamesStep(s: string, i: nat, inQuote: bool)
    requires i < |s|
    ensures Names(Lex(s, i, inQuote))
      == (if Step(s, i, inQuote).0.Placeholder? then [Step(s, i, inQuote).0.name] else [])
         + Names(Lex(s, Step(s, i, inQuote).1, Step(s, i, inQuote).2))
  {
    var (t, j, q) := Step(s, i, inQuote);
    NamesAppend([t], Lex(s, j, q));
  }

  /**
   * The branch structure both scanning loops share: the token at i, where
   * the scan resumes and the quote state after it.
   */
  method NextToken(s: string, i: nat, inQuote: bool) returns (t: Token, next: nat, nowQuote: bool)
    requires i < |s|
    ensures (t, next, nowQuote) == Step(s, i, inQuote)
  {
    var ch := s[i];
    if ch == '\'' {
      if inQuote && i + 1 < |s| && s[i + 1] == '\'' {
        return QuoteEscape, i + 2, inQuote;
      }
      return Text(ch), i + 1, !inQuote;
    }
    if !inQuote && ch == ':' {
      if i + 1 < |s| && s[i + 1] == ':' {
        return Cast, i + 2, inQuote;
      }
      var start := i + 1;
      if start < |s| && IsIdentStart(s[start]) {
        var end := ScanIdent(s, start + 1);
        return Placeholder(s[start..end]), end, inQuote;
      }
    }
    return Text(ch), i + 1, inQuote;
  }

  /** The identifier-scanning inner loop. */
  method ScanIdent(s: string, from: nat) returns (end: nat)
    requires from <= |s|
    ensures end == IdentEnd(s, from)
  {
    end := from;
    while end < |s| && IsIdentPart(s[end])
      invariant from <= end <= |s|
      invariant IdentEnd(s, end) == IdentEnd(s, from)
      decreases |s| - end
    {
      end := end + 1;
    }
  }

  /** toJdbcSql, as its scanning loop; a null statement gives "". */
  method ToJdbcSql(sql: Option<string>) returns (out: string)
    ensures sql.None? ==> out == ""
    ensures sql.Some? ==> out == Render(Tokens(sql.value))
  {
    if sql.None? {
      return "";
    }
    out := RewriteParams(sql.value);
  }

  /** The scanning loop of toJdbcSql over a present statement. */
  method RewriteParams(s: string) returns (out: string)
    ensures out == Render(Tokens(s))
  {
    out := "";
    var inQuote := false;
    var i := 0;
    while i < |s|
      invariant 0 <= i <= |s|
      invariant Render(Tokens(s)) == out + Render(Lex(s, i, inQuote))
      decreases |s| - i
    {
      var t, next, nowQuote := NextToken(s, i, inQuote);
      RenderedStep(s, out, i, inQuote);
      out := out + JdbcText(t);
      i, inQuote := next, nowQuote;
    }
    NoMoreText(s, out, inQuote);
  }

  /** The text rendered so far grows by the JDBC spelling of the token at i. */
  lemma RenderedStep(s: string, out: string, i: nat, inQuote: bool)
    requires i < |s| && Render(Tokens(s)) == out + Render(Lex(s, i, inQuote))
    ensures var (t, j, q) := Step(s, i, inQuote);
      Render(Tokens(s)) == (out + JdbcText(t)) + Render(Lex(s, j, q))
  {
    RenderStep(s, i, inQuote);
  }

  lemma NoMoreText(s: string, out: string, inQuote: bool)
    requires Render(Tokens(s)) == out + Render(Lex(s, |s|, inQuote))
    ensures out == Render(Tokens(s))
  {
    assert Render(Lex(s, |s|, inQuote)) == [];
  }

  /** inferBind: the type id a plain param value is bound as. */
  function InferBind(v: Value): (b: Bind)
    ensures b.value == v
    ensures v.VNull? || v.VStr? ==> b.userTypeId == "string"
    ensures v.VInt? ==> b.userTypeId == "int"
    ensures v.VLong? ==> b.userTypeId == "long"
    ensures v.VBool? ==> b.userTypeId == "bool"
    ensures v.VUuid? ==> b.userTypeId == "uuid"
    ensures v.VInstant? ==> b.userTypeId == "instant"
    ensures v.VList? || v.VMap? || v.VParam? || v.VBind? || v.VOther? ==> b.userTypeId == "json"
  {
    match v
    case VNull => Bind(v, "string")
    case VStr(_) => Bind(v, "string")
    case VInt(_) => Bind(v, "int")
    case VLong(_) => Bind(v, "long")
    case VBool(_) => Bind(v, "bool")
    case VUuid(_) => Bind(v, "uuid")
    case VInstant(_) => Bind(v, "instant")
    case _ => Bind(v, "json")
  }

  /** getRequired and the bind choice: a Bind param is used as it is, anything else inferred. */
  function BindFor(params: seq<Entry>, name: string): (r: Result<Bind>)
    ensures r.Err? <==> !HasKey(params, name)
    ensures r.Err? ==> r.error == IllegalArgument("Missing query param: " + name)
    ensures r.Ok? && Get(params, name).value.VBind? ==> r.value == Get(params, name).value.bind
    ensures r.Ok? && !Get(params, name).value.VBind? ==> r.value == InferBind(Get(params, name).value)
  {
    match Get(params, name)
    case None => Err(IllegalArgument("Missing query param: " + name))
    case Some(raw) => Ok(if raw.VBind? then raw.bind else InferBind(raw))
  }

  /** The binds of a list of names, in order; the first missing name fails. */
  function BindsOf(params: seq<Entry>, names: seq<string>): (r: Result<seq<Bind>>)
    ensures r.Ok? ==> |r.value| == |names|
  {
    if names == [] then Ok([])
    else
      var init :- BindsOf(params, names[..|names| - 1]);
      var b :- BindFor(params, names[|names| - 1]);
      Ok(init + [b])
  }

  /** bindsFor, as its scanning loop: a null statement has no binds; null params are an empty map. */
  method BindsFor(sql: Option<string>, params: Option<seq<Entry>>) returns (r: Result<seq<Bind>>)
    ensures sql.None? ==> r == Ok([])
    ensures sql.Some? ==> r == BindsOf(params.UnwrapOr([]), Names(Tokens(sql.value)))
  {
    if sql.None? {
      return Ok([]);
    }
    r := BindsOfText(sql.value, params.UnwrapOr([]));
  }

  /** The scanning loop of bindsFor over a present statement. */
  method BindsOfText(s: string, effective: seq<Entry>) returns (r: Result<seq<Bind>>)
    ensures r == BindsOf(effective, Names(Tokens(s)))
  {
    var binds: seq<Bind> := [];
    ghost var seen: seq<string> := [];
    var inQuote := false;
    var i := 0;
    while i < |s|
      invariant 0 <= i <= |s|
      invariant Names(Tokens(s)) == seen + Names(Lex(s, i, inQuote))
      invariant BindsOf(effective, seen) == Ok(binds)
      decreases |s| - i
    {
      var t, next, nowQuote := NextToken(s, i, inQuote);
      SeenStep(s, seen, i, inQuote);
      if t.Placeholder? {
        var b := BindFor(effective, t.name);
        BindsSnoc(effective, seen, t.name);
        if b.Err? {
          BindsFailureSticks(effective, seen + [t.name], Names(Lex(s, next, nowQuote)));
          return Err(b.error);
        }
        binds := binds + [b.value];
        seen := seen + [t.name];
      }
      i, inQuote := next, nowQuote;
    }
    NoMoreNames(s, seen, inQuote);
    r := Ok(binds);
  }

  /** The names seen so far grow by the name of the token at i, if it is a placeholder. */
  lemma SeenStep(s: string, seen: seq<string>, i: nat, inQuote: bool)
    requires i < |s| && Names(Tokens(s)) == seen + Names(Lex(s, i, inQuote))
    ensures var (t, j, q) := Step(s, i, inQuote);
      Names(Tokens(s)) == (if t.Placeholder? then seen + [t.name] else seen) + Names(Lex(s, j, q))
  {
    NamesStep(s, i, inQuote);
  }

  lemma NoMoreNames(s: string, seen: seq<string>, inQuote: bool)
    requires Names(Tokens(s)) == seen + Names(Lex(s, |s|, inQuote))
    ensures seen == Names(Tokens(s))
  {
    assert Names(Lex(s, |s|, inQuote)) == [];
  }

  /** One more name: its bind is appended, or its failure is the result. */
  lemma BindsSnoc(params: seq<Entry>, names: seq<string>, name: string)
    requires BindsOf(params, names).Ok?
    ensures BindFor(params, name).Err? ==> BindsOf(params, names + [name]) == Err(BindFor(params, name).error)
    ensures BindFor(params, name).Ok? ==>
      BindsOf(params, names + [name]) == Ok(BindsOf(params, names).value + [BindFor(params, name).value])
  {
    assert (names + [name])[..|names|] == names;
  }

  /** A failure among the first names is the failure of the whole list. */
  lemma {:induction false} BindsFailureSticks(params: seq<Entry>, names: seq<string>, more: seq<string>)
    requires BindsOf(params, names).Err?
    ensures BindsOf(params, names + more) == BindsOf(params, names)
    decreases |more|
  {
    if more == [] {
      assert names + more == names;
    } else {
      var init := names + more[..|more| - 1];
      assert (names + more)[..|names + more| - 1] == init;
      BindsFailureSticks(params, names, more[..|more| - 1]);
      assert BindsOf(params, init).Err?;
    }
  }

  /** compile: the JDBC text and its binds, as a query statement. */
  method Compile(sql: Option<string>, params: Option<seq<Entry>>) returns (r: Result<SqlRender.SqlStatement>)
    ensures sql.None? ==> r == Ok(SqlRender.SqlStatement("", [], SqlRender.QUERY))
    ensures sql.Some? ==>
      match BindsOf(params.UnwrapOr([]), Names(Tokens(sql.value)))
      case Err(e) => r == Err(e)
      case Ok(bs) => r == Ok(SqlRender.SqlStatement(Render(Tokens(sql.value)), bs, SqlRender.QUERY))
  {
    var text := ToJdbcSql(sql);
    var binds := BindsFor(sql, params);
    if binds.Err? {
      return Err(binds.error);
    }
    r := Ok(SqlRender.SqlStatement(text, binds.value, SqlRender.QUERY));
  }

  /** One step spells back the characters it consumed. */
  lemma StepSpellsBack(s: string, i: nat, inQuote: bool)
    requires i < |s|
    ensures SourceText(Step(s, i, inQuote).0) == s[i..Step(s, i, inQuote).1]
  {
    if !(s[i] == '\'') && !inQuote && s[i] == ':' && !(i + 1 < |s| && s[i + 1] == ':')
       && i + 1 < |s| && IsIdentStart(s[i + 1]) {
      var end := IdentEnd(s, i + 2);
      assert s[i..end] == ":" + s[i + 1..end];
    }
  }

  /** The scanner loses nothing: its tokens spell the statement back. */
  lemma {:induction false} LexSpellsBack(s: string, i: nat, inQuote: bool)
    requires i <= |s|
    ensures Source(Lex(s, i, inQuote)) == s[i..]
    decreases |s| - i
  {
    if i < |s| {
      var st := Step(s, i, inQuote);
      LexSpellsBack(s, st.1, st.2);
      StepSpellsBack(s, i, inQuote);
      SourceStep(s, i, inQuote);
      SliceSplit(s, i, st.1);
    }
  }

  lemma SourceStep(s: string, i: nat, inQuote: bool)
    requires i < |s|
    ensures Source(Lex(s, i, inQuote))
      == SourceText(Step(s, i, inQuote).0) + Source(Lex(s, Step(s, i, inQuote).1, Step(s, i, inQuote).2))
  {
    var (t, j, q) := Step(s, i, inQuote);
    LexUnfold(s, i, inQuote);
    assert ([t] + Lex(s, j, q))[1..] == Lex(s, j, q);
  }

  lemma SliceSplit(s: string, i: nat, j: nat)
    requires i <= j <= |s|
    ensures s[i..] == s[i..j] + s[j..]
  {
  }

  /** A letter or "_", then letters, digits or "_". */
  predicate IsIdentifier(n: string)
  {
    |n| >= 1 && IsIdentStart(n[0]) && forall j :: 0 <= j < |n| ==> IsIdentPart(n[j])
  }

  /** The placeholder one step of the scanner reads is named by an identifier. */
  lemma StepPlaceholderIdent(s: string, i: nat, inQuote: bool)
    requires i < |s|
    ensures Step(s, i, inQuote).0.Placeholder? ==> IsIdentifier(Step(s, i, inQuote).0.name)
  {
    if !inQuote && s[i] == ':' && i + 1 < |s| && s[i + 1] != ':' && s[i] != '\'' && IsIdentStart(s[i + 1]) {
      var end := IdentEnd(s, i + 2);
      var n := s[i + 1..end];
      assert n[0] == s[i + 1];
      assert forall j :: 1 <= j < |n| ==> n[j] == s[i + 1 + j];
    }
  }

  /** Each parameter name is a maximal identifier: a letter or "_", then letters, digits or "_". */
  lemma {:induction false} NamesAreIdentifiers(s: string, i: nat, inQuote: bool)
    requires i <= |s|
    ensures forall k :: 0 <= k < |Names(Lex(s, i, inQuote))| ==> IsIdentifier(Names(Lex(s, i, inQuote))[k])
    decreases |s| - i
  {
    if i < |s| {
      var st := Step(s, i, inQuote);
      NamesAreIdentifiers(s, st.1, st.2);
      NamesStep(s, i, inQuote);
      StepPlaceholderIdent(s, i, inQuote);
    }
  }

  /** How many times c occurs in s. */
  function Count(s: string, c: char): nat
  {
    if s == [] then 0 else (if s[0] == c then 1 else 0) + Count(s[1..], c)
  }

  lemma {:induction false} CountAppend(a: string, b: string, c: char)
    ensures Count(a + b, c) == Count(a, c) + Count(b, c)
  {
    if a == [] {
      assert a + b == b;
    } else {
      assert (a + b)[0] == a[0];
      assert (a + b)[1..] == a[1..] + b;
      CountAppend(a[1..], b, c);
    }
  }

  /** A parameter name holds no "?". */
  lemma {:induction false} NoMarkInIdent(n: string)
    requires forall j :: 0 <= j < |n| ==> IsIdentPart(n[j])
    ensures Count(n, '?') == 0
  {
    if n != [] {
      NoMarkInIdent(n[1..]);
    }
  }

  /**
   * Rendering adds exactly one "?" per placeholder to those already in the
   * text, as long as every name is an identifier.
   */
  lemma {:induction false} MarksPerToken(ts: seq<Token>)
    requires forall k :: 0 <= k < |ts| && ts[k].Placeholder? ==>
      forall j :: 0 <= j < |ts[k].name| ==> IsIdentPart(ts[k].name[j])
    ensures Count(Render(ts), '?') == Count(Source(ts), '?') + |Names(ts)|
  {
    if ts != [] {
      MarksPerToken(ts[1..]);
      match ts[0]
      case Text(c) =>
        CountAppend([c], Render(ts[1..]), '?');
        CountAppend([c], Source(ts[1..]), '?');
      case QuoteEscape =>
        CountAppend("''", Render(ts[1..]), '?');
        CountAppend("''", Source(ts[1..]), '?');
      case Cast =>
        CountAppend("::", Render(ts[1..]), '?');
        CountAppend("::", Source(ts[1..]), '?');
      case Placeholder(n) =>
        CountAppend("?", Render(ts[1..]), '?');
        CountAppend(":" + n, Source(ts[1..]), '?');
        CountAppend(":", n, '?');
        NoMarkInIdent(n);
    }
  }

  /** The placeholder tokens of a scan carry identifier names. */
  lemma {:induction false} PlaceholdersAreIdents(s: string, i: nat, inQuote: bool)
    requires i <= |s|
    ensures forall k :: 0 <= k < |Lex(s, i, inQuote)| && Lex(s, i, inQuote)[k].Placeholder? ==>
      forall j :: 0 <= j < |Lex(s, i, inQuote)[k].name| ==> IsIdentPart(Lex(s, i, inQuote)[k].name[j])
    decreases |s| - i
  {
    if i < |s| {
      var st := Step(s, i, inQuote);
      PlaceholdersAreIdents(s, st.1, st.2);
      LexUnfold(s, i, inQuote);
      StepPlaceholderIdent(s, i, inQuote);
      var ts, rest := Lex(s, i, inQuote), Lex(s, st.1, st.2);
      assert forall k :: 1 <= k < |ts| ==> ts[k] == rest[k - 1];
    }
  }

  /**
   * The JDBC text has one "?" per bind beyond those already in the view SQL:
   * with no "?" of its own, the count of "?" is the count of binds.
   */
  lemma OneMarkPerBind(s: string, params: seq<Entry>)
    requires BindsOf(params, Names(Tokens(s))).Ok?
    ensures Count(Render(Tokens(s)), '?') == Count(s, '?') + |BindsOf(params, Names(Tokens(s))).value|
  {
    PlaceholdersAreIdents(s, 0, false);
    MarksPerToken(Tokens(s));
    LexSpellsBack(s, 0, false);
    assert s[0..] == s;
  }

  /** Without placeholders the two spellings agree. */
  lemma {:induction false} NoNamesSameText(ts: seq<Token>)
    requires Names(ts) == []
    ensures Render(ts) == Source(ts)
  {
    if ts != [] {
      NoNamesSameText(ts[1..]);
    }
  }

  /** A statement without named params is passed through unchanged, quotes, escapes and casts included. */
  lemma NoParamsUnchanged(s: string)
    requires Names(Tokens(s)) == []
    ensures Render(Tokens(s)) == s
  {
    NoNamesSameText(Tokens(s));
    LexSpellsBack(s, 0, false);
    assert s[0..] == s;
  }

  /** Only a ":" starts a placeholder. */
  lemma {:induction false} NoColonNoNames(s: string, i: nat, inQuote: bool)
    requires i <= |s|
    requires forall k :: i <= k < |s| ==> s[k] != ':'
    ensures Names(Lex(s, i, inQuote)) == []
    decreases |s| - i
  {
    if i < |s| {
      NamesStep(s, i, inQuote);
      NoColonNoNames(s, Step(s, i, inQuote).1, Step(s, i, inQuote).2);
    }
  }

  /** A statement without ":" gets no binds and reaches JDBC unchanged. */
  lemma NoColonUnchanged(s: string, params: seq<Entry>)
    requires ':' !in s
    ensures BindsOf(params, Names(Tokens(s))) == Ok([])
    ensures Render(Tokens(s)) == s
  {
    NoColonNoNames(s, 0, false);
    NoParamsUnchanged(s);
  }

  lemma {:induction false} IdentEndShift(a: string, b: string, j: nat)
    requires j <= |b|
    ensures IdentEnd(a + b, |a| + j) == |a| + IdentEnd(b, j)
    decreases |b| - j
  {
    if j < |b| {
      assert (a + b)[|a| + j] == b[j];
      IdentEndShift(a, b, j + 1);
    }
  }

  /** The scanner only looks ahead: what precedes position |a| does not matter beyond the quote state. */
  lemma {:induction false} LexShift(a: string, b: string, j: nat, inQuote: bool)
    requires j <= |b|
    ensures Lex(a + b, |a| + j, inQuote) == Lex(b, j, inQuote)
    decreases |b| - j
  {
    if j < |b| {
      var st := Step(b, j, inQuote);
      LexShift(a, b, st.1, st.2);
      StepShift(a, b, j, inQuote);
      LexUnfold(a + b, |a| + j, inQuote);
      LexUnfold(b, j, inQuote);
    }
  }

  /** One step of the scanner reads the same token wherever the text it looks at sits. */
  lemma StepShift(a: string, b: string, j: nat, inQuote: bool)
    requires j < |b|
    ensures Step(a + b, |a| + j, inQuote) == (Step(b, j, inQuote).0, |a| + Step(b, j, inQuote).1, Step(b, j, inQuote).2)
  {
    var s := a + b;
    assert s[|a| + j] == b[j];
    assert |a| + j + 1 < |s| ==> s[|a| + j + 1] == b[j + 1];
    if j + 2 <= |b| {
      IdentEndShift(a, b, j + 2);
    }
    if !inQuote && b[j] == ':' && j + 1 < |b| && b[j + 1] != ':' && IsIdentStart(b[j + 1]) {
      var end := IdentEnd(b, j + 2);
      assert s[|a| + j + 1..|a| + end] == b[j + 1..end];
    }
  }

  lemma LexUnfold(s: string, i: nat, inQuote: bool)
    requires i < |s|
    ensures Lex(s, i, inQuote) == [Step(s, i, inQuote).0] + Lex(s, Step(s, i, inQuote).1, Step(s, i, inQuote).2)
  {
  }

  /** Within quotes, text without a quote holds no parameter. */
  lemma {:induction false} QuotedTailHasNoNames(s: string, i: nat)
    requires i <= |s|
    requires forall k :: i <= k < |s| ==> s[k] != '\''
    ensures Names(Lex(s, i, true)) == []
    decreases |s| - i
  {
    if i < |s| {
      NamesStep(s, i, true);
      QuotedTailHasNoNames(s, i + 1);
    }
  }

  /** Inside a quoted literal without a quote, nothing is a parameter. */
  lemma {:induction false} QuotedHasNoNames(s: string, i: nat, t: string)
    requires i + |t| + 1 <= |s| && s[i..i + |t|] == t && '\'' !in t && s[i + |t|] == '\''
    requires i + |t| + 1 == |s| || s[i + |t| + 1] != '\''
    ensures Lex(s, i, true) == TextOf(t) + [Text('\'')] + Lex(s, i + |t| + 1, false)
    decreases |t|
  {
    if t == [] {
      assert Step(s, i, true) == (Text('\''), i + 1, false);
    } else {
      assert Step(s, i, true) == (Text(t[0]), i + 1, true);
      assert s[i] == t[0];
      assert s[i + 1..i + 1 + |t[1..]|] == t[1..];
      QuotedHasNoNames(s, i + 1, t[1..]);
    }
  }

  function TextOf(t: string): (r: seq<Token>)
    ensures |r| == |t| && forall k :: 0 <= k < |t| ==> r[k] == Text(t[k])
  {
    if t == [] then [] else [Text(t[0])] + TextOf(t[1..])
  }

  lemma {:induction false} TextOfHasNoNames(t: string)
    ensures Names(TextOf(t)) == []
  {
    if t != [] {
      assert TextOf(t)[1..] == TextOf(t[1..]);
      TextOfHasNoNames(t[1..]);
    }
  }

  lemma {:induction false} TextOfRenders(t: string)
    ensures Render(TextOf(t)) == t
  {
    if t != [] {
      assert TextOf(t)[1..] == TextOf(t[1..]);
      TextOfRenders(t[1..]);
    }
  }

  /** Text without a colon or a quote is copied through, and the scan goes on after it as if from the start. */
  lemma {:induction false} PlainPrefix(a: string, b: string, i: nat)
    requires i <= |a|
    requires forall k :: i <= k < |a| ==> a[k] != ':' && a[k] != '\''
    ensures Lex(a + b, i, false) == TextOf(a[i..]) + Lex(b, 0, false)
    decreases |a| - i
  {
    if i == |a| {
      LexShift(a, b, 0, false);
      assert a[i..] == [];
    } else {
      var s := a + b;
      assert s[i] == a[i];
      assert Step(s, i, false) == (Text(a[i]), i + 1, false);
      LexUnfold(s, i, false);
      PlainPrefix(a, b, i + 1);
      assert a[i..][1..] == a[i + 1..];
    }
  }

  /** A plain prefix names no parameter... */
  lemma PlainPrefixNames(a: string, b: string)
    requires ':' !in a && '\'' !in a
    ensures Names(Tokens(a + b)) == Names(Tokens(b))
  {
    PlainPrefix(a, b, 0);
    assert a[0..] == a;
    NamesAppend(TextOf(a), Tokens(b));
    TextOfHasNoNames(a);
  }

  /** ...and reaches JDBC as written. */
  lemma PlainPrefixRender(a: string, b: string)
    requires ':' !in a && '\'' !in a
    ensures Render(Tokens(a + b)) == a + Render(Tokens(b))
  {
    PlainPrefix(a, b, 0);
    assert a[0..] == a;
    RenderAppend(TextOf(a), Tokens(b));
    TextOfRenders(a);
  }

  /** A quoted literal holding ":name" binds nothing and is copied as it is. */
  lemma QuotedLiteralUnchanged(t: string)
    requires '\'' !in t
    ensures Names(Tokens("'" + t + "'")) == []
    ensures Render(Tokens("'" + t + "'")) == "'" + t + "'"
  {
    var s := "'" + t + "'";
    assert s[1..1 + |t|] == t;
    QuotedHasNoNames(s, 1, t);
    assert Lex(s, |s|, false) == [];
    assert Step(s, 0, false) == (Text('\''), 1, true);
    assert Tokens(s) == [Text('\'')] + (TextOf(t) + [Text('\'')]);
    TextOfHasNoNames(t);
    NamesAppend(TextOf(t), [Text('\'')]);
    NamesAppend([Text('\'')], TextOf(t) + [Text('\'')]);
    NoParamsUnchanged(s);
  }

  /** A missing name fails the binds exactly when one of the names is absent. */
  lemma {:induction false} MissingParamFails(params: seq<Entry>, names: seq<string>)
    ensures BindsOf(params, names).Err? <==> exists k :: 0 <= k < |names| && !HasKey(params, names[k])
  {
    if names != [] {
      var init := names[..|names| - 1];
      MissingParamFails(params, init);
      assert forall k :: 0 <= k < |init| ==> init[k] == names[k];
    }
  }

  /** Binds come in the order of their names, one each. */
  lemma {:induction false} BindsInOrder(params: seq<Entry>, names: seq<string>)
    requires BindsOf(params, names).Ok?
    ensures forall k :: 0 <= k < |names| ==> BindFor(params, names[k]) == Ok(BindsOf(params, names).value[k])
  {
    if names != [] {
      var init := names[..|names| - 1];
      BindsInOrder(params, init);
      assert forall k :: 0 <= k < |init| ==> init[k] == names[k];
    }
  }
}
