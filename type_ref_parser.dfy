/**
 * The type notation of the YAML authoring format: "ref(X)", "value(X)",
 * "list<T>", "set<T>", "array<T>", "map<K,V>" and scalar ids.
 */
module TypeRefParser {
  import opened Wrappers
  import opened Strings
  import opened Authoring

  predicate Opens(c: char) { c == '<' || c == '(' }
  predicate Closes(c: char) { c == '>' || c == ')' }

  /**
   * The position, relative to s, of the first comma reached at bracket
   * depth 0 when s is scanned from depth d; -1 when there is none.
   */
  function TopCommaAt(s: string, d: int): (r: int)
    ensures -1 <= r < |s|
    ensures r >= 0 ==> s[r] == ','
  {
    if s == [] then -1
    else
      var rest :=
        if Opens(s[0]) then TopCommaAt(s[1..], d + 1)
        else if Closes(s[0]) then TopCommaAt(s[1..], d - 1)
        else TopCommaAt(s[1..], d);
      if !Opens(s[0]) && !Closes(s[0]) && s[0] == ',' && d == 0 then 0
      else if rest < 0 then -1
      else rest + 1
  }

  /** findTopComma: the loop over the characters with a depth counter. */
  method FindTopComma(s: string) returns (r: int)
    ensures r == TopCommaAt(s, 0)
    ensures r >= 0 ==> s[r] == ','
  {
    var depth := 0;
    var i := 0;
    while i < |s|
      invariant 0 <= i <= |s|
      invariant TopCommaAt(s, 0) == (if TopCommaAt(s[i..], depth) < 0 then -1 else TopCommaAt(s[i..], depth) + i)
    {
      var c := s[i];
      assert s[i..][1..] == s[i + 1..];
      if c == '<' || c == '(' {
        depth := depth + 1;
      } else if c == '>' || c == ')' {
        depth := depth - 1;
      } else if c == ',' && depth == 0 {
        return i;
      }
      i := i + 1;
    }
    return -1;
  }

  /**
   * The text between a prefix and a closing character, when the text both
   * starts with the prefix and ends with the character.
   */
  function Inner(t: string, open: string, close: char): (r: Option<string>)
    requires open != [] && open[|open| - 1] != close
    ensures r.Some? <==> StartsWith(t, open) && EndsWith(t, [close])
    ensures r.Some? ==> t == open + r.value + [close]
  {
    if StartsWith(t, open) && EndsWith(t, [close]) then
      assert t[|open| - 1] == open[|open| - 1] && t[|t| - 1] == close;
      assert t == t[..|open|] + t[|open|..|t| - 1] + [t[|t| - 1]];
      Some(t[|open|..|t| - 1])
    else None
  }

  /** Which of the forms of the notation a trimmed text has, first match wins. */
  datatype Form =
    | RefForm(inner: string)     // "ref(X)" or "value(X)"
    | ListForm(inner: string)
    | SetForm(inner: string)
    | ArrayForm(inner: string)
    | MapForm(inner: string)
    | ScalarForm

  function FormOf(t: string): (r: Form)
    ensures !r.ScalarForm? ==> |r.inner| < |t|
  {
    var asRef, asValue := Inner(t, "ref(", ')'), Inner(t, "value(", ')');
    var asList, asSet := Inner(t, "list<", '>'), Inner(t, "set<", '>');
    var asArray, asMap := Inner(t, "array<", '>'), Inner(t, "map<", '>');
    if asRef.Some? then RefForm(asRef.value)
    else if asValue.Some? then RefForm(asValue.value)
    else if asList.Some? then ListForm(asList.value)
    else if asSet.Some? then SetForm(asSet.value)
    else if asArray.Some? then ArrayForm(asArray.value)
    else if asMap.Some? then MapForm(asMap.value)
    else ScalarForm
  }

  /** parse: a type expression to its TypeRef, or the error the YAML loader reports. */
  function Parse(s: string): Result<TypeRef>
    decreases |s|, 1
  {
    if IsBlank(s) then Err(IllegalArgument("type is blank"))
    else
      var t := Trim(s);
      ParseForm(t, FormOf(t))
  }

  /** What parse does with the trimmed text t once its form is known. */
  function ParseForm(t: string, form: Form): Result<TypeRef>
    requires !form.ScalarForm? ==> |form.inner| < |t|
    decreases |t|, 0
  {
    match form
    case RefForm(x) => Ok(Ref(Trim(x)))
    case ListForm(x) =>
      var e :- Parse(x);
      Ok(ListOf(e))
    case SetForm(x) =>
      var e :- Parse(x);
      Ok(SetOf(e))
    case ArrayForm(x) =>
      var e :- Parse(x);
      Ok(ArrayOf(e))
    case MapForm(inside) =>
      var comma := TopCommaAt(inside, 0);
      if comma < 0 then Err(IllegalArgument("map<K,V> requires comma: " + t))
      else
        var k :- Parse(inside[..comma]);
        var v :- Parse(inside[comma + 1..]);
        Ok(MapOf(k, v))
    case ScalarForm =>
      Ok(Scalar(if '.' in t then t else ToLower(t)))
  }

  lemma ParseScalarForm(t: string)
    ensures ParseForm(t, ScalarForm) == Ok(Scalar(if '.' in t then t else ToLower(t)))
  {
  }

  /** A text that trim leaves alone and that is not blank is parsed by its form. */
  lemma ParseReady(s: string)
    requires !IsBlank(s) && Trim(s) == s
    ensures Parse(s) == ParseForm(s, FormOf(s))
  {
  }

  lemma InnerOf(open: string, x: string, close: char)
    requires open != [] && open[|open| - 1] != close
    ensures Inner(open + x + [close], open, close) == Some(x)
  {
    var t := open + x + [close];
    assert t[..|open|] == open;
    assert t[|t| - 1..] == [close];
    assert t[|open|..|t| - 1] == x;
  }

  lemma InnerMismatch(t: string, open: string, close: char)
    requires open != [] && open[|open| - 1] != close
    requires t == [] || t[0] != open[0]
    ensures Inner(t, open, close) == None
  {
  }

  lemma InnerNeedsClose(t: string, open: string, close: char)
    requires open != [] && open[|open| - 1] != close
    requires t == [] || t[|t| - 1] != close
    ensures Inner(t, open, close) == None
  {
  }

  /** No prefix of the type syntax can start a text without '<' and '('. */
  lemma InnerNeedsOpen(t: string, open: string, close: char)
    requires open != [] && open[|open| - 1] != close && Opens(open[|open| - 1])
    requires forall i :: 0 <= i < |t| ==> !Opens(t[i])
    ensures Inner(t, open, close) == None
  {
    if |t| >= |open| {
      assert !Opens(t[|open| - 1]);
    }
  }

  lemma BlankIsRejected(s: string)
    requires IsBlank(s)
    ensures Parse(s) == Err(IllegalArgument("type is blank"))
  {
  }

  lemma TrimNoop(s: string)
    requires s == [] || (!IsTrimmable(s[0]) && !IsTrimmable(s[|s| - 1]))
    ensures Trim(s) == s
  {
  }

  /** A text whose end characters are printable is neither blank nor changed by trim. */
  lemma Ready(s: string)
    requires s != [] && !IsTrimmable(s[0]) && !IsTrimmable(s[|s| - 1])
    ensures !IsBlank(s) && Trim(s) == s
  {
    assert !IsWhitespace(s[0]);
  }

  /** Surrounding padding is ignored as long as something printable is left. */
  lemma ParseIgnoresPadding(s: string)
    requires !IsBlank(Trim(s))
    ensures Parse(s) == Parse(Trim(s))
  {
    var t := Trim(s);
    TrimmedNotBlank(s);
    ParseTrimmed(s);
    TrimNoop(t);
    ParseReady(t);
  }

  /** A text whose trimmed form is not blank is not blank either. */
  lemma TrimmedNotBlank(s: string)
    requires !IsBlank(Trim(s))
    ensures !IsBlank(s)
  {
    var t := Trim(s);
    var u := TrimStart(s);
    assert t == u[..|t|] && u == s[|s| - |u|..];
    var i :| 0 <= i < |t| && !IsWhitespace(t[i]);
    assert s[|s| - |u| + i] == t[i];
  }

  lemma ParseTrimmed(s: string)
    requires !IsBlank(s)
    ensures Parse(s) == ParseForm(Trim(s), FormOf(Trim(s)))
  {
  }

  lemma FormRef(x: string)
    ensures FormOf("ref(" + x + ")") == RefForm(x)
  {
    InnerOf("ref(", x, ')');
  }

  lemma FormValue(x: string)
    ensures FormOf("value(" + x + ")") == RefForm(x)
  {
    var s := "value(" + x + ")";
    InnerMismatch(s, "ref(", ')');
    InnerOf("value(", x, ')');
  }

  lemma FormList(x: string)
    ensures FormOf("list<" + x + ">") == ListForm(x)
  {
    var s := "list<" + x + ">";
    InnerMismatch(s, "ref(", ')');
    InnerMismatch(s, "value(", ')');
    InnerOf("list<", x, '>');
  }

  lemma FormSet(x: string)
    ensures FormOf("set<" + x + ">") == SetForm(x)
  {
    var s := "set<" + x + ">";
    InnerMismatch(s, "ref(", ')');
    InnerMismatch(s, "value(", ')');
    InnerMismatch(s, "list<", '>');
    InnerOf("set<", x, '>');
  }

  lemma FormArray(x: string)
    ensures FormOf("array<" + x + ">") == ArrayForm(x)
  {
    var s := "array<" + x + ">";
    InnerMismatch(s, "ref(", ')');
    InnerMismatch(s, "value(", ')');
    InnerMismatch(s, "list<", '>');
    InnerMismatch(s, "set<", '>');
    InnerOf("array<", x, '>');
  }

  lemma FormMap(x: string)
    ensures FormOf("map<" + x + ">") == MapForm(x)
  {
    var s := "map<" + x + ">";
    InnerMismatch(s, "ref(", ')');
    InnerMismatch(s, "value(", ')');
    InnerMismatch(s, "list<", '>');
    InnerMismatch(s, "set<", '>');
    InnerMismatch(s, "array<", '>');
    InnerOf("map<", x, '>');
  }

  lemma FormOfUnclosed(s: string)
    requires s != [] && !Closes(s[|s| - 1])
    ensures FormOf(s) == ScalarForm
  {
    InnerNeedsClose(s, "ref(", ')');
    InnerNeedsClose(s, "value(", ')');
    InnerNeedsClose(s, "list<", '>');
    InnerNeedsClose(s, "set<", '>');
    InnerNeedsClose(s, "array<", '>');
    InnerNeedsClose(s, "map<", '>');
  }

  lemma FormScalar(s: string)
    requires forall i :: 0 <= i < |s| ==> !Opens(s[i])
    ensures FormOf(s) == ScalarForm
  {
    InnerNeedsOpen(s, "ref(", ')');
    InnerNeedsOpen(s, "value(", ')');
    InnerNeedsOpen(s, "list<", '>');
    InnerNeedsOpen(s, "set<", '>');
    InnerNeedsOpen(s, "array<", '>');
    InnerNeedsOpen(s, "map<", '>');
  }

  /** "ref(X)" and "value(X)" both name the referenced type X, trimmed. */
  lemma ParseRef(x: string)
    ensures Parse("ref(" + x + ")") == Ok(Ref(Trim(x)))
    ensures Parse("value(" + x + ")") == Ok(Ref(Trim(x)))
  {
    Ready("ref(" + x + ")");
    FormRef(x);
    Ready("value(" + x + ")");
    FormValue(x);
  }

  /** The three single-element containers wrap the parse of their element, errors included. */
  lemma ParseContainers(x: string)
    ensures Parse("list<" + x + ">") == (if Parse(x).Ok? then Ok(ListOf(Parse(x).value)) else Err(Parse(x).error))
    ensures Parse("set<" + x + ">") == (if Parse(x).Ok? then Ok(SetOf(Parse(x).value)) else Err(Parse(x).error))
    ensures Parse("array<" + x + ">") == (if Parse(x).Ok? then Ok(ArrayOf(Parse(x).value)) else Err(Parse(x).error))
  {
    Ready("list<" + x + ">");
    FormList(x);
    Ready("set<" + x + ">");
    FormSet(x);
    Ready("array<" + x + ">");
    FormArray(x);
  }

  /** A map type splits at its depth-0 comma; the key is parsed, and fails, first. */
  lemma ParseMap(x: string, y: string)
    requires TopCommaAt(x + "," + y, 0) == |x|
    ensures Parse(x).Err? ==> Parse("map<" + x + "," + y + ">") == Err(Parse(x).error)
    ensures Parse(x).Ok? && Parse(y).Err? ==> Parse("map<" + x + "," + y + ">") == Err(Parse(y).error)
    ensures Parse(x).Ok? && Parse(y).Ok? ==> Parse("map<" + x + "," + y + ">") == Ok(MapOf(Parse(x).value, Parse(y).value))
  {
    var inside := x + "," + y;
    var s := "map<" + inside + ">";
    assert s == "map<" + x + "," + y + ">";
    Ready(s);
    ParseReady(s);
    FormMap(inside);
    assert inside[..|x|] == x && inside[|x| + 1..] == y;
  }

  /** A map type with no comma at depth 0 is rejected. */
  lemma MapWithoutTopComma(inside: string)
    requires TopCommaAt(inside, 0) < 0
    ensures Parse("map<" + inside + ">") == Err(IllegalArgument("map<K,V> requires comma: " + ("map<" + inside + ">")))
  {
    Ready("map<" + inside + ">");
    FormMap(inside);
  }

  /** Scalar ids are lower-cased unless they hold a dot (a Java class name). */
  lemma ScalarIds(s: string)
    requires s != [] && !IsTrimmable(s[0]) && !IsTrimmable(s[|s| - 1])
    requires forall i :: 0 <= i < |s| ==> !Opens(s[i])
    ensures Parse(s) == Ok(Scalar(if '.' in s then s else ToLower(s)))
  {
    Ready(s);
    ParseReady(s);
    FormScalar(s);
    ParseScalarForm(s);
  }

  // ---------------------------------------------------------------------
  // The canonical ids produced by TypeIds read back as the same TypeRef.

  /** A character a canonical scalar id may contain. */
  predicate IdChar(c: char)
  {
    c > ' ' && !Opens(c) && !Closes(c) && c != ','
  }

  /** The TypeRefs whose canonical id is a parseable type expression: no Ref (its id is just "ref") and scalar ids in parsed form. */
  predicate Canonical(t: TypeRef)
  {
    match t
    case Scalar(id) =>
      id != [] && (forall i :: 0 <= i < |id| ==> IdChar(id[i])) && ('.' in id || ToLower(id) == id)
    case Ref(_) => false
    case ListOf(e) => Canonical(e)
    case SetOf(e) => Canonical(e)
    case ArrayOf(e) => Canonical(e)
    case MapOf(k, v) => Canonical(k) && Canonical(v)
  }

  function ShiftBy(r: int, n: nat): int
  {
    if r < 0 then -1 else r + n
  }

  lemma ScanPlain(p: string, rest: string, d: int)
    requires forall i :: 0 <= i < |p| ==> IdChar(p[i])
    ensures TopCommaAt(p + rest, d) == ShiftBy(TopCommaAt(rest, d), |p|)
    decreases |p|
  {
    if p != [] {
      assert (p + rest)[1..] == p[1..] + rest;
      ScanPlain(p[1..], rest, d);
    } else {
      assert p + rest == rest;
    }
  }

  lemma ScanOpen(c: char, rest: string, d: int)
    requires Opens(c)
    ensures TopCommaAt([c] + rest, d) == ShiftBy(TopCommaAt(rest, d + 1), 1)
  {
    assert ([c] + rest)[1..] == rest;
  }

  lemma ScanClose(c: char, rest: string, d: int)
    requires Closes(c)
    ensures TopCommaAt([c] + rest, d) == ShiftBy(TopCommaAt(rest, d - 1), 1)
  {
    assert ([c] + rest)[1..] == rest;
  }

  lemma ScanComma(rest: string, d: int)
    ensures TopCommaAt([','] + rest, d) == if d == 0 then 0 else ShiftBy(TopCommaAt(rest, d), 1)
  {
    assert ([','] + rest)[1..] == rest;
  }

  /** An opening word such as "list<": id characters followed by '<'. */
  predicate OpenWord(w: string)
  {
    |w| >= 1 && w[|w| - 1] == '<' && forall i :: 0 <= i < |w| - 1 ==> IdChar(w[i])
  }

  /** w + inner + ">" scanned from depth d is as transparent as inner scanned from d + 1. */
  lemma ScanBracketed(w: string, inner: string, rest: string, d: int)
    requires OpenWord(w)
    requires TopCommaAt(inner + (">" + rest), d + 1) == ShiftBy(TopCommaAt(">" + rest, d + 1), |inner|)
    ensures TopCommaAt(w + inner + ">" + rest, d) == ShiftBy(TopCommaAt(rest, d), |w + inner + ">"|)
  {
    var p := w[..|w| - 1];
    assert w + inner + ">" + rest == p + (['<'] + (inner + ([ '>'] + rest)));
    ScanPlain(p, ['<'] + (inner + ([ '>'] + rest)), d);
    ScanOpen('<', inner + ([ '>'] + rest), d);
    assert ">" + rest == ['>'] + rest;
    ScanClose('>', rest, d + 1);
  }

  lemma OpenWords()
    ensures OpenWord("list<") && OpenWord("set<") && OpenWord("array<") && OpenWord("map<")
  {
  }

  /** Scanning across a canonical id from a non-negative depth finds no comma and ends at the same depth. */
  lemma {:induction false} IdIsTransparent(t: TypeRef, rest: string, d: int)
    requires Canonical(t) && d >= 0
    ensures TopCommaAt(TypeId(t) + rest, d) == ShiftBy(TopCommaAt(rest, d), |TypeId(t)|)
    decreases t, 1
  {
    OpenWords();
    match t
    case Scalar(id) =>
      ScanPlain(id, rest, d);
    case ListOf(e) =>
      WrappedTransparent("list<", e, rest, d);
    case SetOf(e) =>
      WrappedTransparent("set<", e, rest, d);
    case ArrayOf(e) =>
      WrappedTransparent("array<", e, rest, d);
    case MapOf(k, v) =>
      var inner := TypeId(k) + "," + TypeId(v);
      MapInnerTransparent(k, v, ">" + rest, d + 1);
      assert inner + (">" + rest) == TypeId(k) + "," + TypeId(v) + (">" + rest);
      ScanBracketed("map<", inner, rest, d);
      assert TypeId(t) == "map<" + inner + ">";
  }

  lemma {:induction false} WrappedTransparent(w: string, e: TypeRef, rest: string, d: int)
    requires OpenWord(w) && Canonical(e) && d >= 0
    ensures TopCommaAt(w + TypeId(e) + ">" + rest, d) == ShiftBy(TopCommaAt(rest, d), |w + TypeId(e) + ">"|)
    decreases e, 2
  {
    IdIsTransparent(e, ">" + rest, d + 1);
    ScanBracketed(w, TypeId(e), rest, d);
  }

  lemma {:induction false} MapInnerTransparent(k: TypeRef, v: TypeRef, rest: string, d: int)
    requires Canonical(k) && Canonical(v) && d >= 1
    ensures TopCommaAt(TypeId(k) + "," + TypeId(v) + rest, d)
      == ShiftBy(TopCommaAt(rest, d), |TypeId(k) + "," + TypeId(v)|)
    decreases MapOf(k, v), 0
  {
    var K, V := TypeId(k), TypeId(v);
    assert K + "," + V + rest == K + ([','] + (V + rest));
    IdIsTransparent(k, [','] + (V + rest), d);
    ScanComma(V + rest, d);
    IdIsTransparent(v, rest, d);
  }

  /** Inside "map<K,V>" the top-level comma is the one TypeIds put between K and V. */
  lemma MapCommaIsTop(k: TypeRef, v: TypeRef)
    requires Canonical(k) && Canonical(v)
    ensures TopCommaAt(TypeId(k) + "," + TypeId(v), 0) == |TypeId(k)|
  {
    var K, V := TypeId(k), TypeId(v);
    assert K + "," + V == K + ([','] + V);
    IdIsTransparent(k, [','] + V, 0);
    ScanComma(V, 0);
  }

  /** The canonical id of every parseable type reads back as that type. */
  lemma {:induction false} ParseTypeId(t: TypeRef)
    requires Canonical(t)
    ensures Parse(TypeId(t)) == Ok(t)
    decreases t
  {
    match t
    case Scalar(id) =>
      ScalarIds(id);
    case ListOf(e) =>
      ParseTypeId(e);
      ParseContainers(TypeId(e));
    case SetOf(e) =>
      ParseTypeId(e);
      ParseContainers(TypeId(e));
    case ArrayOf(e) =>
      ParseTypeId(e);
      ParseContainers(TypeId(e));
    case MapOf(k, v) =>
      ParseTypeId(k);
      ParseTypeId(v);
      MapCommaIsTop(k, v);
      ParseMap(TypeId(k), TypeId(v));
  }
}
