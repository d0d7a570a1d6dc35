/**
 * The java.lang.String operations the core relies on, with Java's own
 * semantics written out: trim, isBlank, toLowerCase, indexOf and the three
 * forms of split on a literal "." (limit 0, limit -1 and limit 2).
 */
module Strings {

  /** Character.isWhitespace restricted to the ASCII range. */
  predicate IsWhitespace(c: char)
  {
    c == ' ' || c == '\t' || c == '\n' || c == '\U{B}' || c == '\U{C}' || c == '\r'
    || ('\U{1C}' <= c <= '\U{1F}')
  }

  /** String.isBlank: empty or only whitespace. */
  predicate IsBlank(s: string)
  {
    forall i :: 0 <= i < |s| ==> IsWhitespace(s[i])
  }

  /** String.trim strips every character up to and including U+0020 at both ends. */
  predicate IsTrimmable(c: char) { c <= ' ' }

  function TrimStart(s: string): (r: string)
    ensures |r| <= |s| && r == s[|s| - |r|..]
    ensures r == [] || !IsTrimmable(r[0])
    ensures forall i :: 0 <= i < |s| - |r| ==> IsTrimmable(s[i])
  {
    if s == [] || !IsTrimmable(s[0]) then s else TrimStart(s[1..])
  }

  function TrimEnd(s: string): (r: string)
    ensures |r| <= |s| && r == s[..|r|]
    ensures r == [] || !IsTrimmable(r[|r| - 1])
    ensures forall i :: |r| <= i < |s| ==> IsTrimmable(s[i])
  {
    if s == [] || !IsTrimmable(s[|s| - 1]) then s else TrimEnd(s[..|s| - 1])
  }

  function Trim(s: string): (r: string)
    ensures |r| <= |s|
    ensures r == [] || (!IsTrimmable(r[0]) && !IsTrimmable(r[|r| - 1]))
  {
    TrimEnd(TrimStart(s))
  }

  /** A string with nothing to trim at either end is its own trim. */
  lemma TrimStable(s: string)
    requires s == [] || (!IsTrimmable(s[0]) && !IsTrimmable(s[|s| - 1]))
    ensures Trim(s) == s
  {
    assert TrimStart(s) == s;
  }

  predicate IsUpper(c: char) { 'A' <= c <= 'Z' }

  /** Character.toLowerCase restricted to ASCII letters. */
  function LowerChar(c: char): (r: char)
    ensures !IsUpper(r)
    ensures !IsUpper(c) ==> r == c
  {
    if IsUpper(c) then (c as int + 32) as char else c
  }

  function ToLower(s: string): (r: string)
    ensures |r| == |s|
    ensures forall i :: 0 <= i < |s| ==> r[i] == LowerChar(s[i])
  {
    if s == [] then [] else [LowerChar(s[0])] + ToLower(s[1..])
  }

  /** String.indexOf(char): the first position of c, or -1. */
  function IndexOf(s: string, c: char): (r: int)
    ensures -1 <= r < |s|
    ensures r == -1 <==> c !in s
    ensures r >= 0 ==> s[r] == c && c !in s[..r]
  {
    if s == [] then -1
    else if s[0] == c then 0
    else
      var k := IndexOf(s[1..], c);
      assert s[1..] == s[..|s|][1..];
      if k == -1 then -1 else (assert s[..k + 1] == [s[0]] + s[1..][..k]; k + 1)
  }

  /** The pieces between the separators; the form of split with limit -1. */
  function SplitAll(s: string, sep: char): (r: seq<string>)
    ensures |r| >= 1
    ensures forall i :: 0 <= i < |r| ==> sep !in r[i]
    ensures sep !in s ==> r == [s]
    decreases |s|
  {
    var k := IndexOf(s, sep);
    if k < 0 then [s] else [s[..k]] + SplitAll(s[k + 1..], sep)
  }

  /** Splits at the first separator only; the form of split with limit 2. */
  function SplitFirst(s: string, sep: char): (r: seq<string>)
    ensures sep !in s ==> r == [s]
    ensures sep in s ==> |r| == 2 && sep !in r[0] && s == r[0] + [sep] + r[1]
  {
    var k := IndexOf(s, sep);
    if k < 0 then [s] else (assert s == s[..k] + [sep] + s[k + 1..]; [s[..k], s[k + 1..]])
  }

  function DropTrailingEmpty(parts: seq<string>): (r: seq<string>)
    ensures |r| <= |parts| && r == parts[..|r|]
    ensures r == [] || r[|r| - 1] != []
    ensures forall i :: |r| <= i < |parts| ==> parts[i] == []
  {
    if parts == [] || parts[|parts| - 1] != [] then parts
    else DropTrailingEmpty(parts[..|parts| - 1])
  }

  /**
   * String.split with limit 0: when the separator occurs, trailing empty
   * pieces are removed (so "." splits into no pieces at all); when it does
   * not, the input comes back as the only piece.
   */
  function Split(s: string, sep: char): (r: seq<string>)
    ensures forall i :: 0 <= i < |r| ==> sep !in r[i]
    ensures sep !in s ==> r == [s]
  {
    if sep !in s then [s] else DropTrailingEmpty(SplitAll(s, sep))
  }

  /** String.join. */
  function Join(parts: seq<string>, sep: string): string
  {
    if |parts| == 0 then []
    else if |parts| == 1 then parts[0]
    else parts[0] + sep + Join(parts[1..], sep)
  }

  lemma {:induction false} SplitAllJoin(s: string, sep: char)
    ensures Join(SplitAll(s, sep), [sep]) == s
    decreases |s|
  {
    var k := IndexOf(s, sep);
    if k >= 0 {
      var head, tail := s[..k], s[k + 1..];
      var rest := SplitAll(tail, sep);
      SplitAllCons(s, sep);
      SplitAllJoin(tail, sep);
      JoinCons(head, rest, [sep]);
      Around(s, k);
    }
  }

  lemma SplitAllCons(s: string, sep: char)
    requires sep in s
    ensures var k := IndexOf(s, sep); SplitAll(s, sep) == [s[..k]] + SplitAll(s[k + 1..], sep)
  {
  }

  lemma Around(s: string, k: nat)
    requires k < |s|
    ensures s == s[..k] + [s[k]] + s[k + 1..]
  {
  }

  lemma JoinCons(a: string, rest: seq<string>, sep: string)
    requires |rest| >= 1
    ensures Join([a] + rest, sep) == a + sep + Join(rest, sep)
  {
    assert ([a] + rest)[1..] == rest;
  }

  lemma IndexOfAfter(a: string, sep: char, b: string)
    requires sep !in a
    ensures IndexOf(a + [sep] + b, sep) == |a|
  {
    var s := a + [sep] + b;
    assert s[|a|] == sep && s[..|a|] == a;
  }

  /** Joining pieces that hold no separator and splitting again gives the pieces back. */
  lemma {:induction false} JoinSplitAll(parts: seq<string>, sep: char)
    requires |parts| >= 1
    requires forall i :: 0 <= i < |parts| ==> sep !in parts[i]
    ensures SplitAll(Join(parts, [sep]), sep) == parts
  {
    if |parts| > 1 {
      var a, rest := parts[0], parts[1..];
      var j := Join(rest, [sep]);
      var s := a + [sep] + j;
      assert Join(parts, [sep]) == s;
      IndexOfAfter(a, sep, j);
      assert s[..|a|] == a && s[|a| + 1..] == j;
      JoinSplitAll(rest, sep);
      assert SplitAll(s, sep) == [a] + SplitAll(j, sep);
      assert parts == [a] + rest;
    }
  }

  /** String.replace(char, replacement) applied to every occurrence. */
  function ReplaceChar(s: string, c: char, rep: string): (r: string)
    ensures c !in s ==> r == s
  {
    if s == [] then []
    else (if s[0] == c then rep else [s[0]]) + ReplaceChar(s[1..], c, rep)
  }

  function Digit(d: nat): char
    requires d < 10
  {
    "0123456789"[d]
  }

  /** Integer.toString of a non-negative number. */
  function NatToString(n: nat): (r: string)
    ensures |r| >= 1
    ensures forall i :: 0 <= i < |r| ==> '0' <= r[i] <= '9'
  {
    if n < 10 then [Digit(n)] else NatToString(n / 10) + [Digit(n % 10)]
  }

  function IntToString(i: int): string
  {
    if i < 0 then "-" + NatToString(-i) else NatToString(i)
  }

  predicate StartsWith(s: string, prefix: string) { prefix <= s }

  predicate EndsWith(s: string, suffix: string)
  {
    |suffix| <= |s| && s[|s| - |suffix|..] == suffix
  }
}
