/**
 * java.util.UUID.fromString, as the JDBC dialect uses it to coerce an
 * operand bound to a uuid column. The text may have at most 36 characters
 * and must hold exactly four dashes. Each of the five groups between them
 * is read as a hexadecimal long (Long.parseLong with radix 16: an optional
 * '+', then at least one digit, below 2^63). Each group is then cut to its
 * width in bits (32, 16, 16, 16, 48). A UUID is kept as its canonical
 * text: the five groups in 8-4-4-4-12 lower-case digits.
 */
module UuidText {
  import opened Wrappers
  import opened Strings

  predicate IsHexDigit(c: char)
  {
    '0' <= c <= '9' || 'a' <= c <= 'f' || 'A' <= c <= 'F'
  }

  predicate IsLowerHexDigit(c: char)
  {
    '0' <= c <= '9' || 'a' <= c <= 'f'
  }

  predicate AllHex(s: string)
  {
    forall i :: 0 <= i < |s| ==> IsHexDigit(s[i])
  }

  predicate AllLowerHex(s: string)
  {
    forall i :: 0 <= i < |s| ==> IsLowerHexDigit(s[i])
  }

  function DigitValue(c: char): (r: nat)
    requires IsHexDigit(c)
    ensures r < 16
  {
    if c <= '9' then c as int - '0' as int
    else if c <= 'F' then c as int - 'A' as int + 10
    else c as int - 'a' as int + 10
  }

  /** The number a run of hexadecimal digits spells, most significant first. */
  function HexValue(s: string): nat
    requires AllHex(s)
  {
    if |s| == 0 then 0 else HexValue(s[..|s| - 1]) * 16 + DigitValue(s[|s| - 1])
  }

  function Pow16(n: nat): (r: nat)
    ensures r >= 1
  {
    if n == 0 then 1 else 16 * Pow16(n - 1)
  }

  /** 2^63: Long.MAX_VALUE + 1. */
  const LongLimit: nat := 0x8000_0000_0000_0000

  /** Long.parseLong(group, 16) on a group that holds no dash: None where Java throws NumberFormatException. */
  function ParseHexLong(p: string): (r: Option<nat>)
    ensures r.Some? ==> r.value < LongLimit
  {
    var digits := if |p| > 0 && p[0] == '+' then p[1..] else p;
    if |digits| > 0 && AllHex(digits) && HexValue(digits) < LongLimit then Some(HexValue(digits)) else None
  }

  function HexChar(d: nat): (c: char)
    requires d < 16
    ensures IsLowerHexDigit(c)
  {
    "0123456789abcdef"[d]
  }

  /** UUID.digits: the low 4 * width bits of n as width lower-case digits. */
  function Hex(n: nat, width: nat): (r: string)
    ensures |r| == width
  {
    if width == 0 then "" else Hex(n / 16, width - 1) + [HexChar(n % 16)]
  }

  /** The widths, in digits, of the five groups of the canonical text. */
  const Widths: seq<nat> := [8, 4, 4, 4, 12]

  /** UUID.toString of the UUID built from five group values. */
  function CanonicalOf(a: nat, b: nat, c: nat, d: nat, e: nat): (r: string)
  {
    Join([Hex(a, 8), Hex(b, 4), Hex(c, 4), Hex(d, 4), Hex(e, 12)], "-")
  }

  /** The canonical text of a UUID: 36 characters, five dash-separated groups of 8, 4, 4, 4 and 12 lower-case digits. */
  predicate IsCanonical(t: string)
  {
    var parts := SplitAll(t, '-');
    |t| == 36 && |parts| == 5 &&
    forall i :: 0 <= i < 5 ==> |parts[i]| == Widths[i] && AllLowerHex(parts[i])
  }

  function InvalidText(s: string): string
  {
    "Invalid UUID string: " + s
  }

  /**
   * UUID.fromString: a text over 36 characters is too large; one without
   * exactly four dashes, or with a group that is not a hexadecimal long, is
   * invalid.
   */
  function FromString(s: string): (r: Result<string>)
    ensures |s| > 36 ==> r == Err(IllegalArgument("UUID string too large"))
    ensures |s| <= 36 && |SplitAll(s, '-')| != 5 ==> r == Err(IllegalArgument(InvalidText(s)))
    ensures r.Err? ==> r.error.IllegalArgument?
  {
    if |s| > 36 then Err(IllegalArgument("UUID string too large"))
    else
      var parts := SplitAll(s, '-');
      if |parts| != 5 then Err(IllegalArgument(InvalidText(s)))
      else
        match GroupValues(parts)
        case None => Err(IllegalArgument(InvalidText(s)))
        case Some(vs) => Ok(CanonicalOf(vs[0], vs[1], vs[2], vs[3], vs[4]))
  }

  /** The groups read as hexadecimal longs, in order; None when any is not one. */
  function GroupValues(parts: seq<string>): (r: Option<seq<nat>>)
    ensures r.Some? ==> |r.value| == |parts|
  {
    if |parts| == 0 then Some([])
    else
      match ParseHexLong(parts[0])
      case None => None
      case Some(v) =>
        match GroupValues(parts[1..])
        case None => None
        case Some(vs) => Some([v] + vs)
  }

  /*
   * The canonical text parses to itself, and whatever parses is canonical,
   * so parsing is idempotent.
   */

  lemma {:induction false} HexLower(n: nat, width: nat)
    ensures AllLowerHex(Hex(n, width))
    decreases width
  {
    if width > 0 {
      HexLower(n / 16, width - 1);
      var h, init := Hex(n, width), Hex(n / 16, width - 1);
      forall i | 0 <= i < width
        ensures IsLowerHexDigit(h[i])
      {
        if i < width - 1 { assert h[i] == init[i]; }
      }
    }
  }

  lemma HexNoDash(n: nat, width: nat)
    ensures '-' !in Hex(n, width)
  {
    HexLower(n, width);
    var h := Hex(n, width);
    forall i | 0 <= i < |h|
      ensures h[i] != '-'
    {
      assert IsLowerHexDigit(h[i]);
    }
  }

  lemma LowerIsHex(s: string)
    requires AllLowerHex(s)
    ensures AllHex(s)
    ensures '+' !in s && '-' !in s
  {
    forall i | 0 <= i < |s|
      ensures IsHexDigit(s[i]) && s[i] != '+' && s[i] != '-'
    {
      assert IsLowerHexDigit(s[i]);
    }
  }

  lemma {:induction false} HexValueBound(s: string)
    requires AllHex(s)
    ensures HexValue(s) < Pow16(|s|)
    decreases |s|
  {
    if |s| > 0 {
      HexValueBound(s[..|s| - 1]);
    }
  }

  lemma DivStep(x: nat, d: nat)
    requires d < 16
    ensures (x * 16 + d) / 16 == x && (x * 16 + d) % 16 == d
  {
  }

  lemma DigitRoundTrip(c: char)
    requires IsLowerHexDigit(c)
    ensures HexChar(DigitValue(c)) == c
  {
  }

  /** Printing a run of lower-case digits' value at its own width spells the run again. */
  lemma {:induction false} HexOfValue(s: string)
    requires AllLowerHex(s)
    ensures AllHex(s) && Hex(HexValue(s), |s|) == s
    decreases |s|
  {
    LowerIsHex(s);
    if |s| > 0 {
      LowerInit(s);
      HexOfValue(s[..|s| - 1]);
      HexValueSnoc(s, HexValue(s[..|s| - 1]), DigitValue(s[|s| - 1]));
    }
  }

  lemma HexValueSnoc(s: string, x: nat, d: nat)
    requires |s| > 0 && AllHex(s) && IsLowerHexDigit(s[|s| - 1])
    requires x == HexValue(s[..|s| - 1]) && d == DigitValue(s[|s| - 1])
    requires Hex(x, |s| - 1) == s[..|s| - 1]
    ensures Hex(HexValue(s), |s|) == s
  {
    DigitRoundTrip(s[|s| - 1]);
    HexSnoc(s, x, d);
    ValueStep(s, x, d);
    SameValue(s, HexValue(s), x * 16 + d);
  }

  lemma SameValue(s: string, v: nat, n: nat)
    requires v == n && Hex(n, |s|) == s
    ensures Hex(v, |s|) == s
  {
  }

  lemma ValueStep(s: string, x: nat, d: nat)
    requires |s| > 0 && AllHex(s)
    requires x == HexValue(s[..|s| - 1]) && d == DigitValue(s[|s| - 1])
    ensures HexValue(s) == x * 16 + d
  {
  }

  lemma LowerInit(s: string)
    requires AllLowerHex(s) && |s| > 0
    ensures AllLowerHex(s[..|s| - 1]) && IsLowerHexDigit(s[|s| - 1])
  {
    var init := s[..|s| - 1];
    forall i | 0 <= i < |init|
      ensures IsLowerHexDigit(init[i])
    {
      assert init[i] == s[i];
    }
  }

  /** One more digit: the value grows by a place, and its printing by that digit. */
  lemma HexSnoc(s: string, x: nat, d: nat)
    requires |s| > 0 && d < 16 && HexChar(d) == s[|s| - 1] && Hex(x, |s| - 1) == s[..|s| - 1]
    ensures Hex(x * 16 + d, |s|) == s
  {
    DivStep(x, d);
    assert s == s[..|s| - 1] + [s[|s| - 1]];
  }

  lemma {:induction false} Pow16Mono(m: nat, n: nat)
    requires m <= n
    ensures Pow16(m) <= Pow16(n)
    decreases n
  {
    if m < n {
      Pow16Mono(m, n - 1);
    }
  }

  lemma Pow16Twelve()
    ensures Pow16(12) == 0x1_0000_0000_0000
  {
  }

  /** A group of at most 12 lower-case digits reads as its own value. */
  lemma GroupParses(p: string)
    requires AllLowerHex(p) && 0 < |p| <= 12
    ensures AllHex(p) && ParseHexLong(p) == Some(HexValue(p))
    ensures Hex(HexValue(p), |p|) == p
  {
    LowerIsHex(p);
    assert p[0] != '+' by { assert IsLowerHexDigit(p[0]); }
    HexValueBound(p);
    Pow16Mono(|p|, 12);
    Pow16Twelve();
    HexOfValue(p);
  }

  /** Groups of the canonical widths, each read back from its own digits, print as themselves. */
  lemma GroupsOfCanonical(parts: seq<string>)
    requires |parts| == 5
    requires forall i :: 0 <= i < 5 ==> |parts[i]| == Widths[i] && AllLowerHex(parts[i])
    ensures GroupValues(parts).Some?
    ensures var vs := GroupValues(parts).value; CanonicalOf(vs[0], vs[1], vs[2], vs[3], vs[4]) == Join(parts, "-")
  {
    var p0, p1, p2, p3, p4 := parts[0], parts[1], parts[2], parts[3], parts[4];
    GroupParses(p0);
    GroupParses(p1);
    GroupParses(p2);
    GroupParses(p3);
    GroupParses(p4);
    var v0, v1, v2, v3, v4 := HexValue(p0), HexValue(p1), HexValue(p2), HexValue(p3), HexValue(p4);
    GroupValuesOfFive(parts, v0, v1, v2, v3, v4);
    CanonicalOfParts(p0, p1, p2, p3, p4, v0, v1, v2, v3, v4);
    assert parts == [p0, p1, p2, p3, p4];
  }

  lemma GroupValuesOfFive(parts: seq<string>, v0: nat, v1: nat, v2: nat, v3: nat, v4: nat)
    requires |parts| == 5
    requires ParseHexLong(parts[0]) == Some(v0) && ParseHexLong(parts[1]) == Some(v1)
    requires ParseHexLong(parts[2]) == Some(v2) && ParseHexLong(parts[3]) == Some(v3)
    requires ParseHexLong(parts[4]) == Some(v4)
    ensures GroupValues(parts) == Some([v0, v1, v2, v3, v4])
  {
    var vs := [v0, v1, v2, v3, v4];
    forall i | 0 <= i < 5
      ensures ParseHexLong(parts[i]) == Some(vs[i])
    {
    }
    GroupValuesAll(parts, vs);
  }

  /** Groups that each read as a value read, together, as those values in order. */
  lemma {:induction false} GroupValuesAll(parts: seq<string>, vs: seq<nat>)
    requires |parts| == |vs|
    requires forall i :: 0 <= i < |parts| ==> ParseHexLong(parts[i]) == Some(vs[i])
    ensures GroupValues(parts) == Some(vs)
    decreases |parts|
  {
    if |parts| > 0 {
      assert ParseHexLong(parts[0]) == Some(vs[0]);
      GroupValuesAll(parts[1..], vs[1..]);
      assert [vs[0]] + vs[1..] == vs;
    }
  }

  lemma CanonicalOfParts(p0: string, p1: string, p2: string, p3: string, p4: string,
                         v0: nat, v1: nat, v2: nat, v3: nat, v4: nat)
    requires Hex(v0, 8) == p0 && Hex(v1, 4) == p1 && Hex(v2, 4) == p2
    requires Hex(v3, 4) == p3 && Hex(v4, 12) == p4
    ensures CanonicalOf(v0, v1, v2, v3, v4) == Join([p0, p1, p2, p3, p4], "-")
  {
  }

  /** A canonical text is accepted and comes back unchanged. */
  lemma CanonicalRoundTrip(t: string)
    requires IsCanonical(t)
    ensures FromString(t) == Ok(t)
  {
    var parts := SplitAll(t, '-');
    GroupsOfCanonical(parts);
    SplitAllJoin(t, '-');
  }

  lemma JoinFive(a: string, b: string, c: string, d: string, e: string)
    ensures Join([a, b, c, d, e], "-") == a + "-" + (b + "-" + (c + "-" + (d + "-" + e)))
  {
    assert [a, b, c, d, e][1..] == [b, c, d, e];
    assert [b, c, d, e][1..] == [c, d, e];
    assert [c, d, e][1..] == [d, e];
    assert [d, e][1..] == [e];
    assert Join([d, e], "-") == d + "-" + e;
    assert Join([c, d, e], "-") == c + "-" + Join([d, e], "-");
    assert Join([b, c, d, e], "-") == b + "-" + Join([c, d, e], "-");
  }

  /** A canonical text starts and ends with a digit, so trimming leaves it whole. */
  lemma TrimCanonical(t: string)
    requires IsCanonical(t)
    ensures Trim(t) == t
  {
    CanonicalEnds(t);
    TrimStable(t);
  }

  lemma CanonicalEnds(t: string)
    requires IsCanonical(t)
    ensures |t| > 0 && IsLowerHexDigit(t[0]) && IsLowerHexDigit(t[|t| - 1])
  {
    var parts := SplitAll(t, '-');
    SplitAllJoin(t, '-');
    assert parts == [parts[0], parts[1], parts[2], parts[3], parts[4]];
    JoinFiveEnds(parts[0], parts[1], parts[2], parts[3], parts[4]);
    assert IsLowerHexDigit(parts[0][0]) && IsLowerHexDigit(parts[4][|parts[4]| - 1]);
  }

  lemma JoinFiveEnds(a: string, b: string, c: string, d: string, e: string)
    requires |a| > 0 && |e| > 0
    ensures |Join([a, b, c, d, e], "-")| > 0
    ensures Join([a, b, c, d, e], "-")[0] == a[0]
    ensures Join([a, b, c, d, e], "-")[|Join([a, b, c, d, e], "-")| - 1] == e[|e| - 1]
  {
    JoinFive(a, b, c, d, e);
    var tail := b + "-" + (c + "-" + (d + "-" + e));
    assert tail[|tail| - 1] == e[|e| - 1];
  }

  /** Five groups of lower-case digits of the canonical widths, joined with dashes, are a canonical text. */
  lemma FiveGroups(hs: seq<string>)
    requires |hs| == 5
    requires forall i :: 0 <= i < 5 ==> |hs[i]| == Widths[i] && AllLowerHex(hs[i])
    ensures IsCanonical(Join(hs, "-"))
  {
    var t := Join(hs, "-");
    assert SplitAll(t, '-') == hs by {
      forall i | 0 <= i < 5
        ensures '-' !in hs[i]
      {
        LowerIsHex(hs[i]);
      }
      JoinSplitAll(hs, '-');
    }
    assert |t| == 36 by {
      assert hs == [hs[0], hs[1], hs[2], hs[3], hs[4]];
      JoinFive(hs[0], hs[1], hs[2], hs[3], hs[4]);
    }
  }

  /** The canonical text of any five group values is canonical. */
  lemma CanonicalOfIsCanonical(a: nat, b: nat, c: nat, d: nat, e: nat)
    ensures IsCanonical(CanonicalOf(a, b, c, d, e))
  {
    var h0, h1, h2, h3, h4 := Hex(a, 8), Hex(b, 4), Hex(c, 4), Hex(d, 4), Hex(e, 12);
    HexLower(a, 8);
    HexLower(b, 4);
    HexLower(c, 4);
    HexLower(d, 4);
    HexLower(e, 12);
    FiveGroups([h0, h1, h2, h3, h4]);
  }

  /** Whatever fromString accepts is a canonical text. */
  lemma ParsedIsCanonical(s: string)
    requires FromString(s).Ok?
    ensures IsCanonical(FromString(s).value)
  {
    var vs := GroupValues(SplitAll(s, '-')).value;
    CanonicalOfIsCanonical(vs[0], vs[1], vs[2], vs[3], vs[4]);
  }

  /** Parsing the text of a parsed UUID gives the same UUID. */
  lemma FromStringIdempotent(s: string)
    requires FromString(s).Ok?
    ensures FromString(FromString(s).value) == FromString(s)
  {
    ParsedIsCanonical(s);
    CanonicalRoundTrip(FromString(s).value);
  }

  /** Text with two dashes, such as "not-a-uuid", is refused as invalid. */
  lemma TwoDashesRefused(s: string, a: string, b: string, c: string)
    requires s == a + "-" + b + "-" + c
    requires '-' !in a && '-' !in b && '-' !in c && |s| <= 36
    ensures FromString(s) == Err(IllegalArgument(InvalidText(s)))
  {
    assert Join([a, b, c], "-") == s by {
      assert [a, b, c][1..] == [b, c];
      assert Join([b, c], "-") == b + "-" + c;
    }
    JoinSplitAll([a, b, c], '-');
  }

  lemma NotAUuid(s: string)
    requires s == "not-a-uuid"
    ensures FromString(s) == Err(IllegalArgument(InvalidText(s)))
  {
    TwoDashesRefused(s, "not", "a", "uuid");
  }
}
