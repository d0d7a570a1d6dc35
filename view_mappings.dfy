/**
 * How a view's mapping turns a property path into a column reference, a
 * result label or a mapping mode, and the underscore naming policy used for
 * paths the mapping does not mention.
 *
 * A mapping entry is either a string (the reference itself) or a map with
 * optional "ref", "column", "label", "mode" and "fields" keys; "fields"
 * holds the sub-mapping of a nested object.
 */
module ViewMappings {
  import opened Wrappers
  import opened Strings
  import opened Values
  import opened Authoring

  /**
   * findSpec: the mapping entry for a path. A direct key wins; otherwise a
   * dotted path descends into the parent's "fields" map. VNull when nothing
   * is mapped.
   */
  function FindSpec(mapping: seq<Entry>, path: string): Value
    decreases |path|
  {
    match Get(mapping, path)
    case Some(v) => v
    case None =>
      if '.' !in path then VNull
      else
        var parts := SplitFirst(path, '.');
        match GetOrNull(mapping, parts[0])
        case VMap(pm) =>
          (match GetOrNull(pm, "fields")
           case VMap(fm) => FindSpec(fm, parts[1])
           case _ => VNull)
        case _ => VNull
  }

  /** ref: the column reference a property path stands for. */
  function Ref(view: ViewDef, path: string): string
  {
    match FindSpec(view.mapping, path)
    case VStr(s) => s
    case VMap(m) =>
      if GetOrNull(m, "ref") != VNull then Show(GetOrNull(m, "ref"))
      else if GetOrNull(m, "column") != VNull then Show(GetOrNull(m, "column"))
      else DefaultRefOf(path)
    case _ => DefaultRefOf(path)
  }

  /** label: the result-set label of a property path. */
  function Label(view: ViewDef, path: string): string
  {
    match FindSpec(view.mapping, path)
    case VMap(m) => if GetOrNull(m, "label") != VNull then Show(GetOrNull(m, "label")) else path
    case _ => path
  }

  /** mode: how an object field is mapped; "structured" unless the spec says otherwise. */
  function Mode(view: ViewDef, path: string): string
  {
    match FindSpec(view.mapping, path)
    case VMap(m) => if GetOrNull(m, "mode") != VNull then Show(GetOrNull(m, "mode")) else "structured"
    case _ => "structured"
  }

  lemma DirectKeyWins(view: ViewDef, path: string, spec: Value)
    requires Get(view.mapping, path) == Some(spec)
    ensures FindSpec(view.mapping, path) == spec
    ensures spec.VStr? ==> Ref(view, path) == spec.s
    ensures !spec.VMap? ==> Label(view, path) == path && Mode(view, path) == "structured"
  {
  }

  /** A dotted path the mapping does not list directly is looked up in the parent's "fields". */
  lemma NestedLookup(mapping: seq<Entry>, parent: string, child: string, fields: seq<Entry>)
    requires '.' !in parent
    requires !HasKey(mapping, parent + "." + child)
    requires exists pm :: GetOrNull(mapping, parent) == VMap(pm) && GetOrNull(pm, "fields") == VMap(fields)
    ensures FindSpec(mapping, parent + "." + child) == FindSpec(fields, child)
  {
    var path := parent + "." + child;
    assert path == parent + ['.'] + child;
    assert path[|parent|] == '.';
    IndexOfAfter(parent, '.', child);
    assert path[..|parent|] == parent && path[|parent| + 1..] == child;
  }

  /** A nested path whose parent has no "fields" map is unmapped. */
  lemma NestedWithoutFields(mapping: seq<Entry>, parent: string, child: string)
    requires '.' !in parent
    requires !HasKey(mapping, parent + "." + child)
    requires forall pm :: GetOrNull(mapping, parent) == VMap(pm) ==> !GetOrNull(pm, "fields").VMap?
    ensures FindSpec(mapping, parent + "." + child) == VNull
  {
    var path := parent + "." + child;
    assert path == parent + ['.'] + child;
    assert path[|parent|] == '.';
    IndexOfAfter(parent, '.', child);
    assert path[..|parent|] == parent;
  }

  // ---------------------------------------------------------------------
  // Default naming policy

  /** Whether underscore puts a "_" before position i (an upper-case letter after a lower-case one). */
  predicate BreaksBefore(s: string, i: nat)
    requires i < |s|
  {
    IsUpper(s[i]) && i > 0 && s[i - 1] != '_' && !IsUpper(s[i - 1])
  }

  /** What underscore emits for position i of s. */
  function UnderscorePiece(s: string, i: nat): string
    requires i < |s|
  {
    if IsUpper(s[i]) then (if BreaksBefore(s, i) then "_" else "") + [LowerChar(s[i])]
    else [s[i]]
  }

  /** underscore: camelCase to snake_case, one position at a time. */
  function Underscored(s: string): string
  {
    if |s| == 0 then [] else Underscored(s[..|s| - 1]) + UnderscorePiece(s, |s| - 1)
  }

  /** The loop of underscore, remembering the previous character. */
  method Underscore(s: string) returns (out: string)
    ensures out == Underscored(s)
  {
    out := [];
    var prev: char := 0 as char;
    var i := 0;
    while i < |s|
      invariant 0 <= i <= |s|
      invariant out == Underscored(s[..i])
      invariant i > 0 ==> prev == s[i - 1]
    {
      var c := s[i];
      assert Underscored(s[..i + 1]) == out + UnderscorePiece(s[..i + 1], i) by {
        assert s[..i + 1] == s[..i] + [c];
        UnderscoredSnoc(s[..i], c);
      }
      var piece: string;
      if IsUpper(c) {
        piece := if i > 0 && prev != '_' && !IsUpper(prev) then "_" + [LowerChar(c)] else [LowerChar(c)];
      } else {
        piece := [c];
      }
      assert piece == UnderscorePiece(s[..i + 1], i);
      out := out + piece;
      prev := c;
      i := i + 1;
    }
    assert s[..|s|] == s;
  }

  lemma {:induction false} UnderscoredNoUpper(s: string)
    ensures forall i :: 0 <= i < |Underscored(s)| ==> !IsUpper(Underscored(s)[i])
    ensures '.' !in s ==> '.' !in Underscored(s)
  {
    if |s| > 0 {
      var p, x := s[..|s| - 1], s[|s| - 1];
      UnderscoredNoUpper(p);
      assert s == p + [x];
      UnderscoredSnoc(p, x);
    }
  }

  /** A string without upper-case letters is left as it is. */
  lemma {:induction false} UnderscoredIdentity(s: string)
    requires forall i :: 0 <= i < |s| ==> !IsUpper(s[i])
    ensures Underscored(s) == s
  {
    if |s| > 0 {
      var p, x := s[..|s| - 1], s[|s| - 1];
      assert Underscored(p) == p by { UnderscoredIdentity(p); }
      assert Underscored(p + [x]) == Underscored(p) + [x] by {
        UnderscoredSnoc(p, x);
        assert UnderscorePiece(p + [x], |p|) == [x];
      }
      assert s == p + [x];
    }
  }

  /** Applying the policy twice is the same as applying it once. */
  lemma UnderscoredIdempotent(s: string)
    ensures Underscored(Underscored(s)) == Underscored(s)
  {
    UnderscoredNoUpper(s);
    UnderscoredIdentity(Underscored(s));
  }

  /** Underscore emits, for one more character, what its position calls for. */
  lemma UnderscoredSnoc(s: string, x: char)
    ensures Underscored(s + [x]) == Underscored(s) + UnderscorePiece(s + [x], |s|)
  {
    assert (s + [x])[..|s|] == s;
  }

  /** A lower-case word followed by a capitalised one is split by a single "_". */
  lemma {:induction false} UnderscoredCamelPair(a: string, c: char, b: string)
    requires a != [] && a[|a| - 1] != '_'
    requires forall i :: 0 <= i < |a| ==> !IsUpper(a[i])
    requires IsUpper(c)
    requires forall i :: 0 <= i < |b| ==> !IsUpper(b[i])
    ensures Underscored(a + [c] + b) == a + "_" + [LowerChar(c)] + b
    decreases |b|
  {
    var w := a + "_" + [LowerChar(c)];
    if |b| == 0 {
      assert Underscored(a + [c]) == w by {
        UnderscoredSnoc(a, c);
        UnderscoredIdentity(a);
        assert BreaksBefore(a + [c], |a|);
      }
      assert a + [c] + b == a + [c];
      assert w + b == w;
    } else {
      var b', l := b[..|b| - 1], b[|b| - 1];
      var t := a + [c] + b';
      assert Underscored(t) == w + b' by {
        UnderscoredCamelPair(a, c, b');
      }
      assert Underscored(t + [l]) == Underscored(t) + [l] by {
        UnderscoredSnoc(t, l);
        assert UnderscorePiece(t + [l], |t|) == [l];
      }
      assert a + [c] + b == t + [l];
      assert w + b == (w + b') + [l];
    }
  }

  lemma UnderscoreExamples()
    ensures Underscored("customerName") == "customer_name"
    ensures Underscored("addressLine1") == "address_line1"
  {
    assert "customerName" == "customer" + ['N'] + "ame";
    UnderscoredCamelPair("customer", 'N', "ame");
    assert "addressLine1" == "address" + ['L'] + "ine1";
    UnderscoredCamelPair("address", 'L', "ine1");
  }

  function UnderscoreAll(parts: seq<string>): (r: seq<string>)
    ensures |r| == |parts|
    ensures forall i :: 0 <= i < |parts| ==> r[i] == Underscored(parts[i])
  {
    if |parts| == 0 then [] else [Underscored(parts[0])] + UnderscoreAll(parts[1..])
  }

  /** defaultRef: the underscore policy applied per dot-separated segment. */
  function DefaultRefOf(path: string): string
  {
    if IsBlank(path) then path
    else if '.' !in path then Underscored(path)
    else Join(UnderscoreAll(Split(path, '.')), ".")
  }

  /** The segment loop of defaultRef: underscore each piece and join with ".". */
  method JoinUnderscored(parts: seq<string>) returns (r: string)
    ensures r == Join(UnderscoreAll(parts), ".")
  {
    r := [];
    var i := 0;
    while i < |parts|
      invariant 0 <= i <= |parts|
      invariant r == Join(UnderscoreAll(parts[..i]), ".")
    {
      var seg := Underscore(parts[i]);
      UnderscoreAllSnoc(parts[..i], parts[i]);
      assert parts[..i + 1] == parts[..i] + [parts[i]];
      JoinSnoc(UnderscoreAll(parts[..i]), seg, ".");
      if i > 0 {
        r := r + ".";
      }
      r := r + seg;
      i := i + 1;
    }
    assert parts[..|parts|] == parts;
  }

  lemma {:induction false} UnderscoreAllSnoc(parts: seq<string>, x: string)
    ensures UnderscoreAll(parts + [x]) == UnderscoreAll(parts) + [Underscored(x)]
  {
    if |parts| > 0 {
      UnderscoreAllSnoc(parts[1..], x);
      assert (parts + [x])[1..] == parts[1..] + [x];
    } else {
      assert parts + [x] == [x];
    }
  }

  /** defaultRef. */
  method DefaultRef(path: string) returns (r: string)
    ensures r == DefaultRefOf(path)
  {
    if IsBlank(path) {
      r := path;
    } else if '.' !in path {
      r := Underscore(path);
    } else {
      r := JoinUnderscored(Split(path, '.'));
    }
  }

  lemma {:induction false} JoinSnoc(parts: seq<string>, last: string, sep: string)
    ensures Join(parts + [last], sep) == if parts == [] then last else Join(parts, sep) + sep + last
  {
    if |parts| > 1 {
      assert (parts + [last])[1..] == parts[1..] + [last];
      JoinSnoc(parts[1..], last, sep);
    } else if |parts| == 1 {
      assert (parts + [last])[1..] == [last];
    }
  }

  /**
   * On a path whose segments are all non-empty, the default reference has
   * the same segments, each in underscore form.
   */
  lemma DefaultRefSegments(path: string)
    requires '.' in path
    requires forall i :: 0 <= i < |SplitAll(path, '.')| ==> SplitAll(path, '.')[i] != []
    ensures SplitAll(DefaultRefOf(path), '.') == UnderscoreAll(SplitAll(path, '.'))
  {
    var parts := SplitAll(path, '.');
    assert !IsBlank(path) by {
      var k := IndexOf(path, '.');
      assert path[k] == '.' && !IsWhitespace('.');
    }
    assert Split(path, '.') == parts;
    var us := UnderscoreAll(parts);
    forall i | 0 <= i < |us| ensures '.' !in us[i] {
      UnderscoredNoUpper(parts[i]);
    }
    JoinSplitAll(us, '.');
  }

  lemma DefaultRefExamples()
    ensures DefaultRefOf("customerName") == "customer_name"
    ensures DefaultRefOf("customer" + "." + "addressLine1") == "customer" + "." + "address_line1"
  {
    var p := "customerName";
    assert !IsWhitespace(p[0]);
    assert '.' !in p by { assert forall i :: 0 <= i < |p| ==> p[i] != '.'; }
    UnderscoreExamples();
    DottedExample("customer", "addressLine1", "address_line1");
  }

  lemma DottedExample(a: string, b: string, u: string)
    requires a == "customer" && b == "addressLine1" && u == "address_line1"
    ensures DefaultRefOf(a + "." + b) == a + "." + u
  {
    assert '.' !in a by { assert forall i :: 0 <= i < |a| ==> a[i] != '.'; }
    assert '.' !in b by { assert forall i :: 0 <= i < |b| ==> b[i] != '.'; }
    assert !IsWhitespace(a[0]);
    DefaultRefTwoSegments(a, b);
    UnderscoreExamples();
    UnderscoredIdentity(a);
  }

  lemma DefaultRefTwoSegments(a: string, b: string)
    requires '.' !in a && '.' !in b && b != []
    requires a != [] && !IsWhitespace(a[0])
    ensures DefaultRefOf(a + "." + b) == Underscored(a) + "." + Underscored(b)
  {
    var p := a + "." + b;
    assert p == a + ['.'] + b;
    assert !IsBlank(p) by { assert p[0] == a[0]; }
    assert '.' in p by { assert p[|a|] == '.'; }
    var parts := SplitAll(p, '.');
    assert parts == [a, b] by {
      IndexOfAfter(a, '.', b);
      assert p[..|a|] == a && p[|a| + 1..] == b;
    }
    assert Split(p, '.') == [a, b];
    var us := UnderscoreAll([a, b]);
    assert us == [Underscored(a), Underscored(b)];
    assert Join(us, ".") == Underscored(a) + "." + Underscored(b) by {
      assert us[1..] == [Underscored(b)];
    }
  }

  // ---------------------------------------------------------------------
  // labels

  /** The labels one mapping entry contributes under the given path prefix. */
  function FlattenEntry(e: Entry, prefix: string, out: seq<Entry>): seq<Entry>
  {
    var path := prefix + e.key;
    match e.val
    case VMap(m) =>
      (match GetOrNull(m, "fields")
       case VMap(fm) => FlattenEntries(fm, path + ".", out)
       case _ =>
         if GetOrNull(m, "label") != VNull then Put(out, path, VStr(Show(GetOrNull(m, "label"))))
         else Put(out, path, VStr(path)))
    case _ => Put(out, path, VStr(path))
  }

  /** flatten, entry by entry in mapping order; labels passes allowDefault = true, the only value it is used with. */
  function FlattenEntries(es: seq<Entry>, prefix: string, out: seq<Entry>): seq<Entry>
  {
    if es == [] then out
    else FlattenEntry(es[|es| - 1], prefix, FlattenEntries(es[..|es| - 1], prefix, out))
  }

  /** The loop of flatten, recursing into nested "fields" maps. */
  method Flatten(mapping: seq<Entry>, prefix: string, out0: seq<Entry>) returns (out: seq<Entry>)
    ensures out == FlattenEntries(mapping, prefix, out0)
    decreases VMap(mapping)
  {
    out := out0;
    var i := 0;
    while i < |mapping|
      invariant 0 <= i <= |mapping|
      invariant out == FlattenEntries(mapping[..i], prefix, out0)
    {
      var e := mapping[i];
      assert mapping[..i + 1][..i] == mapping[..i];
      var path := prefix + e.key;
      if e.val.VMap? {
        var m := e.val.entries;
        var fields := GetOrNull(m, "fields");
        if fields.VMap? {
          assert VMap(fields.entries) < VMap(mapping) by {
            var j :| 0 <= j < |m| && m[j] == Entry("fields", fields);
            assert m[j] < e;
          }
          out := Flatten(fields.entries, path + ".", out);
        } else if GetOrNull(m, "label") != VNull {
          out := Put(out, path, VStr(Show(GetOrNull(m, "label"))));
        } else {
          out := Put(out, path, VStr(path));
        }
      } else {
        out := Put(out, path, VStr(path));
      }
      i := i + 1;
    }
    assert mapping[..|mapping|] == mapping;
  }

  /** labels: every mapped property path with its label. */
  method Labels(view: ViewDef) returns (out: seq<Entry>)
    ensures out == FlattenEntries(view.mapping, "", [])
  {
    out := Flatten(view.mapping, "", []);
  }

  /** flatten only writes keys under its prefix. */
  lemma {:induction false} FlattenOutsidePrefix(es: seq<Entry>, prefix: string, out: seq<Entry>, k: string)
    requires !(prefix <= k)
    ensures Get(FlattenEntries(es, prefix, out), k) == Get(out, k)
    decreases es, 1
  {
    if es != [] {
      FlattenOutsidePrefix(es[..|es| - 1], prefix, out, k);
      FlattenEntryOutsidePrefix(es[|es| - 1], prefix, FlattenEntries(es[..|es| - 1], prefix, out), k);
    }
  }

  lemma {:induction false} FlattenEntryOutsidePrefix(e: Entry, prefix: string, out: seq<Entry>, k: string)
    requires !(prefix <= k)
    ensures Get(FlattenEntry(e, prefix, out), k) == Get(out, k)
    decreases e, 0
  {
    var path := prefix + e.key;
    assert prefix <= path;
    if e.val.VMap? && GetOrNull(e.val.entries, "fields").VMap? {
      var fm := GetOrNull(e.val.entries, "fields").entries;
      assert prefix <= path + ".";
      FlattenOutsidePrefix(fm, path + ".", out, k);
    }
  }

  lemma {:induction false} FlattenAppend(a: seq<Entry>, b: seq<Entry>, prefix: string, out: seq<Entry>)
    ensures FlattenEntries(a + b, prefix, out) == FlattenEntries(b, prefix, FlattenEntries(a, prefix, out))
    decreases |b|
  {
    if b == [] {
      assert a + b == a;
    } else {
      var b' := b[..|b| - 1];
      FlattenAppend(a, b', prefix, out);
      assert (a + b)[..|a + b| - 1] == a + b';
      assert (a + b)[|a + b| - 1] == b[|b| - 1];
    }
  }

  /** Top-level entries whose keys differ from k (and hold no dot) leave the label of k alone. */
  lemma {:induction false} FlattenKeepsOtherKey(es: seq<Entry>, out: seq<Entry>, k: string)
    requires '.' !in k
    requires forall j :: 0 <= j < |es| ==> es[j].key != k
    ensures Get(FlattenEntries(es, "", out), k) == Get(out, k)
    decreases |es|
  {
    if es != [] {
      var e := es[|es| - 1];
      var mid := FlattenEntries(es[..|es| - 1], "", out);
      FlattenKeepsOtherKey(es[..|es| - 1], out, k);
      assert "" + e.key == e.key;
      if e.val.VMap? && GetOrNull(e.val.entries, "fields").VMap? {
        var fm := GetOrNull(e.val.entries, "fields").entries;
        assert (e.key + ".")[|e.key|] == '.';
        assert !(e.key + "." <= k);
        FlattenOutsidePrefix(fm, e.key + ".", mid, k);
      }
    }
  }

  /**
   * labels and label agree on every top-level property that is not a nested
   * object, when the mapping's keys are distinct and hold no dot.
   */
  lemma LabelsAgreeWithLabel(view: ViewDef, i: nat)
    requires i < |view.mapping|
    requires forall j :: 0 <= j < |view.mapping| ==> '.' !in view.mapping[j].key
    requires forall j :: 0 <= j < |view.mapping| && j != i ==> view.mapping[j].key != view.mapping[i].key
    requires !(view.mapping[i].val.VMap? && GetOrNull(view.mapping[i].val.entries, "fields").VMap?)
    ensures Get(FlattenEntries(view.mapping, "", []), view.mapping[i].key)
      == Some(VStr(Label(view, view.mapping[i].key)))
  {
    var es := view.mapping;
    var e := es[i];
    var k := e.key;
    assert Get(es, k) == Some(e.val) by {
      assert HasKey(es, k);
    }
    assert es == es[..i + 1] + es[i + 1..];
    assert es[..i + 1][..i] == es[..i];
    FlattenAppend(es[..i + 1], es[i + 1..], "", []);
    var upto := FlattenEntries(es[..i + 1], "", []);
    assert "" + k == k;
    assert Get(upto, k) == Some(VStr(Label(view, k)));
    var rest := es[i + 1..];
    forall j | 0 <= j < |rest| ensures rest[j].key != k {
      assert rest[j] == es[i + 1 + j];
    }
    FlattenKeepsOtherKey(rest, upto, k);
  }
}
