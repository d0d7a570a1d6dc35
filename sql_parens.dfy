/**
 * Parenthesis nesting in SQL text: how deep each position sits, when a
 * text is balanced, and when one pair of parentheses encloses all of it.
 */
module SqlParens {
  function Depth(c: char): int
  {
    if c == '(' then 1 else if c == ')' then -1 else 0
  }

  /** Opening minus closing parentheses. */
  function Net(s: string): int
  {
    if s == [] then 0 else Net(s[..|s| - 1]) + Depth(s[|s| - 1])
  }

  /** Every parenthesis closes one opened before it, and all are closed. */
  predicate Balanced(s: string)
  {
    Net(s) == 0 && forall i :: 0 <= i <= |s| ==> Net(s[..i]) >= 0
  }

  /** The first character is a "(" that stays open until the last character, a ")". */
  predicate Encloses(t: string)
  {
    |t| >= 2 && t[0] == '(' && t[|t| - 1] == ')' && forall i :: 1 <= i < |t| ==> Net(t[..i]) >= 1
  }

  lemma {:induction false} NetAppend(a: string, b: string)
    ensures Net(a + b) == Net(a) + Net(b)
    decreases |b|
  {
    if b == [] {
      assert a + b == a;
    } else {
      var b' := b[..|b| - 1];
      assert (a + b)[..|a + b| - 1] == a + b';
      NetAppend(a, b');
    }
  }

  /** A text without parentheses is balanced, and so is every prefix of it. */
  lemma {:induction false} NoParensBalanced(s: string)
    requires '(' !in s && ')' !in s
    ensures forall i :: 0 <= i <= |s| ==> Net(s[..i]) == 0
    ensures Balanced(s)
    decreases |s|
  {
    if s != [] {
      var init := s[..|s| - 1];
      NoParensBalanced(init);
      forall i | 0 <= i <= |s|
        ensures Net(s[..i]) == 0
      {
        if i < |s| {
          assert s[..i] == init[..i];
        } else {
          assert s[..i] == s;
          assert init[..|init|] == init;
        }
      }
    }
    assert s[..|s|] == s;
  }

  lemma BalancedConcat(a: string, b: string)
    requires Balanced(a) && Balanced(b)
    ensures Balanced(a + b)
  {
    NetAppend(a, b);
    forall i | 0 <= i <= |a + b|
      ensures Net((a + b)[..i]) >= 0
    {
      if i <= |a| {
        assert (a + b)[..i] == a[..i];
      } else {
        assert (a + b)[..i] == a + b[..i - |a|];
        NetAppend(a, b[..i - |a|]);
      }
    }
  }

  lemma BalancedWrap(x: string)
    requires Balanced(x)
    ensures Balanced("(" + x + ")") && Encloses("(" + x + ")")
  {
    var t := "(" + x + ")";
    NetAppend("(", x);
    NetAppend("(" + x, ")");
    forall i | 1 <= i <= |t|
      ensures Net(t[..i]) >= 0 && (i < |t| ==> Net(t[..i]) >= 1)
    {
      if i < |t| {
        assert t[..i] == "(" + x[..i - 1];
        NetAppend("(", x[..i - 1]);
      } else {
        assert t[..i] == t;
      }
    }
  }

  /** An " OR " at position i that no parenthesis opened before it encloses. */
  predicate OrAtTop(s: string, i: nat)
  {
    i + 4 <= |s| && s[i..i + 4] == " OR " && Net(s[..i]) == 0
  }

  /** Inside one enclosing pair of parentheses every " OR " is nested. */
  lemma EnclosedNoTopOr(t: string)
    requires Encloses(t)
    ensures KeptTogether(t)
  {
    forall i: nat | i + 4 <= |t| && t[i..i + 4] == " OR "
      ensures Net(t[..i]) != 0
    {
      assert t[i] == ' ';
    }
  }

  /** One parenthesised group with every " OR " nested in it. */
  ghost predicate KeptTogether(w: string)
  {
    Encloses(w) && forall i: nat :: !OrAtTop(w, i)
  }
}
