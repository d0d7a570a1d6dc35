/**
 * What the SQL dialects produce: a statement with its positional binds and
 * the way JDBC executes it, and the render context that hands out the
 * placeholder names ":b1", ":b2", ... while collecting the binds in order.
 */
module SqlRender {
  import opened Strings
  import opened Values

  /** How a statement is executed: as a query, as an update, with generated keys, or reading one returned value. */
  datatype ExecKind = QUERY | UPDATE | UPDATE_GENERATED_KEYS | QUERY_ONE_VALUE

  /** SqlStatement; the two-argument form is a QUERY. */
  datatype SqlStatement = SqlStatement(sql: string, binds: seq<Bind>, execKind: ExecKind)

  /** A rendered predicate and the binds its placeholders stand for. */
  datatype Rendered = Rendered(sql: string, binds: seq<Bind>)

  /** A fragment under a NOT: "NOT (" ... ")" when negated, the fragment itself otherwise. */
  function NotWrap(sql: string, not: bool): (r: string)
    ensures not ==> |r| == |sql| + 6 && r[..5] == "NOT (" && r[5..|r| - 1] == sql && r[|r| - 1] == ')'
    ensures !not ==> r == sql
  {
    if not then "NOT (" + sql + ")" else sql
  }

  /** The placeholder handed out for the bind at index k (counting from 0). */
  function Placeholder(k: nat): (p: string)
    ensures |p| >= 3 && p[..2] == ":b"
  {
    ":b" + NatToString(k + 1)
  }

  lemma {:induction false} NatToStringShape(n: nat)
    ensures n < 10 <==> |NatToString(n)| == 1
  {
    if n >= 10 {
      assert |NatToString(n)| == |NatToString(n / 10)| + 1;
    }
  }

  /** Decimal spelling is one-to-one. */
  lemma {:induction false} NatToStringInjective(a: nat, b: nat)
    requires NatToString(a) == NatToString(b)
    ensures a == b
    decreases a
  {
    NatToStringShape(a);
    NatToStringShape(b);
    if a >= 10 {
      var s := NatToString(a);
      assert s == NatToString(a / 10) + [Digit(a % 10)];
      assert s == NatToString(b / 10) + [Digit(b % 10)];
      assert s[..|s| - 1] == NatToString(a / 10) == NatToString(b / 10);
      NatToStringInjective(a / 10, b / 10);
      assert Digit(a % 10) == s[|s| - 1] == Digit(b % 10);
      assert "0123456789"[a % 10] == "0123456789"[b % 10];
    } else {
      assert "0123456789"[a] == "0123456789"[b];
    }
  }

  /** Two binds never share a placeholder name. */
  lemma PlaceholdersDistinct(i: nat, j: nat)
    requires i != j
    ensures Placeholder(i) != Placeholder(j)
  {
    if Placeholder(i) == Placeholder(j) {
      assert NatToString(i + 1) == Placeholder(i)[2..] == Placeholder(j)[2..] == NatToString(j + 1);
      NatToStringInjective(i + 1, j + 1);
    }
  }

  /** RenderCtx: a counter that starts at 1 and the binds handed out so far. */
  class RenderCtx {
    var n: nat
    var binds: seq<Bind>

    /** The counter is always the number of the next placeholder. */
    ghost predicate Valid()
      reads this
    {
      n == |binds| + 1
    }

    constructor()
      ensures Valid() && binds == []
    {
      n := 1;
      binds := [];
    }

    /** add: records the bind and returns its placeholder, ":b" and the bind's position from 1. */
    method Add(b: Bind) returns (p: string)
      requires Valid()
      modifies this
      ensures Valid()
      ensures binds == old(binds) + [b]
      ensures p == Placeholder(|old(binds)|)
    {
      binds := binds + [b];
      p := ":b" + NatToString(n);
      n := n + 1;
    }
  }
}
