/**
 * The DML half of the JDBC dialect: INSERT, UPDATE and DELETE rendered from
 * the planners' statements, the Postgres upsert (INSERT ... ON CONFLICT DO
 * UPDATE), and the WHERE clause taken from the filter renderer. Every
 * statement's binds are positional: JDBC binds them in the order their
 * placeholders appear, so the SET placeholders and the WHERE placeholders
 * of an update may share names (both count from ":b1").
 */
module JdbcDml {
  import opened Wrappers
  import opened Strings
  import opened Values
  import opened Authoring
  import opened QueryAst
  import opened DmlAst
  import opened SqlRender
  import opened PostgresDialect
  import opened JdbcPredicate
  import SqlParams
  import opened SqlParens

  const NoInsertColumns := "Insert has no columns"
  const NoSetColumns := "Update has no SET columns"
  const NoConflictColumns := "Upsert has no conflict columns"

  /*
   * Parentheses.
   */

  /**
   * stripParensIfAny as written: the trimmed text loses its first and last
   * character whenever it starts with "(" and ends with ")", whether or not
   * the two belong together.
   */
  function StripParensIfAny(s: string): (r: string)
    ensures |r| <= |s|
  {
    var t := Trim(s);
    if |t| >= 2 && t[0] == '(' && t[|t| - 1] == ')' then t[1..|t| - 1] else t
  }

  /** stripParensIfAny as intended: the outer pair goes only when it encloses the whole text. */
  function StripMatchingParens(s: string): (r: string)
    ensures |r| <= |s|
  {
    var t := Trim(s);
    if Encloses(t) then t[1..|t| - 1] else t
  }

  /** Inside an enclosing pair, a balanced text holds a balanced body. */
  lemma EnclosedBody(t: string)
    requires Balanced(t) && Encloses(t)
    ensures Balanced(t[1..|t| - 1])
  {
    var u := t[1..|t| - 1];
    forall i | 0 <= i <= |u|
      ensures Net(u[..i]) == Net(t[..i + 1]) - 1
    {
      assert t[..i + 1] == t[..1] + u[..i];
      NetAppend(t[..1], u[..i]);
      assert t[..1] == "(";
    }
    assert u[..|u|] == u;
    assert t == t[..|t| - 1] + [t[|t| - 1]];
  }

  /** The corrected strip never unbalances a balanced text. */
  lemma StripKeepsBalance(s: string)
    requires Balanced(Trim(s))
    ensures Balanced(StripMatchingParens(s))
  {
    var t := Trim(s);
    if Encloses(t) {
      EnclosedBody(t);
    }
  }

  /** The corrected strip still unwraps what a group of several children renders to. */
  lemma StripUnwrapsGroup(x: string)
    requires Balanced(x)
    ensures StripMatchingParens("(" + x + ")") == x
  {
    var t := "(" + x + ")";
    BalancedWrap(x);
    TrimStable(t);
  }

  /** The shape listSql gives "(a) IN" over one value. */
  lemma ListInShape(p: string)
    requires p == Placeholder(0)
    ensures ListText("(a)", "IN", 1, false, 0) == "(a)" + " IN " + ("(" + p + ")")
  {
    assert Placeholders(0, 1) == [p];
  }

  /** A parenthesised column, an operator and a parenthesised placeholder make a balanced text. */
  lemma InListBalanced(s: string, a: string, op: string, p: string)
    requires s == ("(" + a + ")") + op + ("(" + p + ")")
    requires '(' !in a && ')' !in a && '(' !in op && ')' !in op && '(' !in p && ')' !in p
    ensures Balanced(s)
  {
    NoParensBalanced(a);
    NoParensBalanced(op);
    NoParensBalanced(p);
    BalancedWrap(a);
    BalancedWrap(p);
    BalancedConcat("(" + a + ")", op);
    BalancedConcat(("(" + a + ")") + op, "(" + p + ")");
  }

  /** A trimmed text starting with "(" and ending with ")" loses both under the as-written strip. */
  lemma StripsFirstAndLast(s: string)
    requires |s| >= 2 && s[0] == '(' && s[|s| - 1] == ')'
    ensures StripParensIfAny(s) == s[1..|s| - 1]
  {
    TrimStable(s);
  }

  /** A text whose second character closes a parenthesis it never opened is unbalanced. */
  lemma ClosesEarly(u: string)
    requires |u| >= 2 && Depth(u[0]) == 0 && u[1] == ')'
    ensures !Balanced(u)
  {
    assert u[..2][..1] == u[..1];
    assert u[..1][..0] == [];
    assert Net(u[..1]) == Depth(u[0]);
    assert Net(u[..2]) == Net(u[..1]) + Depth(u[1]);
  }

  /** A text that closes its first "(" at its third character is not enclosed by it. */
  lemma ClosedAtThree(t: string)
    requires |t| > 3 && t[0] == '(' && Depth(t[1]) == 0 && t[2] == ')'
    ensures !Encloses(t)
  {
    assert t[..3][..2] == t[..2];
    assert t[..2][..1] == t[..1];
    assert t[..1][..0] == [];
    assert Net(t[..1]) == 1;
    assert Net(t[..2]) == Net(t[..1]) + Depth(t[1]);
    assert Net(t[..3]) == Net(t[..2]) + Depth(t[2]);
  }

  /** What the two strips make of a text that opens with "(a)" and ends with ")": the as-written one unbalances it, the corrected one leaves it. */
  lemma InListStrips(s: string)
    requires |s| > 3 && s[0] == '(' && s[1] == 'a' && s[2] == ')' && s[|s| - 1] == ')'
    ensures !Balanced(StripParensIfAny(s))
    ensures StripMatchingParens(s) == s
  {
    StripsFirstAndLast(s);
    ClosesEarly(s[1..|s| - 1]);
    ClosedAtThree(s);
    TrimStable(s);
  }

  /** The fragment listSql renders for "(a) IN" over one value: balanced, and spoilt by the as-written strip. */
  lemma StripParensIfAnyBreaksList()
    ensures Balanced(ListText("(a)", "IN", 1, false, 0))
    ensures !Balanced(StripParensIfAny(ListText("(a)", "IN", 1, false, 0)))
    ensures StripMatchingParens(ListText("(a)", "IN", 1, false, 0)) == ListText("(a)", "IN", 1, false, 0)
  {
    var p := Placeholder(0);
    ListInShape(p);
    InListBreaks(ListText("(a)", "IN", 1, false, 0), p);
  }

  /** "(a) IN (p)" for a placeholder p: balanced, unbalanced by the as-written strip, kept by the corrected one. */
  lemma InListBreaks(s: string, p: string)
    requires p == Placeholder(0)
    requires s == "(a)" + " IN " + ("(" + p + ")")
    ensures Balanced(s) && !Balanced(StripParensIfAny(s)) && StripMatchingParens(s) == s
  {
    PlaceholderNoParens(p);
    InListBalanced(s, "a", " IN ", p);
    assert s[0] == '(' && s[1] == 'a' && s[2] == ')' && s[|s| - 1] == ')';
    InListStrips(s);
  }

  lemma PlaceholderNoParens(p: string)
    requires p == Placeholder(0)
    ensures '(' !in p && ')' !in p
  {
    assert p == ":b" + NatToString(1);
  }

  /*
   * INSERT, UPDATE, DELETE, upsert.
   */

  /** The columns' binds, in column order. */
  function ColumnBinds(cols: seq<ColumnBind>): (r: seq<Bind>)
    ensures |r| == |cols| && forall i :: 0 <= i < |cols| ==> r[i] == cols[i].bind
  {
    seq(|cols|, i requires 0 <= i < |cols| => cols[i].bind)
  }

  /** The columns' names, quoted, in column order. */
  function QuotedColumns(cols: seq<ColumnBind>): (r: seq<string>)
    ensures |r| == |cols| && forall i :: 0 <= i < |cols| ==> r[i] == QuoteIdent(cols[i].column)
  {
    seq(|cols|, i requires 0 <= i < |cols| => QuoteIdent(cols[i].column))
  }

  /** One "column = placeholder" assignment per column, numbered from ":b1". */
  function SetItems(cols: seq<ColumnBind>): (r: seq<string>)
    ensures |r| == |cols| && forall i :: 0 <= i < |cols| ==> r[i] == QuoteIdent(cols[i].column) + " = " + Placeholder(i)
  {
    seq(|cols|, i requires 0 <= i < |cols| => QuoteIdent(cols[i].column) + " = " + Placeholder(i))
  }

  /** The INSERT text before any RETURNING. */
  function InsertText(table: string, cols: seq<ColumnBind>): string
  {
    "INSERT INTO " + QuoteIdent(table) + " (" + Join(QuotedColumns(cols), ", ") + ") VALUES ("
      + Join(Placeholders(0, |cols|), ", ") + ")"
  }

  /** renderInsert, with Postgres's RETURNING and exec kind. */
  function InsertOf(ins: InsertAst): (r: Result<SqlStatement>)
  {
    if ins.columns == [] then Err(IllegalArgument(NoInsertColumns))
    else
      Ok(SqlStatement(ApplyInsertReturning(InsertText(ins.table, ins.columns), ins.returningColumns),
        ColumnBinds(ins.columns), InsertExecKind(ins.returningColumns)))
  }

  /** renderInsert: one quoted column, one placeholder and one bind per column bind, in order. */
  method RenderInsert(ins: InsertAst) returns (r: Result<SqlStatement>)
    ensures r == InsertOf(ins)
  {
    if ins.columns == [] {
      return Err(IllegalArgument(NoInsertColumns));
    }
    var cols: seq<string> := [];
    var ph: seq<string> := [];
    var binds: seq<Bind> := [];
    var n := 1;
    var i := 0;
    while i < |ins.columns|
      invariant 0 <= i <= |ins.columns| && n == i + 1
      invariant cols == QuotedColumns(ins.columns[..i])
      invariant ph == Placeholders(0, i)
      invariant binds == ColumnBinds(ins.columns[..i])
    {
      var cb := ins.columns[i];
      cols := cols + [QuoteIdent(cb.column)];
      ph := ph + [":b" + NatToString(n)];
      binds := binds + [cb.bind];
      n := n + 1;
      i := i + 1;
    }
    assert ins.columns[..i] == ins.columns;
    var sql := "INSERT INTO " + QuoteIdent(ins.table) + " (" + Join(cols, ", ") + ") VALUES (" + Join(ph, ", ") + ")";
    sql := ApplyInsertReturning(sql, ins.returningColumns);
    r := Ok(SqlStatement(sql, binds, InsertExecKind(ins.returningColumns)));
  }

  /**
   * A statement followed by its WHERE predicate: a failed predicate fails
   * the statement, a blank one is left out, any other is appended through
   * the as-written strip (a leading "(" and a trailing ")" removed) with its
   * binds after the statement's own.
   */
  function WithWhere(head: string, binds: seq<Bind>, wp: Result<Rendered>): (r: Result<SqlStatement>)
  {
    var w :- wp;
    if IsBlank(w.sql) then Ok(SqlStatement(head, binds, UPDATE))
    else Ok(SqlStatement(head + " WHERE " + StripParensIfAny(w.sql), binds + w.binds, UPDATE))
  }

  method AppendWhere(head: string, binds0: seq<Bind>, wp: Result<Rendered>) returns (r: Result<SqlStatement>)
    ensures r == WithWhere(head, binds0, wp)
  {
    if wp.Err? {
      return Err(wp.error);
    }
    var sql := head;
    var binds := binds0;
    if !IsBlank(wp.value.sql) {
      sql := sql + " WHERE " + StripParensIfAny(wp.value.sql);
      binds := binds + wp.value.binds;
    }
    r := Ok(SqlStatement(sql, binds, UPDATE));
  }

  /** renderUpdate: the SET list, then the WHERE predicate (its placeholders counted from ":b1" again). */
  function UpdateOf(ea: EntityAuthoring, view: ViewDef, reg: Registry, upd: UpdateAst): (r: Result<SqlStatement>)
  {
    if upd.sets == [] then Err(IllegalArgument(NoSetColumns))
    else
      WithWhere("UPDATE " + QuoteIdent(upd.table) + " SET " + Join(SetItems(upd.sets), ", "),
        ColumnBinds(upd.sets), PredicateOf(ea, view, reg, upd.where))
  }

  /** The SET list of renderUpdate: one assignment and one bind per column, numbered from ":b1". */
  method SetList(cols: seq<ColumnBind>) returns (sets: seq<string>, binds: seq<Bind>)
    ensures sets == SetItems(cols) && binds == ColumnBinds(cols)
  {
    sets := [];
    binds := [];
    var n := 1;
    var i := 0;
    while i < |cols|
      invariant 0 <= i <= |cols| && n == i + 1
      invariant sets == SetItems(cols[..i])
      invariant binds == ColumnBinds(cols[..i])
    {
      var cb := cols[i];
      var item := QuoteIdent(cb.column) + " = :b" + NatToString(n);
      SetListStep(cols, i, n, item);
      sets := sets + [item];
      binds := binds + [cb.bind];
      i, n := n, n + 1;
    }
    assert cols[..i] == cols;
  }

  /** One more column: one more assignment, numbered by its position, and its bind. */
  lemma SetListStep(cols: seq<ColumnBind>, i: nat, next: nat, item: string)
    requires i < |cols| && next == i + 1
    requires item == QuoteIdent(cols[i].column) + " = :b" + NatToString(next)
    ensures SetItems(cols[..next]) == SetItems(cols[..i]) + [item]
    ensures ColumnBinds(cols[..next]) == ColumnBinds(cols[..i]) + [cols[i].bind]
  {
    assert item == QuoteIdent(cols[i].column) + " = " + Placeholder(i);
    assert cols[..next][..i] == cols[..i];
  }

  method RenderUpdate(ea: EntityAuthoring, view: ViewDef, reg: Registry, upd: UpdateAst) returns (r: Result<SqlStatement>)
    ensures r == UpdateOf(ea, view, reg, upd)
  {
    if upd.sets == [] {
      return Err(IllegalArgument(NoSetColumns));
    }
    var sets, binds := SetList(upd.sets);
    var sql := "UPDATE " + QuoteIdent(upd.table) + " SET " + Join(sets, ", ");
    var wp := RenderPredicate(ea, view, reg, upd.where);
    r := AppendWhere(sql, binds, wp);
  }

  /** renderDelete: the table, then the WHERE predicate when it renders to something. */
  function DeleteOf(ea: EntityAuthoring, view: ViewDef, reg: Registry, del: DeleteAst): (r: Result<SqlStatement>)
  {
    WithWhere("DELETE FROM " + QuoteIdent(del.table), [], PredicateOf(ea, view, reg, del.where))
  }

  method RenderDelete(ea: EntityAuthoring, view: ViewDef, reg: Registry, del: DeleteAst) returns (r: Result<SqlStatement>)
    ensures r == DeleteOf(ea, view, reg, del)
  {
    var sql := "DELETE FROM " + QuoteIdent(del.table);
    var wp := RenderPredicate(ea, view, reg, del.where);
    r := AppendWhere(sql, [], wp);
  }

  /** An update binds each SET column in order, then every operand of its WHERE clause. */
  lemma UpdateBindCount(ea: EntityAuthoring, view: ViewDef, reg: Registry, upd: UpdateAst)
    requires UpdateOf(ea, view, reg, upd).Ok?
    ensures |UpdateOf(ea, view, reg, upd).value.binds| == |upd.sets| + FilterBinds(upd.where)
    ensures UpdateOf(ea, view, reg, upd).value.binds[..|upd.sets|] == ColumnBinds(upd.sets)
    ensures UpdateOf(ea, view, reg, upd).value.execKind == UPDATE
  {
    PredicateBinds(ea, view, reg, upd.where);
  }

  /** A delete binds every operand of its WHERE clause and nothing else. */
  lemma DeleteBindCount(ea: EntityAuthoring, view: ViewDef, reg: Registry, del: DeleteAst)
    requires DeleteOf(ea, view, reg, del).Ok?
    ensures |DeleteOf(ea, view, reg, del).value.binds| == FilterBinds(del.where)
    ensures DeleteOf(ea, view, reg, del).value.execKind == UPDATE
  {
    PredicateBinds(ea, view, reg, del.where);
  }

  /** An update or delete fails exactly when its WHERE predicate fails (past the SET check). */
  lemma UpdateFailsWithPredicate(ea: EntityAuthoring, view: ViewDef, reg: Registry, upd: UpdateAst)
    requires upd.sets != []
    ensures UpdateOf(ea, view, reg, upd).Err? <==> PredicateOf(ea, view, reg, upd.where).Err?
    ensures DeleteOf(ea, view, reg, DeleteAst(upd.table, upd.where)).Err? <==> PredicateOf(ea, view, reg, upd.where).Err?
  {
  }

  /** One "c = EXCLUDED.c" per column. */
  function ExcludedItems(cols: seq<string>): (r: seq<string>)
    ensures |r| == |cols| && forall i :: 0 <= i < |cols| ==> r[i] == QuoteIdent(cols[i]) + " = EXCLUDED." + QuoteIdent(cols[i])
  {
    seq(|cols|, i requires 0 <= i < |cols| => QuoteIdent(cols[i]) + " = EXCLUDED." + QuoteIdent(cols[i]))
  }

  /** The columns an upsert overwrites on conflict: the update columns, or the conflict columns when none are given. */
  function UpdateColumnsOf(ups: UpsertAst): seq<string>
  {
    if ups.updateColumns == [] then ups.conflictColumns else ups.updateColumns
  }

  /** The upsert text over the plain insert text: ON CONFLICT ... DO UPDATE SET ..., then any RETURNING. */
  function UpsertText(insertSql: string, ups: UpsertAst): (r: string)
    ensures insertSql <= r
  {
    var sql := insertSql + " ON CONFLICT (" + Join(QuoteAll(ups.conflictColumns), ", ") + ") DO UPDATE SET "
      + Join(ExcludedItems(UpdateColumnsOf(ups)), ", ");
    if ups.insert.returningColumns == [] then sql
    else sql + " RETURNING " + Join(QuoteAll(ups.insert.returningColumns), ", ")
  }

  /** renderUpsert (Postgres): the plain insert, ON CONFLICT ... DO UPDATE, then RETURNING. */
  function UpsertOf(ups: UpsertAst): (r: Result<SqlStatement>)
  {
    var insertBase :- InsertOf(InsertAst(ups.insert.table, ups.insert.columns, []));
    if ups.conflictColumns == [] then Err(IllegalArgument(NoConflictColumns))
    else
      Ok(SqlStatement(UpsertText(insertBase.sql, ups), insertBase.binds,
        if ups.insert.returningColumns == [] then UPDATE else QUERY_ONE_VALUE))
  }

  /** renderUpsert, appending to the insert text as the StringBuilder does. */
  method RenderUpsert(ups: UpsertAst) returns (r: Result<SqlStatement>)
    ensures r == UpsertOf(ups)
  {
    var ins := ups.insert;
    var insertBase := RenderInsert(InsertAst(ins.table, ins.columns, []));
    if insertBase.Err? {
      return Err(insertBase.error);
    }
    if ups.conflictColumns == [] {
      return Err(IllegalArgument(NoConflictColumns));
    }
    var sql := insertBase.value.sql;
    sql := sql + " ON CONFLICT (";
    sql := sql + Join(QuoteAll(ups.conflictColumns), ", ");
    sql := sql + ") DO UPDATE SET ";
    var updateCols := if ups.updateColumns == [] then ups.conflictColumns else ups.updateColumns;
    sql := sql + Join(ExcludedItems(updateCols), ", ");
    if ins.returningColumns != [] {
      sql := sql + " RETURNING ";
      sql := sql + Join(QuoteAll(ins.returningColumns), ", ");
    }
    assert sql == UpsertText(insertBase.value.sql, ups);
    var kind := if ins.returningColumns == [] then UPDATE else QUERY_ONE_VALUE;
    r := Ok(SqlStatement(sql, insertBase.value.binds, kind));
  }

  /**
   * An upsert is its plain insert (same text, same binds) followed by the
   * conflict clause; it is refused without insert columns first, then
   * without conflict columns; it returns a value iff the insert asks for
   * returning columns.
   */
  lemma UpsertExtendsInsert(ups: UpsertAst)
    ensures ups.insert.columns == [] ==> UpsertOf(ups) == Err(IllegalArgument(NoInsertColumns))
    ensures ups.insert.columns != [] && ups.conflictColumns == [] ==> UpsertOf(ups) == Err(IllegalArgument(NoConflictColumns))
    ensures UpsertOf(ups).Ok? ==>
      var plain := InsertOf(InsertAst(ups.insert.table, ups.insert.columns, [])).value;
      && plain.sql <= UpsertOf(ups).value.sql
      && UpsertOf(ups).value.binds == ColumnBinds(ups.insert.columns)
      && (UpsertOf(ups).value.execKind == QUERY_ONE_VALUE <==> ups.insert.returningColumns != [])
  {
  }

  /** With no update columns the conflict columns are the ones overwritten, each from EXCLUDED. */
  lemma UpsertFallsBackToConflictColumns(ups: UpsertAst, i: nat)
    requires ups.updateColumns == [] && i < |ups.conflictColumns|
    ensures ExcludedItems(UpdateColumnsOf(ups))[i] == QuoteIdent(ups.conflictColumns[i]) + " = EXCLUDED." + QuoteIdent(ups.conflictColumns[i])
  {
  }

  /** renderDml: each statement kind to its renderer (the upsert is Postgres's). */
  function DmlOf(ea: EntityAuthoring, view: ViewDef, reg: Registry, dml: Dml): (r: Result<SqlStatement>)
  {
    match dml
    case Insert(ins) => InsertOf(ins)
    case Update(upd) => UpdateOf(ea, view, reg, upd)
    case Delete(del) => DeleteOf(ea, view, reg, del)
    case Upsert(ups) => UpsertOf(ups)
  }

  method RenderDml(ea: EntityAuthoring, view: ViewDef, reg: Registry, dml: Dml) returns (r: Result<SqlStatement>)
    ensures r == DmlOf(ea, view, reg, dml)
  {
    match dml
    case Insert(ins) => r := RenderInsert(ins);
    case Update(upd) => r := RenderUpdate(ea, view, reg, upd);
    case Delete(del) => r := RenderDelete(ea, view, reg, del);
    case Upsert(ups) => r := RenderUpsert(ups);
  }

  /*
   * Placeholder marks.
   */

  lemma {:induction false} CountAbsent(s: string, c: char)
    requires c !in s
    ensures SqlParams.Count(s, c) == 0
    decreases |s|
  {
    if s != [] {
      CountAbsent(s[1..], c);
    }
  }

  lemma {:induction false} ReplaceKeepsAbsent(s: string, c: char, rep: string, x: char)
    requires x !in s && x !in rep
    ensures x !in ReplaceChar(s, c, rep)
    decreases |s|
  {
    if s != [] {
      ReplaceKeepsAbsent(s[1..], c, rep, x);
    }
  }

  /** A quoted name holds a ':' only where the name does. */
  lemma QuotedNoColon(ident: string)
    requires ':' !in ident
    ensures SqlParams.Count(QuoteIdent(ident), ':') == 0
  {
    ReplaceKeepsAbsent(ident, '"', "\"\"", ':');
    CountAbsent(QuoteIdent(ident), ':');
  }

  lemma PlaceholderOneColon(k: nat)
    ensures SqlParams.Count(Placeholder(k), ':') == 1
  {
    var d := NatToString(k + 1);
    assert ':' !in d;
    CountAbsent(d, ':');
    SqlParams.CountAppend(":b", d, ':');
  }

  /** Joined pieces without marks, over a separator without marks, hold none. */
  lemma {:induction false} CountJoinNone(parts: seq<string>, sep: string, c: char)
    requires SqlParams.Count(sep, c) == 0
    requires forall i :: 0 <= i < |parts| ==> SqlParams.Count(parts[i], c) == 0
    ensures SqlParams.Count(Join(parts, sep), c) == 0
    decreases |parts|
  {
    if |parts| > 1 {
      CountJoinNone(parts[1..], sep, c);
      SqlParams.CountAppend(parts[0], sep, c);
      SqlParams.CountAppend(parts[0] + sep, Join(parts[1..], sep), c);
    }
  }

  /** Joined pieces with one mark each, over a separator without marks, hold one mark per piece. */
  lemma {:induction false} CountJoinOne(parts: seq<string>, sep: string, c: char)
    requires SqlParams.Count(sep, c) == 0
    requires forall i :: 0 <= i < |parts| ==> SqlParams.Count(parts[i], c) == 1
    ensures SqlParams.Count(Join(parts, sep), c) == |parts|
    decreases |parts|
  {
    if |parts| > 1 {
      CountJoinOne(parts[1..], sep, c);
      SqlParams.CountAppend(parts[0], sep, c);
      SqlParams.CountAppend(parts[0] + sep, Join(parts[1..], sep), c);
    }
  }

  /** Marks add up along a text glued from seven pieces. */
  lemma CountSeven(a: string, b: string, c: string, d: string, e: string, f: string, g: string, x: char)
    ensures SqlParams.Count(a + b + c + d + e + f + g, x) ==
      SqlParams.Count(a, x) + SqlParams.Count(b, x) + SqlParams.Count(c, x) + SqlParams.Count(d, x)
      + SqlParams.Count(e, x) + SqlParams.Count(f, x) + SqlParams.Count(g, x)
  {
    SqlParams.CountAppend(a, b, x);
    SqlParams.CountAppend(a + b, c, x);
    SqlParams.CountAppend(a + b + c, d, x);
    SqlParams.CountAppend(a + b + c + d, e, x);
    SqlParams.CountAppend(a + b + c + d + e, f, x);
    SqlParams.CountAppend(a + b + c + d + e + f, g, x);
  }

  /** Quoted names without ':' joined by ", " hold no ':'. */
  lemma QuotedJoinNoColon(names: seq<string>, quoted: seq<string>)
    requires |quoted| == |names|
    requires forall i :: 0 <= i < |names| ==> quoted[i] == QuoteIdent(names[i]) && ':' !in names[i]
    ensures SqlParams.Count(Join(quoted, ", "), ':') == 0
  {
    CountAbsent(", ", ':');
    forall i | 0 <= i < |quoted|
      ensures SqlParams.Count(quoted[i], ':') == 0
    {
      QuotedNoColon(names[i]);
    }
    CountJoinNone(quoted, ", ", ':');
  }

  /** The placeholders joined by ", " hold one ':' each. */
  lemma PlaceholdersMarks(n: nat)
    ensures SqlParams.Count(Join(Placeholders(0, n), ", "), ':') == n
  {
    var ph := Placeholders(0, n);
    CountAbsent(", ", ':');
    forall i | 0 <= i < n
      ensures SqlParams.Count(ph[i], ':') == 1
    {
      PlaceholderOneColon(i);
    }
    CountJoinOne(ph, ", ", ':');
  }

  /** Quoted column names without ':' joined by ", " hold no ':'. */
  lemma QuotedColumnsNoColon(cols: seq<ColumnBind>)
    requires forall i :: 0 <= i < |cols| ==> ':' !in cols[i].column
    ensures SqlParams.Count(Join(QuotedColumns(cols), ", "), ':') == 0
  {
    var q := QuotedColumns(cols);
    CountAbsent(", ", ':');
    forall i | 0 <= i < |q|
      ensures SqlParams.Count(q[i], ':') == 0
    {
      QuotedNoColon(cols[i].column);
    }
    CountJoinNone(q, ", ", ':');
  }

  /** The INSERT text holds one ':' per column when no name holds one. */
  lemma InsertTextMarks(table: string, cols: seq<ColumnBind>)
    requires ':' !in table
    requires forall i :: 0 <= i < |cols| ==> ':' !in cols[i].column
    ensures SqlParams.Count(InsertText(table, cols), ':') == |cols|
  {
    QuotedColumnsNoColon(cols);
    PlaceholdersMarks(|cols|);
    QuotedNoColon(table);
    InsertIntoNoMark();
    OpenNoMark();
    ValuesNoMark();
    CloseNoMark();
    CountSeven("INSERT INTO ", QuoteIdent(table), " (", Join(QuotedColumns(cols), ", "), ") VALUES (",
      Join(Placeholders(0, |cols|), ", "), ")", ':');
  }

  lemma InsertIntoNoMark()
    ensures SqlParams.Count("INSERT INTO ", ':') == 0
  {
    CountAbsent("INSERT INTO ", ':');
  }

  lemma OpenNoMark()
    ensures SqlParams.Count(" (", ':') == 0
  {
    CountAbsent(" (", ':');
  }

  lemma ValuesNoMark()
    ensures SqlParams.Count(") VALUES (", ':') == 0
  {
    CountAbsent(") VALUES (", ':');
  }

  lemma CloseNoMark()
    ensures SqlParams.Count(")", ':') == 0
  {
    CountAbsent(")", ':');
  }

  /**
   * With no ':' in the table, column or returning names, an insert's text
   * holds exactly one ':' per bind, each opening one of its placeholders.
   */
  lemma InsertMarksMatchBinds(ins: InsertAst)
    requires InsertOf(ins).Ok?
    requires ':' !in ins.table
    requires forall i :: 0 <= i < |ins.columns| ==> ':' !in ins.columns[i].column
    requires forall i :: 0 <= i < |ins.returningColumns| ==> ':' !in ins.returningColumns[i]
    ensures SqlParams.Count(InsertOf(ins).value.sql, ':') == |InsertOf(ins).value.binds|
  {
    var text := InsertText(ins.table, ins.columns);
    InsertTextMarks(ins.table, ins.columns);
    if ins.returningColumns != [] {
      QuotedJoinNoColon(ins.returningColumns, QuoteAll(ins.returningColumns));
      CountAbsent(" RETURNING ", ':');
      SqlParams.CountAppend(text, " RETURNING ", ':');
      SqlParams.CountAppend(text + " RETURNING ", Join(QuoteAll(ins.returningColumns), ", "), ':');
    }
  }
}
