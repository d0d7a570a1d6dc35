/**
 * The SELECT half of the JDBC dialect: the base statement of a view (its own
 * SQL, or one derived from the entity's table and the view's mapping), then
 * the filter, the sort and the page appended to it.
 */
module JdbcSelect {
  import opened Wrappers
  import opened Strings
  import opened Values
  import opened Authoring
  import opened QueryAst
  import opened SqlRender
  import opened PostgresDialect
  import opened JdbcPredicate
  import SqlParams
  import ViewMappings

  const SqlViewNotText := "sqlView.sql must be a non-blank SQL string for JDBC view: "
  const NoSource := "EntityAuthoring has no source for JDBC view: "

  /*
   * The base statement of a view with its own SQL.
   */

  /** The projection: a non-blank string, else every column. */
  function Projection(p: Value): (r: string)
    ensures r == "*" || (p == VStr(r) && !IsBlank(r))
    ensures p.VStr? && !IsBlank(p.s) ==> r == p.s
  {
    if p.VStr? && !IsBlank(p.s) then p.s else "*"
  }

  /** The view's SQL is a whole query when, trimmed and in lower case, it starts with "select" or "with". */
  predicate FullQuery(baseSql: string)
  {
    var lower := ToLower(Trim(baseSql));
    StartsWith(lower, "select") || StartsWith(lower, "with")
  }

  /**
   * A whole query is used as it is under the "*" projection and wrapped as a
   * derived table otherwise; any other text (a FROM clause and what follows)
   * gets the projection put in front of it.
   */
  function ViewSelectText(baseSql: string, projection: string): string
  {
    if FullQuery(baseSql) then
      if projection == "*" then baseSql else "SELECT " + projection + " FROM (" + baseSql + ") nativa_base"
    else "SELECT " + projection + " " + baseSql
  }

  /** The statement of a view with its own SQL: the text, and one bind per named param it mentions. */
  function SqlViewSelect(view: ViewDef, sv: SqlViewDef, params: Option<seq<Entry>>): (r: Result<SqlStatement>)
    ensures !sv.sql.VStr? || IsBlank(sv.sql.s) ==> r == Err(IllegalArgument(SqlViewNotText + view.id))
    ensures r.Ok? ==> r.value.execKind == QUERY
  {
    if !sv.sql.VStr? || IsBlank(sv.sql.s) then Err(IllegalArgument(SqlViewNotText + view.id))
    else
      var sql := ViewSelectText(sv.sql.s, Projection(sv.projection));
      var binds :- SqlParams.BindsOf(params.UnwrapOr([]), SqlParams.Names(SqlParams.Tokens(sql)));
      Ok(SqlStatement(sql, binds, QUERY))
  }

  /*
   * The base statement derived from the entity and the view's mapping.
   */

  /** The columns a Ref field's mapping lists under "fields", when it has such a map. */
  function NestedFields(view: ViewDef, field: string): seq<Entry>
  {
    match GetOrNull(view.mapping, field)
    case VMap(nested) =>
      (match GetOrNull(nested, "fields")
       case VMap(fm) => fm
       case _ => [])
    case _ => []
  }

  /** One item per nested column, aliased "field.child". */
  function NestedItems(field: string, fm: seq<Entry>): (r: seq<string>)
    ensures |r| == |fm|
    ensures forall i :: 0 <= i < |fm| ==> r[i] == Show(fm[i].val) + " AS " + QuoteIdent(field + "." + fm[i].key)
  {
    seq(|fm|, i requires 0 <= i < |fm| => Show(fm[i].val) + " AS " + QuoteIdent(field + "." + fm[i].key))
  }

  /**
   * The items one field contributes: a Ref field its explicitly mapped
   * nested columns, any other field its column under its own name unless the
   * mapping gives it a blank one.
   */
  function FieldItems(view: ViewDef, f: Field): seq<string>
  {
    if f.def.typeRef.Ref? then NestedItems(f.name, NestedFields(view, f.name))
    else
      var col := ViewMappings.Ref(view, f.name);
      if IsBlank(col) then [] else [col + " AS " + QuoteIdent(f.name)]
  }

  /** The items each field gives, concatenated in the fields' iteration order. */
  function Concat(items: Field -> seq<string>, fields: seq<Field>): seq<string>
  {
    if fields == [] then [] else Concat(items, fields[..|fields| - 1]) + items(fields[|fields| - 1])
  }

  /** The items of the entity's fields. */
  function ItemsOf(view: ViewDef, fields: seq<Field>): seq<string>
  {
    Concat(f => FieldItems(view, f), fields)
  }

  /** The derived SELECT over the quoted table; no item at all selects "*". */
  function DerivedSelectText(source: string, items: seq<string>): string
  {
    "SELECT " + Join(if items == [] then ["*"] else items, ", ") + " FROM " + QuoteIdent(source)
  }

  /** baseSelectSql: the view's own SQL when it has one, else the derived statement, which binds nothing. */
  function BaseSelectOf(ea: EntityAuthoring, view: ViewDef, params: Option<seq<Entry>>): (r: Result<SqlStatement>)
    ensures view.sqlView.None? ==> (r.Err? <==> IsBlank(ea.source))
    ensures view.sqlView.None? && r.Err? ==> r.error == IllegalArgument(NoSource + view.id)
    ensures view.sqlView.None? && r.Ok? ==> r.value.binds == []
    ensures r.Ok? ==> r.value.execKind == QUERY
  {
    match view.sqlView
    case Some(sv) => SqlViewSelect(view, sv, params)
    case None =>
      if IsBlank(ea.source) then Err(IllegalArgument(NoSource + view.id))
      else Ok(SqlStatement(DerivedSelectText(ea.source, ItemsOf(view, ea.fields)), [], QUERY))
  }

  /*
   * The named params of a view's SQL survive its projection.
   */

  /** A text without ":" or "'" only copies characters, so what follows is scanned as if it stood alone. */
  /** An identifier run does not reach into a tail that starts with no identifier character. */
  lemma {:induction false} IdentEndBefore(b: string, suf: string, j: nat)
    requires j <= |b|
    requires suf == [] || !SqlParams.IsIdentPart(suf[0])
    ensures SqlParams.IdentEnd(b + suf, j) == SqlParams.IdentEnd(b, j)
    decreases |b| - j
  {
    if j < |b| {
      assert (b + suf)[j] == b[j];
      IdentEndBefore(b, suf, j + 1);
    } else if suf != [] {
      assert (b + suf)[j] == suf[0];
    }
  }

  /** One scanning step inside b looks no further than a tail that cannot continue a token. */
  lemma StepBefore(b: string, suf: string, i: nat, q: bool)
    requires i < |b|
    requires ':' !in suf
    requires suf == [] || (!SqlParams.IsIdentPart(suf[0]) && suf[0] != '\'')
    ensures SqlParams.Step(b + suf, i, q) == SqlParams.Step(b, i, q)
  {
    var s := b + suf;
    assert s[i] == b[i];
    if i + 1 < |b| {
      assert s[i + 1] == b[i + 1];
      if i + 2 <= |b| {
        IdentEndBefore(b, suf, i + 2);
        if !q && b[i] == ':' && b[i + 1] != ':' && SqlParams.IsIdentStart(b[i + 1]) {
          var end := SqlParams.IdentEnd(b, i + 2);
          assert s[i + 1..end] == b[i + 1..end];
        }
      }
    } else if suf != [] {
      assert s[i + 1] == suf[0];
    }
  }

  /** A tail without ":" that cannot continue a token adds no named param. */
  lemma {:induction false} PlainSuffixNames(b: string, suf: string, i: nat, q: bool)
    requires i <= |b|
    requires ':' !in suf
    requires suf == [] || (!SqlParams.IsIdentPart(suf[0]) && suf[0] != '\'')
    ensures SqlParams.Names(SqlParams.Lex(b + suf, i, q)) == SqlParams.Names(SqlParams.Lex(b, i, q))
    decreases |b| - i
  {
    if i == |b| {
      SqlParams.NoColonNoNames(b + suf, i, q);
    } else {
      StepBefore(b, suf, i, q);
      SqlParams.NamesStep(b + suf, i, q);
      SqlParams.NamesStep(b, i, q);
      var (_, j, q') := SqlParams.Step(b, i, q);
      PlainSuffixNames(b, suf, j, q');
    }
  }

  lemma WrapPrefixPlain(p: string)
    requires ':' !in p && '\'' !in p
    ensures ':' !in "SELECT " + p + " FROM (" && '\'' !in "SELECT " + p + " FROM ("
  {
  }

  lemma FromPrefixPlain(p: string)
    requires ':' !in p && '\'' !in p
    ensures ':' !in "SELECT " + p + " " && '\'' !in "SELECT " + p + " "
  {
  }

  lemma WrapSplit(baseSql: string, projection: string, pre: string, suf: string)
    requires pre == "SELECT " + projection + " FROM (" && suf == ") nativa_base"
    ensures "SELECT " + projection + " FROM (" + baseSql + ") nativa_base" == pre + (baseSql + suf)
  {
  }

  lemma WrapSuffixPlain(suf: string)
    requires suf == ") nativa_base"
    ensures ':' !in suf && !SqlParams.IsIdentPart(suf[0]) && suf[0] != '\''
  {
  }

  /**
   * With a projection that holds no ":" and no quote, the statement names
   * exactly the params the view's SQL names, in the same order: wrapping
   * the view neither adds a bind nor loses one.
   */
  lemma ViewParamsKept(baseSql: string, projection: string)
    requires ':' !in projection && '\'' !in projection
    ensures SqlParams.Names(SqlParams.Tokens(ViewSelectText(baseSql, projection))) == SqlParams.Names(SqlParams.Tokens(baseSql))
  {
    if FullQuery(baseSql) {
      if projection != "*" {
        var pre := "SELECT " + projection + " FROM (";
        var suf := ") nativa_base";
        WrapPrefixPlain(projection);
        WrapSuffixPlain(suf);
        WrapSplit(baseSql, projection, pre, suf);
        SqlParams.PlainPrefixNames(pre, baseSql + suf);
        PlainSuffixNames(baseSql, suf, 0, false);
      }
    } else {
      var pre := "SELECT " + projection + " ";
      FromPrefixPlain(projection);
      SqlParams.PlainPrefixNames(pre, baseSql);
    }
  }

  /** With a plain projection, the view's statement binds the params its SQL names, in order, or fails on the first missing one. */
  lemma SqlViewBindsItsParams(view: ViewDef, sv: SqlViewDef, params: Option<seq<Entry>>)
    requires sv.sql.VStr? && !IsBlank(sv.sql.s)
    requires ':' !in Projection(sv.projection) && '\'' !in Projection(sv.projection)
    ensures var names := SqlParams.Names(SqlParams.Tokens(sv.sql.s));
      && (SqlViewSelect(view, sv, params).Err?
          <==> exists k :: 0 <= k < |names| && !HasKey(params.UnwrapOr([]), names[k]))
      && (SqlViewSelect(view, sv, params).Ok? ==>
          SqlParams.BindsOf(params.UnwrapOr([]), names) == Ok(SqlViewSelect(view, sv, params).value.binds))
  {
    var names := SqlParams.Names(SqlParams.Tokens(sv.sql.s));
    var sql := ViewSelectText(sv.sql.s, Projection(sv.projection));
    ViewParamsKept(sv.sql.s, Projection(sv.projection));
    assert SqlParams.Names(SqlParams.Tokens(sql)) == names;
    SqlParams.MissingParamFails(params.UnwrapOr([]), names);
  }

  /*
   * The derived items, as the loop of baseSelectSql adds them.
   */

  /** The nested columns of one Ref field, appended one by one. */
  method AddNested(items: seq<string>, field: string, fm: seq<Entry>) returns (out: seq<string>)
    ensures out == items + NestedItems(field, fm)
  {
    out := items;
    var j := 0;
    while j < |fm|
      invariant 0 <= j <= |fm|
      invariant out == items + NestedItems(field, fm[..j])
    {
      var childField := fm[j].key;
      var col := Show(fm[j].val);
      var alias := field + "." + childField;
      assert NestedItems(field, fm[..j + 1]) == NestedItems(field, fm[..j]) + [col + " AS " + QuoteIdent(alias)];
      out := out + [col + " AS " + QuoteIdent(alias)];
      j := j + 1;
    }
    assert fm[..j] == fm;
  }

  /** The select items of all fields, in the fields' iteration order. */
  method SelectItems(view: ViewDef, fields: seq<Field>) returns (items: seq<string>)
    ensures items == ItemsOf(view, fields)
  {
    items := [];
    var i := 0;
    while i < |fields|
      invariant 0 <= i <= |fields|
      invariant items == ItemsOf(view, fields[..i])
    {
      var f := fields[i];
      assert fields[..i + 1][..i] == fields[..i];
      if f.def.typeRef.Ref? {
        items := AddNested(items, f.name, NestedFields(view, f.name));
      } else {
        var col := ViewMappings.Ref(view, f.name);
        if !IsBlank(col) {
          items := items + [col + " AS " + QuoteIdent(f.name)];
        }
      }
      i := i + 1;
    }
    assert fields[..i] == fields;
  }

  /** baseSelectSql. */
  method BaseSelect(ea: EntityAuthoring, view: ViewDef, params: Option<seq<Entry>>) returns (r: Result<SqlStatement>)
    ensures r == BaseSelectOf(ea, view, params)
  {
    if view.sqlView.Some? {
      var sv := view.sqlView.value;
      if !sv.sql.VStr? || IsBlank(sv.sql.s) {
        return Err(IllegalArgument(SqlViewNotText + view.id));
      }
      var baseSql := sv.sql.s;
      var projection := "*";
      if sv.projection.VStr? && !IsBlank(sv.projection.s) {
        projection := sv.projection.s;
      }
      var lower := ToLower(Trim(baseSql));
      var fullQuery := StartsWith(lower, "select") || StartsWith(lower, "with");
      var sql;
      if fullQuery {
        sql := if projection == "*" then baseSql else "SELECT " + projection + " FROM (" + baseSql + ") nativa_base";
      } else {
        sql := "SELECT " + projection + " " + baseSql;
      }
      var binds := SqlParams.BindsFor(Some(sql), params);
      if binds.Err? {
        return Err(binds.error);
      }
      return Ok(SqlStatement(sql, binds.value, QUERY));
    }
    if IsBlank(ea.source) {
      return Err(IllegalArgument(NoSource + view.id));
    }
    var items := SelectItems(view, ea.fields);
    return Ok(SqlStatement(DerivedSelectText(ea.source, items), [], QUERY));
  }

  /** An item is in the concatenation exactly when some field gives it. */
  lemma {:induction false} ConcatCover(items: Field -> seq<string>, fields: seq<Field>, x: string)
    ensures x in Concat(items, fields) <==> exists i :: 0 <= i < |fields| && x in items(fields[i])
  {
    if fields != [] {
      var init := fields[..|fields| - 1];
      ConcatCover(items, init, x);
      if exists i :: 0 <= i < |init| && x in items(init[i]) {
        var i :| 0 <= i < |init| && x in items(init[i]);
        assert init[i] == fields[i];
      }
      if exists i :: 0 <= i < |fields| && x in items(fields[i]) {
        var i :| 0 <= i < |fields| && x in items(fields[i]);
        if i < |init| {
          assert init[i] == fields[i];
        }
      }
    }
  }

  /** An item is selected exactly when some field contributes it. */
  lemma ItemsCover(view: ViewDef, fields: seq<Field>, x: string)
    ensures x in ItemsOf(view, fields) <==> exists i :: 0 <= i < |fields| && x in FieldItems(view, fields[i])
  {
    ConcatCover(f => FieldItems(view, f), fields, x);
  }

  /** A scalar field whose column is not blank is selected under its quoted name. */
  lemma ScalarFieldSelected(view: ViewDef, fields: seq<Field>, i: nat)
    requires i < |fields| && !fields[i].def.typeRef.Ref?
    requires !IsBlank(ViewMappings.Ref(view, fields[i].name))
    ensures ViewMappings.Ref(view, fields[i].name) + " AS " + QuoteIdent(fields[i].name) in ItemsOf(view, fields)
  {
    ItemsCover(view, fields, ViewMappings.Ref(view, fields[i].name) + " AS " + QuoteIdent(fields[i].name));
  }

  /*
   * Whether the statement already has a WHERE clause.
   */

  /** String.contains. */
  predicate Contains(s: string, sub: string)
    decreases |s|
  {
    sub <= s || (s != [] && Contains(s[1..], sub))
  }

  /** baseHasWhere: " where " anywhere in the lower-cased text, even inside a subquery or a literal. */
  predicate BaseHasWhere(sql: string)
  {
    Contains(ToLower(sql), " where ")
  }

  lemma {:induction false} ContainsAt(s: string, sub: string, k: nat)
    requires k + |sub| <= |s| && s[k..k + |sub|] == sub
    ensures Contains(s, sub)
    decreases k
  {
    if k == 0 {
      assert s[..|sub|] == sub;
    } else {
      assert s[1..][k - 1..k - 1 + |sub|] == sub;
      ContainsAt(s[1..], sub, k - 1);
    }
  }

  lemma {:induction false} ContainsWithin(s: string, sub: string) returns (k: nat)
    requires Contains(s, sub)
    ensures k + |sub| <= |s| && s[k..k + |sub|] == sub
    decreases |s|
  {
    if sub <= s {
      k := 0;
    } else {
      var k' := ContainsWithin(s[1..], sub);
      k := k' + 1;
      assert s[k..k + |sub|] == s[1..][k'..k' + |sub|];
    }
  }

  lemma ToLowerAppend(a: string, b: string)
    ensures ToLower(a + b) == ToLower(a) + ToLower(b)
  {
  }

  lemma LowerWhere()
    ensures ToLower(" WHERE ") == " where "
  {
  }

  /** A statement given a " WHERE " has one, and it keeps it whatever is appended. */
  lemma WhereJoined(a: string, b: string)
    ensures BaseHasWhere(a + " WHERE " + b)
  {
    ToLowerAppend(a + " WHERE ", b);
    ToLowerAppend(a, " WHERE ");
    LowerWhere();
    var t := ToLower(a) + " where " + ToLower(b);
    assert t[|a|..|a| + 7] == " where ";
    ContainsAt(t, " where ", |a|);
  }

  lemma WhereKept(a: string, b: string)
    requires BaseHasWhere(a)
    ensures BaseHasWhere(a + b)
  {
    var k := ContainsWithin(ToLower(a), " where ");
    ToLowerAppend(a, b);
    assert (ToLower(a) + ToLower(b))[k..k + 7] == ToLower(a)[k..k + 7];
    ContainsAt(ToLower(a + b), " where ", k);
  }

  /*
   * The filter.
   */

  /** The predicate put after the statement: a blank one leaves it alone, else " AND " or " WHERE " joins it. */
  function FilterWith(base: SqlStatement, rp: Rendered, hasWhere: bool): (r: SqlStatement)
  {
    if IsBlank(rp.sql) then base
    else SqlStatement(base.sql + (if hasWhere then " AND " else " WHERE ") + rp.sql, base.binds + rp.binds, QUERY)
  }

  /** A failed predicate fails the statement. */
  function FilterStep(base: SqlStatement, rp: Result<Rendered>, hasWhere: bool): Result<SqlStatement>
  {
    match rp
    case Err(e) => Err(e)
    case Ok(p) => Ok(FilterWith(base, p, hasWhere))
  }

  /** appendFilter: no filter leaves the statement alone. */
  function FilterOf(ea: EntityAuthoring, view: ViewDef, reg: Registry, base: SqlStatement, filter: Option<Element>,
                    hasWhere: bool): Result<SqlStatement>
  {
    if filter.None? then Ok(base) else FilterStep(base, PredicateOf(ea, view, reg, filter), hasWhere)
  }

  method JoinFilter(base: SqlStatement, rp: Result<Rendered>, hasWhere: bool) returns (r: Result<SqlStatement>)
    ensures r == FilterStep(base, rp, hasWhere)
  {
    if rp.Err? {
      return Err(rp.error);
    }
    if IsBlank(rp.value.sql) {
      return Ok(base);
    }
    var joiner := if hasWhere then " AND " else " WHERE ";
    return Ok(SqlStatement(base.sql + joiner + rp.value.sql, base.binds + rp.value.binds, QUERY));
  }

  /** appendFilter. */
  method AppendFilter(ea: EntityAuthoring, view: ViewDef, reg: Registry, base: SqlStatement, filter: Option<Element>,
                      hasWhere: bool) returns (r: Result<SqlStatement>)
    ensures r == FilterOf(ea, view, reg, base, filter, hasWhere)
  {
    if filter.None? {
      return Ok(base);
    }
    var rp := RenderPredicate(ea, view, reg, filter);
    r := JoinFilter(base, rp, hasWhere);
  }

  /** The filter's binds follow the statement's own, one per operand the filter's conditions call for. */
  lemma FilterBindsAppended(ea: EntityAuthoring, view: ViewDef, reg: Registry, base: SqlStatement,
                            filter: Option<Element>, hasWhere: bool)
    requires FilterOf(ea, view, reg, base, filter, hasWhere).Ok?
    ensures var r := FilterOf(ea, view, reg, base, filter, hasWhere).value;
      |r.binds| == |base.binds| + FilterBinds(filter) && r.binds[..|base.binds|] == base.binds
  {
    var r := FilterOf(ea, view, reg, base, filter, hasWhere).value;
    if filter.Some? {
      PredicateBinds(ea, view, reg, filter);
    }
    assert r.binds[..|base.binds|] == base.binds;
  }

  /** After the filter the statement has a WHERE clause exactly when it had one or the filter rendered to something. */
  lemma FilterLeavesWhere(ea: EntityAuthoring, view: ViewDef, reg: Registry, base: SqlStatement, filter: Option<Element>)
    requires FilterOf(ea, view, reg, base, filter, BaseHasWhere(base.sql)).Ok?
    ensures var r := FilterOf(ea, view, reg, base, filter, BaseHasWhere(base.sql)).value;
      BaseHasWhere(r.sql) <==> BaseHasWhere(base.sql) || (filter.Some? && !IsBlank(PredicateOf(ea, view, reg, filter).value.sql))
  {
    if filter.Some? {
      var p := PredicateOf(ea, view, reg, filter).value;
      if !IsBlank(p.sql) {
        if BaseHasWhere(base.sql) {
          WhereKept(base.sql, " AND " + p.sql);
          assert base.sql + " AND " + p.sql == base.sql + (" AND " + p.sql);
        } else {
          WhereJoined(base.sql, p.sql);
        }
      }
    }
  }

  /*
   * The sort.
   */

  function DirWord(d: Direction): string
  {
    if d == DESC then " DESC" else " ASC"
  }

  /** The ORDER BY items: each sort field the resolver knows, with its direction; an unknown field is skipped. */
  function PartsWith(resolve: string -> Option<string>, sort: seq<SortField>): seq<string>
  {
    if sort == [] then []
    else
      var sf := sort[|sort| - 1];
      PartsWith(resolve, sort[..|sort| - 1])
        + (match resolve(sf.field)
           case None => []
           case Some(e) => [e + DirWord(sf.direction)])
  }

  /** The ORDER BY items of the view. */
  function SortParts(view: ViewDef, sort: seq<SortField>): seq<string>
  {
    PartsWith(p => ResolveSqlExpr(view, p), sort)
  }

  /** appendSort: ORDER BY the resolvable sort fields; the binds never change. */
  function SortOf(base: SqlStatement, view: ViewDef, sort: seq<SortField>): (r: SqlStatement)
    ensures r.binds == base.binds
    ensures SortParts(view, sort) == [] ==> r == base
  {
    var parts := SortParts(view, sort);
    if parts == [] then base else SqlStatement(base.sql + " ORDER BY " + Join(parts, ", "), base.binds, QUERY)
  }

  /** appendSort. */
  method AppendSort(base: SqlStatement, view: ViewDef, sort: seq<SortField>) returns (r: SqlStatement)
    ensures r == SortOf(base, view, sort)
  {
    if sort == [] {
      return base;
    }
    var parts: seq<string> := [];
    var i := 0;
    while i < |sort|
      invariant 0 <= i <= |sort|
      invariant parts == SortParts(view, sort[..i])
    {
      var sf := sort[i];
      assert sort[..i + 1][..i] == sort[..i];
      var expr := ResolveSqlExpr(view, sf.field);
      if expr.Some? {
        parts := parts + [expr.value + (if sf.direction == DESC then " DESC" else " ASC")];
      }
      i := i + 1;
    }
    assert sort[..i] == sort;
    if parts == [] {
      return base;
    }
    return SqlStatement(base.sql + " ORDER BY " + Join(parts, ", "), base.binds, QUERY);
  }

  lemma {:induction false} PartsAllResolved(resolve: string -> Option<string>, sort: seq<SortField>)
    requires forall i :: 0 <= i < |sort| ==> resolve(sort[i].field).Some?
    ensures |PartsWith(resolve, sort)| == |sort|
    ensures forall i :: 0 <= i < |sort| ==> PartsWith(resolve, sort)[i] == resolve(sort[i].field).value + DirWord(sort[i].direction)
  {
    if sort != [] {
      var init := sort[..|sort| - 1];
      assert forall i :: 0 <= i < |init| ==> init[i] == sort[i];
      PartsAllResolved(resolve, init);
    }
  }

  lemma {:induction false} PartsNoneResolved(resolve: string -> Option<string>, sort: seq<SortField>)
    ensures PartsWith(resolve, sort) == [] <==> forall i :: 0 <= i < |sort| ==> resolve(sort[i].field).None?
  {
    if sort != [] {
      var init := sort[..|sort| - 1];
      assert forall i :: 0 <= i < |init| ==> init[i] == sort[i];
      PartsNoneResolved(resolve, init);
    }
  }

  /** When every sort field resolves, the ORDER BY lists them all, in order, each with its direction. */
  lemma SortPartsResolved(view: ViewDef, sort: seq<SortField>)
    requires forall i :: 0 <= i < |sort| ==> ResolveSqlExpr(view, sort[i].field).Some?
    ensures |SortParts(view, sort)| == |sort|
    ensures forall i :: 0 <= i < |sort| ==>
      SortParts(view, sort)[i] == ResolveSqlExpr(view, sort[i].field).value + DirWord(sort[i].direction)
  {
    PartsAllResolved(p => ResolveSqlExpr(view, p), sort);
  }

  /** The statement goes unsorted exactly when no sort field resolves. */
  lemma SortPartsEmpty(view: ViewDef, sort: seq<SortField>)
    ensures SortParts(view, sort) == [] <==> forall i :: 0 <= i < |sort| ==> ResolveSqlExpr(view, sort[i].field).None?
  {
    PartsNoneResolved(p => ResolveSqlExpr(view, p), sort);
  }

  /*
   * The page.
   */

  /** appendPage: the Postgres LIMIT/OFFSET for an offset page, LIMIT alone for a keyset page. */
  function PageOf(base: SqlStatement, page: Option<Page>): (r: SqlStatement)
    ensures r.binds == base.binds
    ensures page.None? ==> r == base
  {
    match page
    case None => base
    case Some(OffsetPage(offset, limit)) => ApplyOffsetPage(base, offset, limit)
    case Some(SeekPage(limit, _)) => ApplySeekPage(base, limit)
  }
}
