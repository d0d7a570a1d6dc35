/**
 * The two statements the JDBC dialect builds for a query: the SELECT (base
 * statement, filter, keyset predicate, sort, page) and the COUNT over the
 * filtered base statement.
 */
module JdbcMerge {
  import opened Wrappers
  import opened Strings
  import opened Values
  import opened Authoring
  import opened QueryAst
  import opened SqlRender
  import opened JdbcPredicate
  import opened JdbcSelect
  import opened JdbcSeek

  /** The base statement with the filter appended: the part the SELECT and the COUNT share. */
  function FilteredOf(ea: EntityAuthoring, view: ViewDef, reg: Registry, filter: Option<Element>, params: Option<seq<Entry>>)
    : (r: Result<SqlStatement>)
    ensures BaseSelectOf(ea, view, params).Err? ==> r == Err(BaseSelectOf(ea, view, params).error)
  {
    var base :- BaseSelectOf(ea, view, params);
    FilterOf(ea, view, reg, base, filter, BaseHasWhere(base.sql))
  }

  /** The keyset predicate, for a keyset page only. */
  function SeekStepOf(ea: EntityAuthoring, view: ViewDef, reg: Registry, base: SqlStatement, sort: seq<SortField>,
                      page: Option<Page>): Result<SqlStatement>
  {
    if page.Some? && page.value.SeekPage? then SeekOf(ea, view, reg, base, sort, page.value.after) else Ok(base)
  }

  /** mergeSelect. */
  function MergeSelectOf(ea: EntityAuthoring, view: ViewDef, reg: Registry, filter: Option<Element>, sort: seq<SortField>,
                         page: Option<Page>, params: Option<seq<Entry>>): (r: Result<SqlStatement>)
    ensures FilteredOf(ea, view, reg, filter, params).Err? ==> r == Err(FilteredOf(ea, view, reg, filter, params).error)
  {
    var wf :- FilteredOf(ea, view, reg, filter, params);
    var ws :- SeekStepOf(ea, view, reg, wf, sort, page);
    Ok(PageOf(SortOf(ws, view, sort), page))
  }

  const CountHead := "SELECT COUNT(1) FROM ("
  const CountTail := ") nativa_count"

  /** mergeCount: the filtered base statement as a derived table, counted. */
  function MergeCountOf(ea: EntityAuthoring, view: ViewDef, reg: Registry, filter: Option<Element>,
                        params: Option<seq<Entry>>): (r: Result<SqlStatement>)
    ensures r.Err? <==> FilteredOf(ea, view, reg, filter, params).Err?
    ensures r.Err? ==> r.error == FilteredOf(ea, view, reg, filter, params).error
  {
    var wf :- FilteredOf(ea, view, reg, filter, params);
    Ok(SqlStatement(CountHead + wf.sql + CountTail, wf.binds, QUERY))
  }

  method MergeSelect(ea: EntityAuthoring, view: ViewDef, reg: Registry, filter: Option<Element>, sort: seq<SortField>,
                     page: Option<Page>, params: Option<seq<Entry>>) returns (r: Result<SqlStatement>)
    ensures r == MergeSelectOf(ea, view, reg, filter, sort, page, params)
  {
    var wf := Filtered(ea, view, reg, filter, params);
    if wf.Err? {
      return Err(wf.error);
    }
    var ws := Ok(wf.value);
    if page.Some? && page.value.SeekPage? {
      ws := AppendSeekFilter(ea, view, reg, wf.value, sort, page.value.after);
      if ws.Err? {
        return Err(ws.error);
      }
    }
    var sorted := AppendSort(ws.value, view, sort);
    r := Ok(PageOf(sorted, page));
  }

  method Filtered(ea: EntityAuthoring, view: ViewDef, reg: Registry, filter: Option<Element>, params: Option<seq<Entry>>)
    returns (r: Result<SqlStatement>)
    ensures r == FilteredOf(ea, view, reg, filter, params)
  {
    var base := BaseSelect(ea, view, params);
    if base.Err? {
      return Err(base.error);
    }
    r := AppendFilter(ea, view, reg, base.value, filter, BaseHasWhere(base.value.sql));
  }

  method MergeCount(ea: EntityAuthoring, view: ViewDef, reg: Registry, filter: Option<Element>, params: Option<seq<Entry>>)
    returns (r: Result<SqlStatement>)
    ensures r == MergeCountOf(ea, view, reg, filter, params)
  {
    var wf := Filtered(ea, view, reg, filter, params);
    if wf.Err? {
      return Err(wf.error);
    }
    r := Ok(SqlStatement(CountHead + wf.value.sql + CountTail, wf.value.binds, QUERY));
  }

  /*
   * How the two statements relate.
   */

  /**
   * Without a keyset page the SELECT and the COUNT fail together, and when
   * they succeed they carry the same binds in the same order: the sort and
   * the page add none.
   */
  lemma CountBindsAsSelect(ea: EntityAuthoring, view: ViewDef, reg: Registry, filter: Option<Element>,
                           sort: seq<SortField>, page: Option<Page>, params: Option<seq<Entry>>)
    requires page.None? || page.value.OffsetPage?
    ensures MergeSelectOf(ea, view, reg, filter, sort, page, params).Ok? <==> MergeCountOf(ea, view, reg, filter, params).Ok?
    ensures MergeSelectOf(ea, view, reg, filter, sort, page, params).Ok? ==>
      MergeSelectOf(ea, view, reg, filter, sort, page, params).value.binds == MergeCountOf(ea, view, reg, filter, params).value.binds
  {
  }

  /**
   * With a keyset page that has last-seen values, the SELECT's binds are the
   * COUNT's followed by one per comparison of the keyset predicate.
   */
  lemma SeekSelectBinds(ea: EntityAuthoring, view: ViewDef, reg: Registry, filter: Option<Element>,
                        sort: seq<SortField>, limit: nat, after: seq<Entry>, params: Option<seq<Entry>>)
    requires |after| > 0 && |sort| > 0
    requires MergeSelectOf(ea, view, reg, filter, sort, Some(SeekPage(limit, after)), params).Ok?
    ensures var s := MergeSelectOf(ea, view, reg, filter, sort, Some(SeekPage(limit, after)), params).value;
      var c := MergeCountOf(ea, view, reg, filter, params).value;
      c.binds <= s.binds && |s.binds| == |c.binds| + Tri(|sort|)
  {
    var wf := FilteredOf(ea, view, reg, filter, params).value;
    SeekOfBinds(ea, view, reg, wf, sort, after);
  }

  /** Every bind of the COUNT comes from the filter: the derived base statement has none, a view's SQL its own. */
  lemma CountBinds(ea: EntityAuthoring, view: ViewDef, reg: Registry, filter: Option<Element>, params: Option<seq<Entry>>)
    requires MergeCountOf(ea, view, reg, filter, params).Ok?
    ensures var base := BaseSelectOf(ea, view, params).value;
      |MergeCountOf(ea, view, reg, filter, params).value.binds| == |base.binds| + FilterBinds(filter)
  {
    var base := BaseSelectOf(ea, view, params).value;
    FilterBindsAppended(ea, view, reg, base, filter, BaseHasWhere(base.sql));
  }
}
