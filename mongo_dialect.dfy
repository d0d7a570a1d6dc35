/**
 * MongoDialect: merges a view's native base (a filter document, or an
 * aggregation pipeline) with the query's filter, sort and page into a
 * MongoStatement, and gives each kind of DML statement its MongoDB
 * operation. The query filter travels unrendered; the engine renders it.
 */
module MongoDialect {
  import opened Wrappers
  import opened Strings
  import opened Values
  import opened Authoring
  import opened QueryAst
  import opened DmlAst
  import MongoRender
  import MongoDmlPlanner

  type Doc = seq<Entry>

  datatype Kind = FIND | COUNT | INSERT_ONE | INSERT_MANY | UPDATE_ONE | UPDATE_MANY | DELETE_MANY | AGGREGATE

  /** MongoStatement: every field the Java record holds, null as None. */
  datatype MongoStatement = MongoStatement(
    kind: Kind,
    collection: string,
    filter: Option<Doc>,
    filterExpr: Option<Element>,
    pipeline: Option<seq<Doc>>,
    sort: Option<Doc>,
    skip: Option<nat>,
    limit: Option<nat>,
    dml: Option<Dml>,
    upsert: bool)

  /** The view's native base: a filter document, or the stages of a pipeline. */
  datatype NativeBase = NativeBase(filter: Option<Doc>, pipeline: Option<seq<Doc>>)

  /*
   * The native base.
   */

  /** toDoc: null is the empty document, a map is itself, anything else is refused. */
  function ToDoc(o: Value): (r: Result<Doc>)
    ensures r.Ok? <==> o.VNull? || o.VMap?
  {
    if o.VNull? then Ok([])
    else if o.VMap? then Ok(o.entries)
    else Err(IllegalArgument("Expected Map/Document for Mongo nativeQuery but got: " + ClassName(o)))
  }

  /** Each item of a list as a document, in order; the first refusal is the list's. */
  function ToDocs(items: seq<Value>): (r: Result<seq<Doc>>)
    ensures r.Ok? <==> forall i :: 0 <= i < |items| ==> ToDoc(items[i]).Ok?
    ensures r.Ok? ==> |r.value| == |items|
    ensures r.Ok? ==> forall i :: 0 <= i < |items| ==> r.value[i] == ToDoc(items[i]).value
  {
    if |items| == 0 then Ok([])
    else
      var prev :- ToDocs(items[..|items| - 1]);
      var d :- ToDoc(items[|items| - 1]);
      assert forall i :: 0 <= i < |items| - 1 ==> items[..|items| - 1][i] == items[i];
      Ok(prev + [d])
  }

  /** The stages addStages contributes: none for null, one per item of a List, otherwise the value as one stage. */
  function StagesOf(o: Value): Result<seq<Doc>>
  {
    if o.VNull? then Ok([])
    else if o.VList? && o.kind == JList then ToDocs(o.items)
    else
      var d :- ToDoc(o);
      Ok([d])
  }

  lemma ToDocsStep(items: seq<Value>, i: nat, out: seq<Doc>)
    requires i < |items|
    requires ToDocs(items[..i]) == Ok(out)
    ensures ToDoc(items[i]).Err? ==> ToDocs(items).Err?
    ensures ToDoc(items[i]).Ok? ==> ToDocs(items[..i + 1]) == Ok(out + [ToDoc(items[i]).value])
  {
    assert items[..i + 1][..i] == items[..i];
  }

  /** addStages: the stages of o appended to out. */
  method AddStages(out: seq<Doc>, o: Value) returns (r: Result<seq<Doc>>)
    ensures r.Ok? <==> StagesOf(o).Ok?
    ensures r.Ok? ==> r.value == out + StagesOf(o).value
  {
    if o.VNull? {
      return Ok(out);
    }
    if o.VList? && o.kind == JList {
      var acc: seq<Doc> := [];
      var i := 0;
      while i < |o.items|
        invariant 0 <= i <= |o.items|
        invariant ToDocs(o.items[..i]) == Ok(acc)
      {
        var d := ToDoc(o.items[i]);
        ToDocsStep(o.items, i, acc);
        if d.Err? {
          return Err(d.error);
        }
        acc := acc + [d.value];
        i := i + 1;
      }
      assert o.items[..i] == o.items;
      return Ok(out + acc);
    }
    var d := ToDoc(o);
    if d.Err? {
      return Err(d.error);
    }
    r := Ok(out + [d.value]);
  }

  /** Some key of the map starts with '$', as an operator stage's key does. */
  predicate HasOperatorKey(es: seq<Entry>)
  {
    exists i :: 0 <= i < |es| && StartsWith(es[i].key, "$")
  }

  /** The key scan of base: stops at the first key that starts with '$'. */
  method ScanOperatorKey(es: seq<Entry>) returns (found: bool)
    ensures found == HasOperatorKey(es)
  {
    var i := 0;
    while i < |es|
      invariant 0 <= i <= |es|
      invariant forall j :: 0 <= j < i ==> !StartsWith(es[j].key, "$")
    {
      if StartsWith(es[i].key, "$") {
        return true;
      }
      i := i + 1;
    }
    return false;
  }

  /** Pipeline mode: a projection is present, or sql is a List, or sql is a map with a '$' key. */
  predicate PipelineMode(sv: SqlViewDef)
  {
    sv.projection != VNull || (sv.sql.VList? && sv.sql.kind == JList) || (sv.sql.VMap? && HasOperatorKey(sv.sql.entries))
  }

  /** base: the native filter or pipeline the view declares. */
  function BaseOf(view: ViewDef): (r: Result<NativeBase>)
  {
    if view.sqlView.None? then Ok(NativeBase(Some([]), None))
    else
      var sv := view.sqlView.value;
      if sv.sql == VNull && sv.projection == VNull then Ok(NativeBase(Some([]), None))
      else if PipelineMode(sv) then
        var s1 :- StagesOf(sv.sql);
        var s2 :- StagesOf(sv.projection);
        Ok(NativeBase(None, Some(s1 + s2)))
      else if sv.sql.VMap? then Ok(NativeBase(Some(sv.sql.entries), None))
      else Ok(NativeBase(Some([]), None))
  }

  /** Exactly one of filter and pipeline is set; the pipeline is chosen iff the view is in pipeline mode; only a pipeline can fail. */
  lemma BaseShape(view: ViewDef)
    ensures BaseOf(view).Ok? ==> (BaseOf(view).value.filter.Some? <==> BaseOf(view).value.pipeline.None?)
    ensures BaseOf(view).Ok? ==>
              (BaseOf(view).value.pipeline.Some? <==>
               view.sqlView.Some? && !(view.sqlView.value.sql == VNull && view.sqlView.value.projection == VNull)
               && PipelineMode(view.sqlView.value))
    ensures BaseOf(view).Err? ==> view.sqlView.Some? && PipelineMode(view.sqlView.value)
  {
  }

  /** Without a native view, or with neither sql nor projection, the base is the empty filter document. */
  lemma NoSqlViewEmptyFilter(view: ViewDef)
    requires view.sqlView.None? || (view.sqlView.value.sql == VNull && view.sqlView.value.projection == VNull)
    ensures BaseOf(view) == Ok(NativeBase(Some([]), None))
  {
  }

  /** A pipeline is the sql stages followed by the projection stages. */
  lemma PipelineStagesInOrder(view: ViewDef, s1: seq<Doc>, s2: seq<Doc>)
    requires view.sqlView.Some? && PipelineMode(view.sqlView.value)
    requires StagesOf(view.sqlView.value.sql) == Ok(s1) && StagesOf(view.sqlView.value.projection) == Ok(s2)
    ensures BaseOf(view) == Ok(NativeBase(None, Some(s1 + s2)))
  {
  }

  /** base as it runs. */
  method Base(view: ViewDef) returns (r: Result<NativeBase>)
    ensures r == BaseOf(view)
  {
    if view.sqlView.None? {
      return Ok(NativeBase(Some([]), None));
    }
    var sv := view.sqlView.value;
    if sv.sql == VNull && sv.projection == VNull {
      return Ok(NativeBase(Some([]), None));
    }
    var pipelineMode := false;
    if sv.projection != VNull {
      pipelineMode := true;
    }
    if sv.sql.VList? && sv.sql.kind == JList {
      pipelineMode := true;
    }
    if sv.sql.VMap? {
      var found := ScanOperatorKey(sv.sql.entries);
      if found {
        pipelineMode := true;
      }
    }
    if pipelineMode {
      var out := AddStages([], sv.sql);
      if out.Err? {
        var e := StagesOf(sv.sql);
        return Err(e.error);
      }
      var all := AddStages(out.value, sv.projection);
      if all.Err? {
        var e := StagesOf(sv.projection);
        return Err(e.error);
      }
      var none: seq<Doc> := [];
      assert out.value == none + StagesOf(sv.sql).value;
      assert out.value == StagesOf(sv.sql).value;
      assert PipelineMode(sv);
      return Ok(NativeBase(None, Some(all.value)));
    }
    if sv.sql.VMap? {
      return Ok(NativeBase(Some(sv.sql.entries), None));
    }
    r := Ok(NativeBase(Some([]), None));
  }

  /*
   * Sort, skip and limit.
   */

  function DirValue(d: Direction): Value
  {
    if d == DESC then VInt(-1) else VInt(1)
  }

  /** The document path a sort field sorts by: its explicit mapping, else its own name. */
  function SortPath(view: ViewDef, sf: SortField): string
  {
    MongoRender.ResolvePath(Some(view), sf.field)
  }

  /** The sort document's entries: each field put in turn, a repeated path keeping its place and taking the later direction. */
  function SortEntries(view: ViewDef, sort: seq<SortField>): Doc
  {
    if |sort| == 0 then []
    else Put(SortEntries(view, sort[..|sort| - 1]), SortPath(view, sort[|sort| - 1]), DirValue(sort[|sort| - 1].direction))
  }

  /** sortDoc: no sort is no document. */
  function SortDocOf(view: ViewDef, sort: seq<SortField>): Option<Doc>
  {
    if |sort| == 0 then None else Some(SortEntries(view, sort))
  }

  /** The direction the last sort field with path k asks for, if any does. */
  function LastDirection(view: ViewDef, sort: seq<SortField>, k: string): Option<Value>
  {
    if |sort| == 0 then None
    else if SortPath(view, sort[|sort| - 1]) == k then Some(DirValue(sort[|sort| - 1].direction))
    else LastDirection(view, sort[..|sort| - 1], k)
  }

  /** Every path in the sort document carries the direction of the last sort field mapped to it (DESC -1, ASC 1), and no other path is present. */
  lemma {:induction false} SortEntriesDirections(view: ViewDef, sort: seq<SortField>, k: string)
    ensures Get(SortEntries(view, sort), k) == LastDirection(view, sort, k)
  {
    if |sort| > 0 {
      SortEntriesDirections(view, sort[..|sort| - 1], k);
    }
  }

  /** A sort field whose path is not mapped by the view sorts by its own name. */
  lemma UnmappedSortField(view: ViewDef, sf: SortField)
    requires view.mapping == []
    ensures SortEntries(view, [sf]) == [Entry(sf.field, DirValue(sf.direction))]
  {
    MongoRender.UnmappedPathUnchanged(Some(view), sf.field);
    assert [sf][..0] == [];
  }

  lemma SortStep(view: ViewDef, sort: seq<SortField>, i: nat, d: Doc)
    requires i < |sort|
    requires d == SortEntries(view, sort[..i])
    ensures SortEntries(view, sort[..i + 1]) == Put(d, SortPath(view, sort[i]), DirValue(sort[i].direction))
  {
    assert sort[..i + 1][..i] == sort[..i];
  }

  /** sortDoc's loop. */
  method SortDoc(view: ViewDef, sort: seq<SortField>) returns (r: Option<Doc>)
    ensures r == SortDocOf(view, sort)
  {
    if |sort| == 0 {
      return None;
    }
    var d: Doc := [];
    var i := 0;
    while i < |sort|
      invariant 0 <= i <= |sort|
      invariant d == SortEntries(view, sort[..i])
    {
      var sf := sort[i];
      var path := MongoRender.ResolvePath(Some(view), sf.field);
      SortStep(view, sort, i, d);
      d := Put(d, path, if sf.direction == DESC then VInt(-1) else VInt(1));
      i := i + 1;
    }
    assert sort[..i] == sort;
    r := Some(d);
  }

  /** skip: the offset of an offset page, and nothing for a seek page or no page. */
  function Skip(page: Option<Page>): (r: Option<nat>)
    ensures r.Some? <==> page.Some? && page.value.OffsetPage?
    ensures r.Some? ==> r.value == page.value.offset
  {
    if page.Some? && page.value.OffsetPage? then Some(page.value.offset) else None
  }

  /** limit: the page's limit, whatever its kind, and nothing without a page. */
  function Limit(page: Option<Page>): (r: Option<nat>)
    ensures r.Some? <==> page.Some?
    ensures r.Some? ==> r.value == page.value.limit
  {
    if page.None? then None else Some(page.value.limit)
  }

  /*
   * Statements.
   */

  /** mergeSelect: an aggregation over the pipeline, or a find with the base filter; the query filter rides along unrendered. */
  function MergeSelectOf(ea: EntityAuthoring, view: ViewDef, filter: Option<Element>, sort: seq<SortField>, page: Option<Page>)
    : Result<MongoStatement>
  {
    var collection :- MongoDmlPlanner.RequireCollection(ea);
    var base :- BaseOf(view);
    if base.pipeline.Some? then
      Ok(MongoStatement(AGGREGATE, collection, None, filter, base.pipeline, SortDocOf(view, sort), Skip(page), Limit(page), None, false))
    else
      Ok(MongoStatement(FIND, collection, base.filter, filter, None, SortDocOf(view, sort), Skip(page), Limit(page), None, false))
  }

  /** mergeCount: as mergeSelect, without sort, skip or limit, and COUNT in place of FIND. */
  function MergeCountOf(ea: EntityAuthoring, view: ViewDef, filter: Option<Element>): Result<MongoStatement>
  {
    var collection :- MongoDmlPlanner.RequireCollection(ea);
    var base :- BaseOf(view);
    if base.pipeline.Some? then
      Ok(MongoStatement(AGGREGATE, collection, None, filter, base.pipeline, None, None, None, None, false))
    else
      Ok(MongoStatement(COUNT, collection, base.filter, filter, None, None, None, None, None, false))
  }

  method MergeSelect(ea: EntityAuthoring, view: ViewDef, filter: Option<Element>, sort: seq<SortField>, page: Option<Page>)
    returns (r: Result<MongoStatement>)
    ensures r == MergeSelectOf(ea, view, filter, sort, page)
  {
    var collection := MongoDmlPlanner.RequireCollection(ea);
    if collection.Err? {
      return Err(collection.error);
    }
    var base := Base(view);
    if base.Err? {
      return Err(base.error);
    }
    var sortDoc := SortDoc(view, sort);
    if base.value.pipeline.Some? {
      return Ok(MongoStatement(AGGREGATE, collection.value, None, filter, base.value.pipeline, sortDoc, Skip(page), Limit(page), None, false));
    }
    r := Ok(MongoStatement(FIND, collection.value, base.value.filter, filter, None, sortDoc, Skip(page), Limit(page), None, false));
  }

  method MergeCount(ea: EntityAuthoring, view: ViewDef, filter: Option<Element>) returns (r: Result<MongoStatement>)
    ensures r == MergeCountOf(ea, view, filter)
  {
    var collection := MongoDmlPlanner.RequireCollection(ea);
    if collection.Err? {
      return Err(collection.error);
    }
    var base := Base(view);
    if base.Err? {
      return Err(base.error);
    }
    if base.value.pipeline.Some? {
      return Ok(MongoStatement(AGGREGATE, collection.value, None, filter, base.value.pipeline, None, None, None, None, false));
    }
    r := Ok(MongoStatement(COUNT, collection.value, base.value.filter, filter, None, None, None, None, None, false));
  }

  /** A select is an aggregation exactly in pipeline mode, else a find; it carries the query's filter, sort, skip and limit. */
  lemma SelectShape(ea: EntityAuthoring, view: ViewDef, filter: Option<Element>, sort: seq<SortField>, page: Option<Page>)
    requires MergeSelectOf(ea, view, filter, sort, page).Ok?
    ensures var st := MergeSelectOf(ea, view, filter, sort, page).value;
      && st.collection == ea.source && st.filterExpr == filter && st.dml.None? && !st.upsert
      && (st.kind == AGGREGATE <==> BaseOf(view).value.pipeline.Some?)
      && (st.kind == AGGREGATE || st.kind == FIND)
      && (st.kind == AGGREGATE ==> st.filter.None? && st.pipeline == BaseOf(view).value.pipeline)
      && (st.kind == FIND ==> st.filter == BaseOf(view).value.filter && st.pipeline.None?)
      && st.sort == SortDocOf(view, sort) && st.skip == Skip(page) && st.limit == Limit(page)
  {
  }

  /** A count never sorts or pages; it aggregates exactly in pipeline mode and counts otherwise. */
  lemma CountShape(ea: EntityAuthoring, view: ViewDef, filter: Option<Element>)
    requires MergeCountOf(ea, view, filter).Ok?
    ensures var st := MergeCountOf(ea, view, filter).value;
      && st.collection == ea.source && st.filterExpr == filter
      && st.sort.None? && st.skip.None? && st.limit.None?
      && (st.kind == AGGREGATE <==> BaseOf(view).value.pipeline.Some?)
      && (st.kind == AGGREGATE || st.kind == COUNT)
  {
  }

  /** A select and a count over the same view and filter read the same base. */
  lemma CountMatchesSelect(ea: EntityAuthoring, view: ViewDef, filter: Option<Element>, sort: seq<SortField>, page: Option<Page>)
    ensures MergeCountOf(ea, view, filter).Ok? <==> MergeSelectOf(ea, view, filter, sort, page).Ok?
    ensures MergeCountOf(ea, view, filter).Ok? ==>
              MergeCountOf(ea, view, filter).value.filter == MergeSelectOf(ea, view, filter, sort, page).value.filter
              && MergeCountOf(ea, view, filter).value.pipeline == MergeSelectOf(ea, view, filter, sort, page).value.pipeline
  {
  }

  /** A blank collection source is refused before anything else. */
  lemma MissingCollectionRefused(ea: EntityAuthoring, view: ViewDef, filter: Option<Element>, sort: seq<SortField>, page: Option<Page>)
    requires IsBlank(ea.source)
    ensures MergeSelectOf(ea, view, filter, sort, page) == Err(IllegalArgument("Entity authoring has no collection source: " + ea.entityType))
    ensures MergeCountOf(ea, view, filter) == Err(IllegalArgument("Entity authoring has no collection source: " + ea.entityType))
  {
  }

  /** The MongoDB operation each kind of DML statement becomes. */
  function DmlKind(dml: Dml): Kind
  {
    match dml
    case Insert(_) => INSERT_ONE
    case Update(_) => UPDATE_MANY
    case Delete(_) => DELETE_MANY
    case Upsert(_) => UPDATE_ONE
  }

  /** renderDml: the statement carries the DML unchanged with its operation; only an upsert sets the upsert flag. */
  function RenderDml(ea: EntityAuthoring, dml: Dml): (r: Result<MongoStatement>)
    ensures r.Ok? <==> !IsBlank(ea.source)
    ensures r.Ok? ==> r.value.kind == DmlKind(dml) && r.value.collection == ea.source && r.value.dml == Some(dml)
    ensures r.Ok? ==> (r.value.upsert <==> dml.Upsert?)
    ensures r.Ok? ==> r.value.filter.None? && r.value.filterExpr.None? && r.value.pipeline.None? && r.value.sort.None?
  {
    var collection :- MongoDmlPlanner.RequireCollection(ea);
    Ok(MongoStatement(DmlKind(dml), collection, None, None, None, None, None, None, Some(dml), dml.Upsert?))
  }

  /** Inserts insert one, updates and deletes touch every match, an upsert updates one or inserts it. */
  lemma DmlKinds(ea: EntityAuthoring, dml: Dml)
    requires !IsBlank(ea.source)
    ensures dml.Insert? ==> RenderDml(ea, dml).value.kind == INSERT_ONE
    ensures dml.Update? ==> RenderDml(ea, dml).value.kind == UPDATE_MANY
    ensures dml.Delete? ==> RenderDml(ea, dml).value.kind == DELETE_MANY
    ensures dml.Upsert? ==> RenderDml(ea, dml).value.kind == UPDATE_ONE && RenderDml(ea, dml).value.upsert
  {
  }
}
