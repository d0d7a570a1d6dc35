/**
 * Backend-agnostic query validation: every property path a query uses (in
 * filter conditions, sort fields and group-by fields) must resolve to a
 * scalar field of the entity.
 */
module QueryValidation {
  import opened Wrappers
  import opened Strings
  import opened Authoring
  import opened QueryAst
  import PropertyTypeResolver

  /** The usage sites named in the messages. */
  const Filter := "filter"
  const Sort := "sort"
  const GroupByUsage := "groupBy"

  const UnsupportedGroupBy := "Unsupported QueryElement: io.intellixity.nativa.persistence.query.aggregation.GroupBy"

  /** requireScalarPath: a blank path or one that resolves to no scalar is rejected, naming the usage site. */
  function RequireScalarPath(reg: Registry, ea: EntityAuthoring, path: string, usage: string): (r: Result<()>)
    ensures IsBlank(path) ==>
      r == Err(QueryValidation("Blank propertyPath in " + usage + " for entity '" + ea.entityType + "'"))
    ensures !IsBlank(path) && PropertyTypeResolver.ResolveNoCache(reg, Some(ea), path) == Ok(None) ==>
      r == Err(QueryValidation("Unknown scalar field path '" + path + "' in " + usage + " for entity '" + ea.entityType + "'"))
  {
    if IsBlank(path) then
      Err(QueryValidation("Blank propertyPath in " + usage + " for entity '" + ea.entityType + "'"))
    else
      match PropertyTypeResolver.ResolveNoCache(reg, Some(ea), path)
      case Err(e) => Err(e)
      case Ok(None) =>
        Err(QueryValidation("Unknown scalar field path '" + path + "' in " + usage + " for entity '" + ea.entityType + "'"))
      case Ok(Some(_)) => Ok(())
  }

  /** A path passes exactly when it leads, through Ref fields, to a scalar field of the entity. */
  lemma ScalarPathIff(reg: Registry, ea: EntityAuthoring, path: string, usage: string)
    ensures RequireScalarPath(reg, ea, path, usage).Ok?
      <==> (!IsBlank(path)
            && exists id, chain :: PropertyTypeResolver.LeadsTo(reg, ea, SplitAll(path, '.'), chain, id))
  {
    if RequireScalarPath(reg, ea, path, usage).Ok? {
      var id := PropertyTypeResolver.ResolveNoCache(reg, Some(ea), path).value.value;
      PropertyTypeResolver.PathResolves(reg, ea, path, id);
    }
    if !IsBlank(path) && exists id, chain :: PropertyTypeResolver.LeadsTo(reg, ea, SplitAll(path, '.'), chain, id) {
      var id, chain :| PropertyTypeResolver.LeadsTo(reg, ea, SplitAll(path, '.'), chain, id);
      PropertyTypeResolver.PathResolves(reg, ea, path, id);
    }
  }

  /** validateElement: conditions are checked through Not, groups and nested queries; a group-by is refused. */
  function ValidateElement(reg: Registry, ea: EntityAuthoring, el: Element): Result<()>
    decreases el, 1
  {
    match el
    case Nested(q) =>
      if q.filter.None? then Ok(()) else ValidateElement(reg, ea, q.filter.value)
    case Not(e) => ValidateElement(reg, ea, e)
    case Group(_, es) => ValidateChildren(reg, ea, el, |es|)
    case Condition(p, _, _, _, _, _) => RequireScalarPath(reg, ea, p, Filter)
    case GroupBy(_) => Err(QueryValidation(UnsupportedGroupBy))
  }

  /** The first n children of a group, checked left to right; the first failure wins. */
  function ValidateChildren(reg: Registry, ea: EntityAuthoring, g: Element, n: nat): Result<()>
    requires g.Group? && n <= |g.elements|
    decreases g, 0, n
  {
    if n == 0 then Ok(())
    else
      var _ :- ValidateChildren(reg, ea, g, n - 1);
      ValidateElement(reg, ea, g.elements[n - 1])
  }

  /** validateSort: each sort field is checked in order. */
  function ValidateSort(reg: Registry, ea: EntityAuthoring, sort: seq<SortField>): Result<()>
  {
    if sort == [] then Ok(())
    else
      var _ :- ValidateSort(reg, ea, sort[..|sort| - 1]);
      RequireScalarPath(reg, ea, sort[|sort| - 1].field, Sort)
  }

  /** validateGroupBy: each group-by field is checked in order; no group-by passes. */
  function ValidateGroupBy(reg: Registry, ea: EntityAuthoring, fields: seq<string>): Result<()>
  {
    if fields == [] then Ok(())
    else
      var _ :- ValidateGroupBy(reg, ea, fields[..|fields| - 1]);
      RequireScalarPath(reg, ea, fields[|fields| - 1], GroupByUsage)
  }

  /**
   * validate: a null entity is refused; then the normalised filter, and for
   * a present query its sort and group-by fields.
   */
  function Validate(reg: Registry, entity: Option<EntityAuthoring>, query: Option<Query>, filter: Option<Element>)
    : (r: Result<()>)
    ensures entity.None? ==> r == Err(NullPointer("entity"))
  {
    match entity
    case None => Err(NullPointer("entity"))
    case Some(ea) =>
      var _ :- if filter.None? then Ok(()) else ValidateElement(reg, ea, filter.value);
      if query.None? then Ok(())
      else
        var _ :- ValidateSort(reg, ea, query.value.sort);
        ValidateGroupBy(reg, ea, query.value.groupBy.UnwrapOr([]))
  }

  /** The condition properties of a tree, left to right, through nested queries. */
  function Properties(el: Element): seq<string>
    decreases el, 1
  {
    match el
    case Nested(q) => if q.filter.None? then [] else Properties(q.filter.value)
    case Not(e) => Properties(e)
    case Group(_, es) => PropertiesOf(el, |es|)
    case Condition(p, _, _, _, _, _) => [p]
    case GroupBy(_) => []
  }

  function PropertiesOf(g: Element, n: nat): seq<string>
    requires g.Group? && n <= |g.elements|
    decreases g, 0, n
  {
    if n == 0 then [] else PropertiesOf(g, n - 1) + Properties(g.elements[n - 1])
  }

  /** Whether a group-by element sits anywhere in the tree. */
  predicate HasGroupBy(el: Element)
    decreases el
  {
    match el
    case Nested(q) => q.filter.Some? && HasGroupBy(q.filter.value)
    case Not(e) => HasGroupBy(e)
    case Group(_, es) => exists i :: 0 <= i < |es| && HasGroupBy(es[i])
    case Condition(_, _, _, _, _, _) => false
    case GroupBy(_) => true
  }

  predicate PathOk(reg: Registry, ea: EntityAuthoring, p: string, usage: string)
  {
    RequireScalarPath(reg, ea, p, usage).Ok?
  }

  /** Every path in ps passes as a filter path. */
  predicate FilterPathsOk(reg: Registry, ea: EntityAuthoring, ps: seq<string>)
  {
    forall i :: 0 <= i < |ps| ==> PathOk(reg, ea, ps[i], Filter)
  }

  /**
   * A filter tree passes exactly when it holds no group-by and every
   * condition property in it, at any depth, is a scalar path.
   */
  lemma {:induction false} ElementValidIff(reg: Registry, ea: EntityAuthoring, el: Element)
    ensures ValidateElement(reg, ea, el).Ok?
      <==> (!HasGroupBy(el) && FilterPathsOk(reg, ea, Properties(el)))
    decreases el, 1
  {
    match el
    case Nested(q) =>
      if q.filter.Some? {
        ElementValidIff(reg, ea, q.filter.value);
      }
    case Not(e) =>
      ElementValidIff(reg, ea, e);
    case Group(_, es) =>
      ChildrenValidIff(reg, ea, el, |es|);
      ChildrenFreeAll(el, |es|);
      assert Properties(el) == PropertiesOf(el, |es|);
      assert HasGroupBy(el) <==> exists i :: 0 <= i < |es| && HasGroupBy(es[i]);
    case Condition(p, _, _, _, _, _) =>
      SinglePath(reg, ea, p);
    case GroupBy(_) =>
  }

  lemma SinglePath(reg: Registry, ea: EntityAuthoring, p: string)
    ensures FilterPathsOk(reg, ea, [p]) <==> PathOk(reg, ea, p, Filter)
  {
    assert [p][0] == p;
  }

  /** The first n children pass when the first n - 1 do and the n-th does; their paths are appended. */
  lemma ChildrenSnoc(reg: Registry, ea: EntityAuthoring, g: Element, n: nat)
    requires g.Group? && 0 < n <= |g.elements|
    ensures ValidateChildren(reg, ea, g, n).Ok?
      <==> ValidateChildren(reg, ea, g, n - 1).Ok? && ValidateElement(reg, ea, g.elements[n - 1]).Ok?
    ensures PropertiesOf(g, n) == PropertiesOf(g, n - 1) + Properties(g.elements[n - 1])
  {
  }

  /** None of the first n children of a group holds a group-by. */
  predicate ChildrenFree(g: Element, n: nat)
    requires g.Group? && n <= |g.elements|
  {
    n == 0 || (ChildrenFree(g, n - 1) && !HasGroupBy(g.elements[n - 1]))
  }

  lemma {:induction false} ChildrenFreeAll(g: Element, n: nat)
    requires g.Group? && n <= |g.elements|
    ensures ChildrenFree(g, n) <==> forall i :: 0 <= i < n ==> !HasGroupBy(g.elements[i])
  {
    if n > 0 {
      ChildrenFreeAll(g, n - 1);
    }
  }

  lemma {:induction false} ChildrenValidIff(reg: Registry, ea: EntityAuthoring, g: Element, n: nat)
    requires g.Group? && n <= |g.elements|
    ensures ValidateChildren(reg, ea, g, n).Ok? <==> (ChildrenFree(g, n) && FilterPathsOk(reg, ea, PropertiesOf(g, n)))
    decreases g, 0, n
  {
    if n > 0 {
      ChildrenValidIff(reg, ea, g, n - 1);
      ElementValidIff(reg, ea, g.elements[n - 1]);
      var a := PropertiesOf(g, n - 1);
      var b := Properties(g.elements[n - 1]);
      AllPathsConcat(reg, ea, a, b);
      ChildrenSnoc(reg, ea, g, n);
    }
  }

  lemma AllPathsConcat(reg: Registry, ea: EntityAuthoring, a: seq<string>, b: seq<string>)
    ensures FilterPathsOk(reg, ea, a + b) <==> FilterPathsOk(reg, ea, a) && FilterPathsOk(reg, ea, b)
  {
    assert forall k :: 0 <= k < |a| ==> (a + b)[k] == a[k];
    assert forall k :: 0 <= k < |b| ==> (a + b)[|a| + k] == b[k];
    assert forall k :: |a| <= k < |a| + |b| ==> (a + b)[k] == b[k - |a|];
  }

  /** Every sort field passes as a sort path. */
  predicate SortPathsOk(reg: Registry, ea: EntityAuthoring, sort: seq<SortField>)
  {
    forall i :: 0 <= i < |sort| ==> PathOk(reg, ea, sort[i].field, Sort)
  }

  /** Every group-by field passes as a group-by path. */
  predicate GroupByPathsOk(reg: Registry, ea: EntityAuthoring, fields: seq<string>)
  {
    forall i :: 0 <= i < |fields| ==> PathOk(reg, ea, fields[i], GroupByUsage)
  }

  /** The sort fields pass exactly when each of them is a scalar path. */
  lemma {:induction false} SortValidIff(reg: Registry, ea: EntityAuthoring, sort: seq<SortField>)
    ensures ValidateSort(reg, ea, sort).Ok? <==> SortPathsOk(reg, ea, sort)
  {
    if sort != [] {
      var init := sort[..|sort| - 1];
      var last := sort[|sort| - 1];
      SortValidIff(reg, ea, init);
      assert ValidateSort(reg, ea, sort).Ok?
        <==> ValidateSort(reg, ea, init).Ok? && PathOk(reg, ea, last.field, Sort);
      assert sort == init + [last];
      SortPathsSnoc(reg, ea, init, last);
    }
  }

  lemma SortPathsSnoc(reg: Registry, ea: EntityAuthoring, init: seq<SortField>, last: SortField)
    ensures SortPathsOk(reg, ea, init + [last]) <==> SortPathsOk(reg, ea, init) && PathOk(reg, ea, last.field, Sort)
  {
    assert forall i :: 0 <= i < |init| ==> (init + [last])[i] == init[i];
    assert (init + [last])[|init|] == last;
  }

  /** The group-by fields pass exactly when each of them is a scalar path. */
  lemma {:induction false} GroupByValidIff(reg: Registry, ea: EntityAuthoring, fields: seq<string>)
    ensures ValidateGroupBy(reg, ea, fields).Ok? <==> GroupByPathsOk(reg, ea, fields)
  {
    if fields != [] {
      var init := fields[..|fields| - 1];
      var last := fields[|fields| - 1];
      GroupByValidIff(reg, ea, init);
      assert ValidateGroupBy(reg, ea, fields).Ok?
        <==> ValidateGroupBy(reg, ea, init).Ok? && PathOk(reg, ea, last, GroupByUsage);
      assert fields == init + [last];
      GroupByPathsSnoc(reg, ea, init, last);
    }
  }

  lemma GroupByPathsSnoc(reg: Registry, ea: EntityAuthoring, init: seq<string>, last: string)
    ensures GroupByPathsOk(reg, ea, init + [last]) <==> GroupByPathsOk(reg, ea, init) && PathOk(reg, ea, last, GroupByUsage)
  {
    assert forall i :: 0 <= i < |init| ==> (init + [last])[i] == init[i];
    assert (init + [last])[|init|] == last;
  }

  /** A query passes exactly when its filter, its sort fields and its group-by fields all do. */
  lemma ValidIff(reg: Registry, ea: EntityAuthoring, query: Query, filter: Option<Element>)
    ensures Validate(reg, Some(ea), Some(query), filter).Ok?
      <==> ((filter.None? || ValidateElement(reg, ea, filter.value).Ok?)
            && SortPathsOk(reg, ea, query.sort)
            && GroupByPathsOk(reg, ea, query.groupBy.UnwrapOr([])))
  {
    SortValidIff(reg, ea, query.sort);
    GroupByValidIff(reg, ea, query.groupBy.UnwrapOr([]));
  }

  /** A null filter with no sort and no group-by passes. */
  lemma EmptyPasses(reg: Registry, ea: EntityAuthoring, query: Query)
    requires query.sort == [] && (query.groupBy.None? || query.groupBy.value == [])
    ensures Validate(reg, Some(ea), Some(query), None) == Ok(())
  {
  }
}
