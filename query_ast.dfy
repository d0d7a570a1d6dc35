/**
 * The query model: filter trees (conditions, logical groups, negation),
 * sort fields, pages and the query that carries them with its named params.
 */
module QueryAst {
  import opened Wrappers
  import opened Values

  datatype Operator =
    | EQ | NE | GT | GE | LT | LE | IN | NIN | RANGE | LIKE
    | ARRAY_CONTAINS | ARRAY_NOT_CONTAINS | ARRAY_OVERLAPS | ARRAY_NOT_OVERLAPS
    | JSON_PATH_EXISTS | JSON_VALUE_EQ

  datatype Clause = AND | OR

  function Flip(c: Clause): Clause
  {
    if c == AND then OR else AND
  }

  datatype Direction = ASC | DESC

  datatype SortField = SortField(field: string, direction: Direction)

  /** Offset paging, or keyset paging with the last-seen values of the sort fields. */
  datatype Page =
    | OffsetPage(offset: nat, limit: nat)
    | SeekPage(limit: nat, after: seq<Entry>)

  /**
   * A node of a filter tree. A query can itself stand where an element is
   * expected, and so can a group-by clause (which no filter accepts).
   */
  datatype Element =
    | Condition(property: string, op: Operator, value: Value, lower: Value, upper: Value, not: bool)
    | Group(clause: Clause, elements: seq<Element>)
    | Not(element: Element)
    | Nested(query: Query)
    | GroupBy(fields: seq<string>)

  datatype Query = Query(
    filter: Option<Element>,
    page: Option<Page>,
    projection: seq<string>,
    sort: seq<SortField>,
    groupBy: Option<seq<string>>,
    params: seq<Entry>)

  /** QueryFilters.eq. */
  function Eq(property: string, value: Value): Element
  {
    Condition(property, EQ, value, VNull, VNull, false)
  }

  /** Query.param: a missing name is an error, a present one may hold null. */
  function Param(q: Query, name: string): (r: Result<Value>)
    ensures r.Ok? <==> HasKey(q.params, name)
    ensures r.Ok? ==> Get(q.params, name) == Some(r.value)
    ensures r.Err? ==> r.error == IllegalArgument("Missing query param: " + name)
  {
    match Get(q.params, name)
    case None => Err(IllegalArgument("Missing query param: " + name))
    case Some(v) => Ok(v)
  }

  /** The De Morgan dual: each condition's NOT flipped, each clause swapped, a NOT dropped. */
  function Dual(el: Element): Element
    decreases el
  {
    match el
    case Condition(p, op, v, lo, hi, not) => Condition(p, op, v, lo, hi, !not)
    case Group(clause, es) => Group(Flip(clause), seq(|es|, i requires 0 <= i < |es| => Dual(es[i])))
    case Not(e) => e
    case Nested(_) => el
    case GroupBy(_) => el
  }
}
