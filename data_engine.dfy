/**
 * The orchestrator every backend engine extends. For each call it resolves
 * the entity and the view, normalises and validates the query, has the
 * dialect and the DML planner build the statement, and hands it to the
 * backend's execute hook, inside the transaction that the propagation rule
 * picks.
 *
 * The scoped transaction slot is an explicit `scope` argument: the slot the
 * caller runs under, tagged with the engine object that bound it. begin,
 * commit and rollback are backend hooks; the engine records each call it
 * makes to them in `events`. The dialect, the planner and the execute hooks
 * are functions of their inputs, and so is the work handed to inTx.
 */
module DataEngine {
  import opened Wrappers
  import opened Strings
  import opened Values
  import opened Authoring
  import opened QueryAst
  import opened DmlAst
  import QueryNormalizer
  import QueryValidation
  import ViewMappings
  import UserTypes
  import UserTypeRegistry

  datatype Propagation = REQUIRED | SUPPORTS | MANDATORY | REQUIRES_NEW | NEVER | NESTED

  /** A transaction as begin() hands it out. */
  type TxHandle = nat

  /** The scoped slot: the engine that bound the transaction, and the transaction. */
  datatype TxSlot = TxSlot(owner: object, tx: TxHandle)

  /** A call the engine made to a transaction hook of its backend. */
  datatype TxEvent = Begin(tx: TxHandle) | Commit(tx: TxHandle) | Rollback(tx: TxHandle)

  /** Where inTx runs its work: where it is, in a new transaction, or nowhere. */
  datatype Route = Inline | Fresh | Refuse(error: Error)

  /** The entity type and view a call names. */
  datatype ViewRef = ViewRef(entityType: string, viewDefId: string)

  const NoTxForMandatory: string := "No existing transaction for propagation=MANDATORY"
  const TxForNever: string := "Existing transaction found for propagation=NEVER"
  const SchemaPlaceholder: string := "{schema}"

  /** new Query(): no filter, no page, no sort, no params. */
  const EmptyQuery: Query := Query(None, None, [], [], None, [])

  /** The switch of inTx over the propagation and the transaction already bound. */
  function RouteOf(p: Propagation, existing: Option<TxHandle>): Route
  {
    match p
    case REQUIRED => if existing.Some? then Inline else Fresh
    case SUPPORTS => Inline
    case MANDATORY => if existing.None? then Refuse(IllegalState(NoTxForMandatory)) else Inline
    case REQUIRES_NEW => Fresh
    case NEVER => if existing.Some? then Refuse(IllegalState(TxForNever)) else Inline
    case NESTED => if existing.Some? then Inline else Fresh
  }

  /** A new transaction is begun for REQUIRES_NEW always, and for REQUIRED and NESTED when none is bound. */
  lemma BeginsIff(p: Propagation, existing: Option<TxHandle>)
    ensures RouteOf(p, existing).Fresh?
      <==> p == REQUIRES_NEW || ((p == REQUIRED || p == NESTED) && existing.None?)
  {
  }

  /** The work runs in the bound transaction exactly for REQUIRED, NESTED and MANDATORY with one bound, and always for SUPPORTS. */
  lemma ReusesIff(p: Propagation, existing: Option<TxHandle>)
    ensures RouteOf(p, existing).Inline? && existing.Some?
      <==> existing.Some? && (p == REQUIRED || p == NESTED || p == MANDATORY || p == SUPPORTS)
    ensures RouteOf(SUPPORTS, existing) == Inline
    ensures RouteOf(NESTED, existing) == RouteOf(REQUIRED, existing)
  {
  }

  /** MANDATORY without a transaction and NEVER with one are refused with an IllegalStateException. */
  lemma RefusesIff(p: Propagation, existing: Option<TxHandle>)
    ensures RouteOf(p, existing).Refuse?
      <==> (p == MANDATORY && existing.None?) || (p == NEVER && existing.Some?)
    ensures RouteOf(p, existing).Refuse? ==> RouteOf(p, existing).error.IllegalState?
  {
  }

  /** How often an event occurs in a log. */
  function Occurrences(es: seq<TxEvent>, e: TxEvent): (n: nat)
    ensures n <= |es|
    ensures e !in es ==> n == 0
  {
    if |es| == 0 then 0
    else Occurrences(es[..|es| - 1], e) + (if es[|es| - 1] == e then 1 else 0)
  }

  lemma CountTwo(x: TxEvent, y: TxEvent, e: TxEvent)
    ensures Occurrences([x, y], e) == (if x == e then 1 else 0) + (if y == e then 1 else 0)
  {
    assert [x, y][..1] == [x];
    assert [x][..0] == [];
  }

  lemma CountThree(x: TxEvent, y: TxEvent, z: TxEvent, e: TxEvent)
    ensures Occurrences([x, y, z], e) == (if x == e then 1 else 0) + (if y == e then 1 else 0) + (if z == e then 1 else 0)
  {
    assert [x, y, z][..2] == [x, y];
    CountTwo(x, y, e);
  }

  /** String.replace: every occurrence of pat, left to right, replaced by rep. */
  function ReplaceAll(s: string, pat: string, rep: string): string
    requires |pat| > 0
    decreases |s|
  {
    if |s| < |pat| then s
    else if s[..|pat|] == pat then rep + ReplaceAll(s[|pat|..], pat, rep)
    else [s[0]] + ReplaceAll(s[1..], pat, rep)
  }

  /** Whether pat occurs in s, at the front or further on. */
  predicate Occurs(s: string, pat: string)
    decreases |s|
  {
    |s| >= |pat| && (s[..|pat|] == pat || (|s| > 0 && Occurs(s[1..], pat)))
  }

  /** A text without the placeholder is left as it is. */
  lemma {:induction false} ReplaceAbsent(s: string, pat: string, rep: string)
    requires |pat| > 0 && !Occurs(s, pat)
    ensures ReplaceAll(s, pat, rep) == s
    decreases |s|
  {
    if |s| >= |pat| {
      ReplaceAbsent(s[1..], pat, rep);
      assert [s[0]] + s[1..] == s;
    }
  }

  /** An occurrence at the front is replaced. */
  lemma ReplaceAtFront(pat: string, rest: string, rep: string)
    requires |pat| > 0
    ensures ReplaceAll(pat + rest, pat, rep) == rep + ReplaceAll(rest, pat, rep)
  {
    var s := pat + rest;
    assert s[..|pat|] == pat;
    assert s[|pat|..] == rest;
  }

  /** The first index at which a field is auto-generated, and a key too when `needKey`. */
  function FirstGenerated(fields: seq<Field>, needKey: bool): (r: Option<nat>)
    ensures r.Some? ==> (r.value < |fields| && fields[r.value].def.autoGenerated
      && (needKey ==> fields[r.value].def.key)
      && forall j :: 0 <= j < r.value ==> !(fields[j].def.autoGenerated && (needKey ==> fields[j].def.key)))
    ensures r.None? ==> forall j :: 0 <= j < |fields| ==> !(fields[j].def.autoGenerated && (needKey ==> fields[j].def.key))
  {
    if |fields| == 0 then None
    else if fields[0].def.autoGenerated && (needKey ==> fields[0].def.key) then Some(0)
    else
      match FirstGenerated(fields[1..], needKey)
      case None => None
      case Some(j) => Some(j + 1)
  }

  /** The field whose generated value is written back: the first key and auto-generated one, else the first auto-generated one. */
  function GeneratedField(fields: seq<Field>): (r: Option<nat>)
  {
    if FirstGenerated(fields, true).Some? then FirstGenerated(fields, true) else FirstGenerated(fields, false)
  }

  /** A key and auto-generated field is preferred; without one, the first auto-generated field is taken. */
  lemma GeneratedFieldPrefersKey(fields: seq<Field>)
    ensures (exists i :: 0 <= i < |fields| && fields[i].def.autoGenerated && fields[i].def.key)
      ==> GeneratedField(fields).Some? && fields[GeneratedField(fields).value].def.key
    ensures GeneratedField(fields).Some? <==> exists i :: 0 <= i < |fields| && fields[i].def.autoGenerated
    ensures GeneratedField(fields).Some? ==> fields[GeneratedField(fields).value].def.autoGenerated
  {
    forall i | 0 <= i < |fields| && fields[i].def.autoGenerated && fields[i].def.key
      ensures FirstGenerated(fields, true).Some?
    {
      assert fields[i].def.autoGenerated && (true ==> fields[i].def.key);
    }
    forall i | 0 <= i < |fields| && fields[i].def.autoGenerated
      ensures FirstGenerated(fields, false).Some?
    {
      assert fields[i].def.autoGenerated;
    }
  }

  /** Whether the insert carries a non-null value for the column. */
  predicate Explicit(cols: seq<ColumnBind>, col: string)
  {
    exists j :: 0 <= j < |cols| && cols[j].column == col && cols[j].bind.value != VNull
  }

  /** The sum of the counts a bulk update adds up. */
  function Sum(xs: seq<int>): int
  {
    if |xs| == 0 then 0 else Sum(xs[..|xs| - 1]) + xs[|xs| - 1]
  }

  /** The statement builders and execute hooks of a backend, and its transaction hooks; Some(e) from a transaction hook is the exception it throws. */
  datatype Hooks<!S> = Hooks(
    mergeSelect: (EntityAuthoring, ViewDef, Query, Option<Element>) -> Result<S>,
    mergeCount: (EntityAuthoring, ViewDef, Query, Option<Element>) -> Result<S>,
    renderDml: (EntityAuthoring, ViewDef, Dml) -> Result<S>,
    executeSelect: (Option<TxHandle>, ViewDef, S) -> Result<seq<Value>>,
    executeCount: (Option<TxHandle>, ViewDef, S) -> Result<int>,
    executeInsertForId: (Option<TxHandle>, EntityAuthoring, ViewDef, InsertAst, S) -> Result<Value>,
    executeUpsertForId: (Option<TxHandle>, EntityAuthoring, ViewDef, UpsertAst, S) -> Result<Value>,
    executeUpdate: (Option<TxHandle>, EntityAuthoring, ViewDef, UpdateAst, S) -> Result<int>,
    executeDelete: (Option<TxHandle>, EntityAuthoring, ViewDef, DeleteAst, S) -> Result<int>,
    begin: TxHandle -> Option<Error>,
    commit: TxHandle -> Option<Error>,
    rollback: TxHandle -> Option<Error>)

  /** The DML planner the engine is given (JDBC or Mongo). */
  datatype Planner = Planner(
    planInsert: (EntityAuthoring, ViewDef, Value, bool) -> Result<InsertAst>,
    planUpsert: (EntityAuthoring, ViewDef, Value, bool) -> Result<UpsertAst>,
    planUpdateById: (EntityAuthoring, ViewDef, Value) -> Result<UpdateAst>,
    planUpdateByCriteria: (EntityAuthoring, ViewDef, Value, Option<Element>) -> Result<UpdateAst>,
    planDeleteByCriteria: (EntityAuthoring, ViewDef, Option<Element>) -> Result<DeleteAst>)

  class Engine<S> {
    const defaultPropagation: Propagation
    /** handle.namespace(), "" when it is null. */
    const namespace: string
    const entities: Registry
    const views: map<string, ViewDef>
    const hooks: Hooks<S>
    const planner: Planner
    const userTypes: UserTypeRegistry.Registry
    const codecs: UserTypes.Codecs
    /** The entity-scoped mutator: the entity with one field set. */
    const mutator: (Value, string, Value) -> Value
    /** The handle the next begin() gives. */
    var nextTx: TxHandle
    /** The transaction hooks called so far, in order. */
    var events: seq<TxEvent>

    ghost predicate Valid()
      reads this, userTypes
    {
      userTypes.Valid()
    }

    /** A missing default propagation is REQUIRED. */
    constructor (defaultPropagation: Option<Propagation>, namespace: string, entities: Registry,
                 views: map<string, ViewDef>, hooks: Hooks<S>, planner: Planner,
                 userTypes: UserTypeRegistry.Registry, codecs: UserTypes.Codecs, mutator: (Value, string, Value) -> Value)
      requires userTypes.Valid()
      ensures this.defaultPropagation == defaultPropagation.UnwrapOr(REQUIRED)
      ensures this.namespace == namespace && this.entities == entities && this.views == views
      ensures this.hooks == hooks && this.planner == planner && this.userTypes == userTypes
      ensures this.codecs == codecs && this.mutator == mutator
      ensures nextTx == 0 && events == []
      ensures Valid()
    {
      this.defaultPropagation := defaultPropagation.UnwrapOr(REQUIRED);
      this.namespace := namespace;
      this.entities := entities;
      this.views := views;
      this.hooks := hooks;
      this.planner := planner;
      this.userTypes := userTypes;
      this.codecs := codecs;
      this.mutator := mutator;
      nextTx := 0;
      events := [];
    }

    /** currentTxOrNull: the bound transaction, if this engine bound it. */
    function CurrentTx(scope: Option<TxSlot>): Option<TxHandle>
    {
      if scope.Some? && scope.value.owner == this then Some(scope.value.tx) else None
    }

    /** A slot bound by another engine is invisible here; this engine's own slot is seen. */
    lemma MarkerDecides(other: object, tx: TxHandle)
      requires other != this
      ensures CurrentTx(Some(TxSlot(other, tx))) == None
      ensures CurrentTx(Some(TxSlot(this, tx))) == Some(tx)
      ensures RouteOf(REQUIRED, CurrentTx(Some(TxSlot(other, tx)))) == Fresh
      ensures RouteOf(REQUIRED, CurrentTx(Some(TxSlot(this, tx)))) == Inline
    {
    }

    function Route(p: Propagation, scope: Option<TxSlot>): Route
    {
      RouteOf(p, CurrentTx(scope))
    }

    /** The scope the work runs under when the next handle is t. */
    function Inner(p: Propagation, scope: Option<TxSlot>, t: TxHandle): Option<TxSlot>
    {
      if Route(p, scope).Fresh? then Some(TxSlot(this, t)) else scope
    }

    /** Whether inTx begins a transaction that opens. */
    predicate Opens(p: Propagation, scope: Option<TxSlot>, t: TxHandle)
    {
      Route(p, scope).Fresh? && hooks.begin(t).None?
    }

    /** What inTx returns when the work yields body: a refusal, a begin failure, a commit failure, or the body's own result. */
    function Settle<T>(p: Propagation, scope: Option<TxSlot>, t: TxHandle, body: Result<T>): Result<T>
    {
      match Route(p, scope)
      case Refuse(e) => Err(e)
      case Inline => body
      case Fresh =>
        if hooks.begin(t).Some? then Err(hooks.begin(t).value)
        else if body.Err? then body
        else if hooks.commit(t).Some? then Err(hooks.commit(t).value)
        else body
    }

    /** The transaction hooks inTx calls around the work. */
    function Trail<T>(p: Propagation, scope: Option<TxSlot>, t: TxHandle, body: Result<T>): seq<TxEvent>
    {
      if !Opens(p, scope, t) then []
      else if body.Err? then [Begin(t), Rollback(t)]
      else if hooks.commit(t).Some? then [Begin(t), Commit(t), Rollback(t)]
      else [Begin(t), Commit(t)]
    }

    /**
     * A transaction inTx begins is committed exactly once when the work
     * succeeds and rolled back exactly once when the work or the commit
     * fails; a failing work's own exception is what the caller gets, whatever
     * the rollback does. Without a new transaction no hook is called.
     */
    lemma CommitOrRollbackOnce<T>(p: Propagation, scope: Option<TxSlot>, t: TxHandle, body: Result<T>)
      ensures !Opens(p, scope, t) ==> Trail(p, scope, t, body) == []
      ensures Opens(p, scope, t) ==> (Trail(p, scope, t, body)[0] == Begin(t)
        && Occurrences(Trail(p, scope, t, body), Begin(t)) == 1
        && Occurrences(Trail(p, scope, t, body), Commit(t)) == (if body.Ok? then 1 else 0)
        && Occurrences(Trail(p, scope, t, body), Rollback(t)) == (if Settle(p, scope, t, body).Err? then 1 else 0))
      ensures Opens(p, scope, t) && body.Err? ==> Settle(p, scope, t, body) == body
      ensures Route(p, scope).Inline? ==> Settle(p, scope, t, body) == body
    {
      if Opens(p, scope, t) {
        if body.Err? {
          CountTwo(Begin(t), Rollback(t), Begin(t));
          CountTwo(Begin(t), Rollback(t), Commit(t));
          CountTwo(Begin(t), Rollback(t), Rollback(t));
        } else if hooks.commit(t).Some? {
          CountThree(Begin(t), Commit(t), Rollback(t), Begin(t));
          CountThree(Begin(t), Commit(t), Rollback(t), Commit(t));
          CountThree(Begin(t), Commit(t), Rollback(t), Rollback(t));
        } else {
          CountTwo(Begin(t), Commit(t), Begin(t));
          CountTwo(Begin(t), Commit(t), Commit(t));
          CountTwo(Begin(t), Commit(t), Rollback(t));
        }
      }
    }

    /** The state after inTx ran a work that yielded body, against the state before it. */
    ghost predicate Ran<T>(events0: seq<TxEvent>, next0: TxHandle, p: Propagation, scope: Option<TxSlot>,
                           r: Result<T>, body: Result<T>)
      reads this
    {
      r == Settle(p, scope, next0, body)
      && events == events0 + Trail(p, scope, next0, body)
      && nextTx == (if Opens(p, scope, next0) then next0 + 1 else next0)
    }

    /** The first half of inTx: decide the route and, for a new transaction, call begin and bind it. */
    method Open(p: Propagation, scope: Option<TxSlot>) returns (inner: Result<Option<TxSlot>>)
      modifies this`events, this`nextTx
      ensures Route(p, scope).Refuse? ==> inner == Err(Route(p, scope).error)
      ensures Route(p, scope).Fresh? && hooks.begin(old(nextTx)).Some? ==> inner == Err(hooks.begin(old(nextTx)).value)
      ensures !Route(p, scope).Refuse? && !(Route(p, scope).Fresh? && hooks.begin(old(nextTx)).Some?)
        ==> inner == Ok(Inner(p, scope, old(nextTx)))
      ensures events == old(events) + (if Opens(p, scope, old(nextTx)) then [Begin(old(nextTx))] else [])
      ensures nextTx == (if Opens(p, scope, old(nextTx)) then old(nextTx) + 1 else old(nextTx))
    {
      var existing := CurrentTx(scope);
      var route := RouteOf(p, existing);
      if route.Refuse? {
        return Err(route.error);
      }
      if route.Inline? {
        return Ok(scope);
      }
      var t := nextTx;
      var failed := hooks.begin(t);
      if failed.Some? {
        return Err(failed.value);
      }
      nextTx := t + 1;
      events := events + [Begin(t)];
      return Ok(Some(TxSlot(this, t)));
    }

    /** The second half of runInNewTx: commit after a work that succeeded, roll back after one that failed or a commit that failed. */
    method Close<T>(isNew: bool, t: TxHandle, body: Result<T>) returns (r: Result<T>)
      modifies this`events
      ensures !isNew ==> r == body && events == old(events)
      ensures isNew ==> (events == old(events) + (
        if body.Err? then [Rollback(t)]
        else if hooks.commit(t).Some? then [Commit(t), Rollback(t)]
        else [Commit(t)]))
      ensures isNew ==> r == (if body.Ok? && hooks.commit(t).Some? then Err(hooks.commit(t).value) else body)
    {
      if !isNew {
        return body;
      }
      if body.Ok? {
        var failed := hooks.commit(t);
        events := events + [Commit(t)];
        if failed.None? {
          return body;
        }
        // the rollback's own exception is dropped
        var _ := hooks.rollback(t);
        events := events + [Rollback(t)];
        return Err(failed.value);
      }
      var _ := hooks.rollback(t);
      events := events + [Rollback(t)];
      return body;
    }

    /** Open and Close together give what inTx promises. */
    lemma OpenClose<T>(events0: seq<TxEvent>, next0: TxHandle, p: Propagation, scope: Option<TxSlot>,
                       events1: seq<TxEvent>, body: Result<T>, r: Result<T>)
      requires Opens(p, scope, next0)
      requires events1 == events0 + [Begin(next0)]
      requires body.Err? ==> r == body && events == events1 + [Rollback(next0)]
      requires body.Ok? && hooks.commit(next0).Some? ==> r == Err(hooks.commit(next0).value) && events == events1 + [Commit(next0), Rollback(next0)]
      requires body.Ok? && hooks.commit(next0).None? ==> r == body && events == events1 + [Commit(next0)]
      requires nextTx == next0 + 1
      ensures Ran(events0, next0, p, scope, r, body)
    {
    }

    /** inTx: the work, given the scope it runs under, run under the rule p. */
    method InTx<T>(p: Propagation, scope: Option<TxSlot>, work: Option<TxSlot> -> Result<T>) returns (r: Result<T>)
      modifies this`events, this`nextTx
      ensures Ran(old(events), old(nextTx), p, scope, r, work(Inner(p, scope, old(nextTx))))
    {
      var t := nextTx;
      var inner := Open(p, scope);
      if inner.Err? {
        return Err(inner.error);
      }
      var body := work(inner.value);
      r := Close(Opens(p, scope, t), t, body);
      if Opens(p, scope, old(nextTx)) {
        OpenClose(old(events), old(nextTx), p, scope, old(events) + [Begin(old(nextTx))], body, r);
      }
    }

    /** resolve: the entity and view a call names, or the registry's exception. */
    function ResolveRef(ref: Option<ViewRef>): Result<(EntityAuthoring, ViewDef)>
    {
      if ref.None? then Err(IllegalArgument("ref is required"))
      else if ref.value.entityType !in entities then Err(IllegalArgument("Unknown authoring type: " + ref.value.entityType))
      else if ref.value.viewDefId !in views then Err(IllegalArgument("Unknown view: " + ref.value.viewDefId))
      else Ok((entities[ref.value.entityType], views[ref.value.viewDefId]))
    }

    /** The query with a null one read as new Query(), its normalised filter, once validation has passed. */
    function Prepared(ea: EntityAuthoring, query: Option<Query>): Result<(Query, Option<Element>)>
    {
      var effective := query.UnwrapOr(EmptyQuery);
      var filter :- QueryNormalizer.Normalize(Some(effective));
      var _ :- QueryValidation.Validate(entities, Some(ea), Some(effective), filter);
      Ok((effective, filter))
    }

    /** substituteIfString: the schema placeholder of a text replaced by the namespace. */
    function SubstituteIfString(v: Value): (r: Value)
      ensures !v.VStr? ==> r == v
      ensures r.VStr? <==> v.VStr?
    {
      if v.VStr? then VStr(ReplaceAll(v.s, SchemaPlaceholder, namespace)) else v
    }

    /** A text without the placeholder, and any other value, is passed through; a leading placeholder becomes the namespace. */
    lemma SubstitutePassesPlain(v: Value, rest: string)
      ensures v.VStr? && !Occurs(v.s, SchemaPlaceholder) ==> SubstituteIfString(v) == v
      ensures SubstituteIfString(VStr(SchemaPlaceholder + rest)) == VStr(namespace + ReplaceAll(rest, SchemaPlaceholder, namespace))
    {
      if v.VStr? && !Occurs(v.s, SchemaPlaceholder) {
        ReplaceAbsent(v.s, SchemaPlaceholder, namespace);
      }
      ReplaceAtFront(SchemaPlaceholder, rest, namespace);
    }

    /** resolveSchema: with the schema flag, the base query's texts name the engine's schema; a blank schema is refused. */
    function ResolveSchema(view: ViewDef): (r: Result<ViewDef>)
      ensures view.sqlView.None? || !view.sqlView.value.schema ==> r == Ok(view)
      ensures view.sqlView.Some? && view.sqlView.value.schema && IsBlank(namespace)
        ==> r == Err(IllegalArgument("SqlViewDef.schema=true but engine has no schemaName"))
      ensures r.Ok? ==> (r.value.id == view.id && r.value.mapping == view.mapping
        && (r.value.sqlView.Some? <==> view.sqlView.Some?))
    {
      if view.sqlView.None? || !view.sqlView.value.schema then Ok(view)
      else if IsBlank(namespace) then Err(IllegalArgument("SqlViewDef.schema=true but engine has no schemaName"))
      else
        var sv := view.sqlView.value;
        Ok(ViewDef(view.id, view.mapping, Some(SqlViewDef(SubstituteIfString(sv.sql), SubstituteIfString(sv.projection), sv.schema))))
    }

    /**
     * select: resolve, normalise, validate, build with the schema resolved,
     * and execute under the transaction bound to this engine, if any. As a
     * function of its inputs, it calls no transaction hook.
     */
    function Select(scope: Option<TxSlot>, ref: Option<ViewRef>, query: Option<Query>): (r: Result<seq<Value>>)
      ensures ResolveRef(ref).Err? ==> r == Err(ResolveRef(ref).error)
      ensures ResolveRef(ref).Ok? && Prepared(ResolveRef(ref).value.0, query).Err?
        ==> r == Err(Prepared(ResolveRef(ref).value.0, query).error)
    {
      var (ea, view) :- ResolveRef(ref);
      var (effective, filter) :- Prepared(ea, query);
      var v :- ResolveSchema(view);
      var stmt :- hooks.mergeSelect(ea, v, effective, filter);
      hooks.executeSelect(CurrentTx(scope), view, stmt)
    }

    /** count: as select, with the count statement. */
    function Count(scope: Option<TxSlot>, ref: Option<ViewRef>, query: Option<Query>): (r: Result<int>)
      ensures ResolveRef(ref).Err? ==> r == Err(ResolveRef(ref).error)
      ensures ResolveRef(ref).Ok? && Prepared(ResolveRef(ref).value.0, query).Err?
        ==> r == Err(Prepared(ResolveRef(ref).value.0, query).error)
    {
      var (ea, view) :- ResolveRef(ref);
      var (effective, filter) :- Prepared(ea, query);
      var v :- ResolveSchema(view);
      var stmt :- hooks.mergeCount(ea, v, effective, filter);
      hooks.executeCount(CurrentTx(scope), view, stmt)
    }

    /** A read sees the transaction of the scope it is called in, and only this engine's. */
    lemma ReadsSeeOwnTx(ref: Option<ViewRef>, query: Option<Query>, other: object, tx: TxHandle)
      requires other != this
      ensures Select(Some(TxSlot(other, tx)), ref, query) == Select(None, ref, query)
      ensures Count(Some(TxSlot(other, tx)), ref, query) == Count(None, ref, query)
    {
      assert CurrentTx(Some(TxSlot(other, tx))) == CurrentTx(None);
    }

    /** The auto-generated field a generated value is written to: none when the insert gave its column a value or its type is not a scalar id. */
    function GeneratedTarget(ea: EntityAuthoring, view: ViewDef, ast: InsertAst): (r: Option<Field>)
      ensures r.Some? ==> (r.value.def.autoGenerated && r.value.def.typeRef.Scalar?
        && !Explicit(ast.columns, ViewMappings.Ref(view, r.value.name)))
    {
      match GeneratedField(ea.fields)
      case None => None
      case Some(k) =>
        var f := ea.fields[k];
        if Explicit(ast.columns, ViewMappings.Ref(view, f.name)) || !f.def.typeRef.Scalar? then None
        else Some(f)
    }

    /**
     * applyGeneratedIdIfNeeded as a value: the entity with the decoded
     * generated value set on the target field, or the entity unchanged when
     * there is no entity, no generated value, no target, a blank field name
     * or a null decoding. Resolving the type or decoding may fail.
     */
    function GeneratedIdApplied(ea: EntityAuthoring, view: ViewDef, ast: InsertAst, entity: Value, rawId: Value): Result<Value>
    {
      if entity == VNull || rawId == VNull then Ok(entity)
      else match GeneratedTarget(ea, view, ast)
        case None => Ok(entity)
        case Some(f) => WriteGenerated(f, entity, rawId)
    }

    /** The generated value decoded with the field's type and set on the entity through invokeFluentSetter. */
    function WriteGenerated(f: Field, entity: Value, rawId: Value): Result<Value>
      requires f.def.typeRef.Scalar?
    {
      var ut :- userTypes.Resolve(f.def.typeRef.userTypeId, false);
      SetDecoded(f, ut, entity, rawId)
    }

    /** invokeFluentSetter after decoding: nothing is set for a blank field name or a null value. */
    function SetDecoded(f: Field, ut: UserTypes.UserType, entity: Value, rawId: Value): Result<Value>
    {
      var decoded :- UserTypes.Decode(codecs, ut, rawId);
      if IsBlank(f.name) || decoded == VNull then Ok(entity)
      else Ok(mutator(entity, f.name, decoded))
    }

    /** The target is the key and auto-generated field when there is one, else the first auto-generated field. */
    lemma GeneratedTargetIsPreferred(ea: EntityAuthoring, view: ViewDef, ast: InsertAst)
      ensures GeneratedTarget(ea, view, ast).Some? ==> (GeneratedField(ea.fields).Some?
        && ea.fields[GeneratedField(ea.fields).value] == GeneratedTarget(ea, view, ast).value)
      ensures ((exists i :: 0 <= i < |ea.fields| && ea.fields[i].def.autoGenerated && ea.fields[i].def.key)
        && GeneratedTarget(ea, view, ast).Some?) ==> GeneratedTarget(ea, view, ast).value.def.key
      ensures (forall i :: 0 <= i < |ea.fields| ==> !ea.fields[i].def.autoGenerated) ==> GeneratedTarget(ea, view, ast).None?
    {
      GeneratedFieldPrefersKey(ea.fields);
    }

    /** The entity is changed only when there is an entity, a generated value and a target field. */
    lemma GeneratedIdOnlyOnTarget(ea: EntityAuthoring, view: ViewDef, ast: InsertAst, entity: Value, rawId: Value)
      ensures GeneratedIdApplied(ea, view, ast, entity, rawId).Ok? && GeneratedIdApplied(ea, view, ast, entity, rawId).value != entity
        ==> (entity != VNull && rawId != VNull && GeneratedTarget(ea, view, ast).Some?
          && !IsBlank(GeneratedTarget(ea, view, ast).value.name))
    {
    }

    /** With a target and a non-null decoding, the decoded value is set on the target through the mutator. */
    lemma GeneratedIdWritten(ea: EntityAuthoring, view: ViewDef, ast: InsertAst, entity: Value, rawId: Value,
                             f: Field, ut: UserTypes.UserType, decoded: Value)
      requires entity != VNull && rawId != VNull && GeneratedTarget(ea, view, ast) == Some(f)
      requires userTypes.Resolve(f.def.typeRef.userTypeId, false) == Ok(ut)
      requires UserTypes.Decode(codecs, ut, rawId) == Ok(decoded) && decoded != VNull && !IsBlank(f.name)
      ensures GeneratedIdApplied(ea, view, ast, entity, rawId) == Ok(mutator(entity, f.name, decoded))
    {
    }

    /** The two field scans of applyGeneratedIdIfNeeded. */
    method FindGeneratedField(fields: seq<Field>) returns (r: Option<nat>)
      ensures r == GeneratedField(fields)
    {
      r := None;
      var i := 0;
      while i < |fields|
        invariant 0 <= i <= |fields|
        invariant forall j :: 0 <= j < i ==> !(fields[j].def.autoGenerated && fields[j].def.key)
      {
        if fields[i].def.autoGenerated && fields[i].def.key {
          r := Some(i);
          return;
        }
        i := i + 1;
      }
      i := 0;
      while i < |fields|
        invariant 0 <= i <= |fields|
        invariant forall j :: 0 <= j < i ==> !fields[j].def.autoGenerated
      {
        if fields[i].def.autoGenerated {
          r := Some(i);
          return;
        }
        i := i + 1;
      }
    }

    /** The scan for an explicit value in the insert's columns. */
    method HasExplicit(cols: seq<ColumnBind>, col: string) returns (explicit: bool)
      ensures explicit == Explicit(cols, col)
    {
      explicit := false;
      for i := 0 to |cols|
        invariant !Explicit(cols[..i], col)
      {
        assert cols[..i + 1] == cols[..i] + [cols[i]];
        if col == cols[i].column && cols[i].bind.value != VNull {
          assert cols[i] == cols[..i + 1][i];
          explicit := true;
          return;
        }
      }
      assert cols[..|cols|] == cols;
    }

    method FindTarget(ea: EntityAuthoring, view: ViewDef, ast: InsertAst) returns (r: Option<Field>)
      ensures r == GeneratedTarget(ea, view, ast)
    {
      var k := FindGeneratedField(ea.fields);
      if k.None? {
        return None;
      }
      var f := ea.fields[k.value];
      var explicit := HasExplicit(ast.columns, ViewMappings.Ref(view, f.name));
      if explicit || !f.def.typeRef.Scalar? {
        return None;
      }
      return Some(f);
    }

    method ApplyGeneratedIdIfNeeded(ea: EntityAuthoring, view: ViewDef, ast: InsertAst, entity: Value, rawId: Value)
      returns (r: Result<Value>)
      requires userTypes.Valid()
      modifies userTypes
      ensures userTypes.Valid()
      ensures r == GeneratedIdApplied(ea, view, ast, entity, rawId)
    {
      if entity == VNull || rawId == VNull {
        return Ok(entity);
      }
      var target := FindTarget(ea, view, ast);
      if target.None? {
        return Ok(entity);
      }
      r := DecodeAndSet(target.value, entity, rawId);
    }

    method DecodeAndSet(f: Field, entity: Value, rawId: Value) returns (r: Result<Value>)
      requires userTypes.Valid() && f.def.typeRef.Scalar?
      modifies userTypes
      ensures userTypes.Valid()
      ensures r == WriteGenerated(f, entity, rawId)
    {
      var ut := userTypes.Get(f.def.typeRef.userTypeId);
      if ut.Err? {
        return Err(ut.error);
      }
      r := SetDecoded(f, ut.value, entity, rawId);
    }

    /** The work of insert under the scope it runs in. */
    function InsertBody(ea: EntityAuthoring, view: ViewDef, entity: Value, inner: Option<TxSlot>): Result<Value>
    {
      var ast :- planner.planInsert(ea, view, entity, true);
      var stmt :- hooks.renderDml(ea, view, Dml.Insert(ast));
      var rawId :- hooks.executeInsertForId(CurrentTx(inner), ea, view, ast, stmt);
      GeneratedIdApplied(ea, view, ast, entity, rawId)
    }

    /** The work of upsert: the generated id is looked for in the upsert's insert part. */
    function UpsertBody(ea: EntityAuthoring, view: ViewDef, entity: Value, inner: Option<TxSlot>): Result<Value>
    {
      var ast :- planner.planUpsert(ea, view, entity, true);
      var stmt :- hooks.renderDml(ea, view, Dml.Upsert(ast));
      var rawId :- hooks.executeUpsertForId(CurrentTx(inner), ea, view, ast, stmt);
      GeneratedIdApplied(ea, view, ast.insert, entity, rawId)
    }

    function UpdateBody(ea: EntityAuthoring, view: ViewDef, entity: Value, inner: Option<TxSlot>): Result<int>
    {
      var ast :- planner.planUpdateById(ea, view, entity);
      var stmt :- hooks.renderDml(ea, view, Dml.Update(ast));
      hooks.executeUpdate(CurrentTx(inner), ea, view, ast, stmt)
    }

    /** The work of updateByCriteria: the query is normalised and validated inside the transaction. */
    function UpdateByCriteriaBody(ea: EntityAuthoring, view: ViewDef, query: Option<Query>, entity: Value, inner: Option<TxSlot>): Result<int>
    {
      var (_, where) :- Prepared(ea, query);
      var ast :- planner.planUpdateByCriteria(ea, view, entity, where);
      var stmt :- hooks.renderDml(ea, view, Dml.Update(ast));
      hooks.executeUpdate(CurrentTx(inner), ea, view, ast, stmt)
    }

    function DeleteBody(ea: EntityAuthoring, view: ViewDef, query: Option<Query>, inner: Option<TxSlot>): Result<int>
    {
      var (_, where) :- Prepared(ea, query);
      var ast :- planner.planDeleteByCriteria(ea, view, where);
      var stmt :- hooks.renderDml(ea, view, Dml.Delete(ast));
      hooks.executeDelete(CurrentTx(inner), ea, view, ast, stmt)
    }

    /** The write hooks run under the transaction inTx bound, never under another engine's. */
    lemma WritesSeeInnerTx(p: Propagation, scope: Option<TxSlot>, t: TxHandle)
      requires Route(p, scope).Fresh?
      ensures CurrentTx(Inner(p, scope, t)) == Some(t)
    {
    }

    method InsertWork(ea: EntityAuthoring, view: ViewDef, entity: Value, inner: Option<TxSlot>) returns (r: Result<Value>)
      requires userTypes.Valid()
      modifies userTypes
      ensures userTypes.Valid()
      ensures r == InsertBody(ea, view, entity, inner)
    {
      var ast := planner.planInsert(ea, view, entity, true);
      if ast.Err? { return Err(ast.error); }
      var stmt := hooks.renderDml(ea, view, Dml.Insert(ast.value));
      if stmt.Err? { return Err(stmt.error); }
      var rawId := hooks.executeInsertForId(CurrentTx(inner), ea, view, ast.value, stmt.value);
      if rawId.Err? { return Err(rawId.error); }
      r := ApplyGeneratedIdIfNeeded(ea, view, ast.value, entity, rawId.value);
    }

    method UpsertWork(ea: EntityAuthoring, view: ViewDef, entity: Value, inner: Option<TxSlot>) returns (r: Result<Value>)
      requires userTypes.Valid()
      modifies userTypes
      ensures userTypes.Valid()
      ensures r == UpsertBody(ea, view, entity, inner)
    {
      var ast := planner.planUpsert(ea, view, entity, true);
      if ast.Err? { return Err(ast.error); }
      var stmt := hooks.renderDml(ea, view, Dml.Upsert(ast.value));
      if stmt.Err? { return Err(stmt.error); }
      var rawId := hooks.executeUpsertForId(CurrentTx(inner), ea, view, ast.value, stmt.value);
      if rawId.Err? { return Err(rawId.error); }
      r := ApplyGeneratedIdIfNeeded(ea, view, ast.value.insert, entity, rawId.value);
    }

    /** insert: plan, render, execute for the generated id and write it back, inside inTx with the default propagation. */
    method Insert(scope: Option<TxSlot>, ref: Option<ViewRef>, entity: Value) returns (r: Result<Value>)
      requires Valid()
      modifies this, userTypes
      ensures Valid()
      ensures ResolveRef(ref).Err? ==> r == Err(ResolveRef(ref).error) && events == old(events) && nextTx == old(nextTx)
      ensures ResolveRef(ref).Ok? ==> Ran(old(events), old(nextTx), defaultPropagation, scope, r,
        InsertBody(ResolveRef(ref).value.0, ResolveRef(ref).value.1, entity, Inner(defaultPropagation, scope, old(nextTx))))
    {
      var rv := ResolveRef(ref);
      if rv.Err? {
        return Err(rv.error);
      }
      var (ea, view) := rv.value;
      var t := nextTx;
      var inner := Open(defaultPropagation, scope);
      if inner.Err? {
        return Err(inner.error);
      }
      var body := InsertWork(ea, view, entity, inner.value);
      r := Close(Opens(defaultPropagation, scope, t), t, body);
      if Opens(defaultPropagation, scope, old(nextTx)) {
        OpenClose(old(events), old(nextTx), defaultPropagation, scope, old(events) + [Begin(old(nextTx))], body, r);
      }
    }

    /** upsert: as insert, with the upsert plan. */
    method Upsert(scope: Option<TxSlot>, ref: Option<ViewRef>, entity: Value) returns (r: Result<Value>)
      requires Valid()
      modifies this, userTypes
      ensures Valid()
      ensures ResolveRef(ref).Err? ==> r == Err(ResolveRef(ref).error) && events == old(events) && nextTx == old(nextTx)
      ensures ResolveRef(ref).Ok? ==> Ran(old(events), old(nextTx), defaultPropagation, scope, r,
        UpsertBody(ResolveRef(ref).value.0, ResolveRef(ref).value.1, entity, Inner(defaultPropagation, scope, old(nextTx))))
    {
      var rv := ResolveRef(ref);
      if rv.Err? {
        return Err(rv.error);
      }
      var (ea, view) := rv.value;
      var t := nextTx;
      var inner := Open(defaultPropagation, scope);
      if inner.Err? {
        return Err(inner.error);
      }
      var body := UpsertWork(ea, view, entity, inner.value);
      r := Close(Opens(defaultPropagation, scope, t), t, body);
      if Opens(defaultPropagation, scope, old(nextTx)) {
        OpenClose(old(events), old(nextTx), defaultPropagation, scope, old(events) + [Begin(old(nextTx))], body, r);
      }
    }

    /** update: updateById inside inTx with the default propagation. */
    method Update(scope: Option<TxSlot>, ref: Option<ViewRef>, entity: Value) returns (r: Result<int>)
      modifies this
      ensures ResolveRef(ref).Err? ==> r == Err(ResolveRef(ref).error) && events == old(events) && nextTx == old(nextTx)
      ensures ResolveRef(ref).Ok? ==> Ran(old(events), old(nextTx), defaultPropagation, scope, r,
        UpdateBody(ResolveRef(ref).value.0, ResolveRef(ref).value.1, entity, Inner(defaultPropagation, scope, old(nextTx))))
    {
      var rv := ResolveRef(ref);
      if rv.Err? {
        return Err(rv.error);
      }
      var (ea, view) := rv.value;
      r := InTx(defaultPropagation, scope, s => UpdateBody(ea, view, entity, s));
    }

    /** updateByCriteria: normalise, validate, plan, render and execute inside inTx. */
    method UpdateByCriteria(scope: Option<TxSlot>, ref: Option<ViewRef>, query: Option<Query>, entity: Value) returns (r: Result<int>)
      modifies this
      ensures ResolveRef(ref).Err? ==> r == Err(ResolveRef(ref).error) && events == old(events) && nextTx == old(nextTx)
      ensures ResolveRef(ref).Ok? ==> Ran(old(events), old(nextTx), defaultPropagation, scope, r,
        UpdateByCriteriaBody(ResolveRef(ref).value.0, ResolveRef(ref).value.1, query, entity, Inner(defaultPropagation, scope, old(nextTx))))
    {
      var rv := ResolveRef(ref);
      if rv.Err? {
        return Err(rv.error);
      }
      var (ea, view) := rv.value;
      r := InTx(defaultPropagation, scope, s => UpdateByCriteriaBody(ea, view, query, entity, s));
    }

    /** deleteByCriteria: normalise, validate, plan, render and execute inside inTx. */
    method DeleteByCriteria(scope: Option<TxSlot>, ref: Option<ViewRef>, query: Option<Query>) returns (r: Result<int>)
      modifies this
      ensures ResolveRef(ref).Err? ==> r == Err(ResolveRef(ref).error) && events == old(events) && nextTx == old(nextTx)
      ensures ResolveRef(ref).Ok? ==> Ran(old(events), old(nextTx), defaultPropagation, scope, r,
        DeleteBody(ResolveRef(ref).value.0, ResolveRef(ref).value.1, query, Inner(defaultPropagation, scope, old(nextTx))))
    {
      var rv := ResolveRef(ref);
      if rv.Err? {
        return Err(rv.error);
      }
      var (ea, view) := rv.value;
      r := InTx(defaultPropagation, scope, s => DeleteBody(ea, view, query, s));
    }

    /** Once inTx has run the work, a nested call with any rule but REQUIRES_NEW joins that transaction. */
    lemma NestedCallsJoin(p: Propagation, scope: Option<TxSlot>, t: TxHandle)
      requires p != REQUIRES_NEW && !Route(p, scope).Refuse?
      ensures Route(p, Inner(p, scope, t)).Inline?
      ensures Route(p, scope).Fresh? ==> CurrentTx(Inner(p, scope, t)) == Some(t)
    {
    }

    /**
     * The work of bulkInsert: every entity inserted in order, stopping at the
     * first failure; the ref is resolved per entity. The result is the batch
     * as insert left it, each entity with its generated id written.
     */
    function InsertAll(ref: Option<ViewRef>, es: seq<Value>, inner: Option<TxSlot>): Result<seq<Value>>
    {
      if |es| == 0 then Ok([])
      else
        var pre :- InsertAll(ref, es[..|es| - 1], inner);
        var (ea, view) :- ResolveRef(ref);
        var e :- InsertBody(ea, view, es[|es| - 1], inner);
        Ok(pre + [e])
    }

    /** The work of bulkUpsert: as bulkInsert, with upsert. */
    function UpsertAll(ref: Option<ViewRef>, es: seq<Value>, inner: Option<TxSlot>): Result<seq<Value>>
    {
      if |es| == 0 then Ok([])
      else
        var pre :- UpsertAll(ref, es[..|es| - 1], inner);
        var (ea, view) :- ResolveRef(ref);
        var e :- UpsertBody(ea, view, es[|es| - 1], inner);
        Ok(pre + [e])
    }

    /** The work of bulkUpdate: the sum of the rows each update reports. */
    function UpdateAll(ref: Option<ViewRef>, es: seq<Value>, inner: Option<TxSlot>): Result<int>
    {
      if |es| == 0 then Ok(0)
      else
        var total :- UpdateAll(ref, es[..|es| - 1], inner);
        var (ea, view) :- ResolveRef(ref);
        var n :- UpdateBody(ea, view, es[|es| - 1], inner);
        Ok(total + n)
    }

    /** An empty batch never resolves the ref: it succeeds whatever the ref names. */
    lemma EmptyBatchSucceeds(ref: Option<ViewRef>, inner: Option<TxSlot>)
      ensures InsertAll(ref, [], inner) == Ok([]) && UpsertAll(ref, [], inner) == Ok([])
      ensures UpdateAll(ref, [], inner) == Ok(0)
    {
    }

    /**
     * A batch that succeeds has inserted every entity, and hands back each
     * one as its own insert did, id written; one whose ref does not resolve
     * fails with the resolution error.
     */
    lemma {:induction false} InsertAllEach(ref: Option<ViewRef>, es: seq<Value>, inner: Option<TxSlot>)
      ensures InsertAll(ref, es, inner).Ok? <==> (|es| == 0 || (ResolveRef(ref).Ok?
        && forall i :: 0 <= i < |es| ==> InsertBody(ResolveRef(ref).value.0, ResolveRef(ref).value.1, es[i], inner).Ok?))
      ensures InsertAll(ref, es, inner).Ok? ==> |InsertAll(ref, es, inner).value| == |es|
      ensures InsertAll(ref, es, inner).Ok? && |es| > 0 ==> forall i :: 0 <= i < |es| ==>
        InsertAll(ref, es, inner).value[i] == InsertBody(ResolveRef(ref).value.0, ResolveRef(ref).value.1, es[i], inner).value
      ensures |es| > 0 && ResolveRef(ref).Err? ==> InsertAll(ref, es, inner) == Err(ResolveRef(ref).error)
      decreases |es|
    {
      if |es| > 0 {
        var pre := es[..|es| - 1];
        InsertAllEach(ref, pre, inner);
        if ResolveRef(ref).Ok? {
          var (ea, view) := ResolveRef(ref).value;
          if InsertAll(ref, es, inner).Ok? {
            forall i | 0 <= i < |es|
              ensures InsertBody(ea, view, es[i], inner).Ok?
              ensures InsertAll(ref, es, inner).value[i] == InsertBody(ea, view, es[i], inner).value
            {
              if i < |es| - 1 {
                assert es[i] == pre[i];
              }
            }
          } else if InsertAll(ref, pre, inner).Err? {
            assert |pre| > 0;
            var i :| 0 <= i < |pre| && !InsertBody(ea, view, pre[i], inner).Ok?;
            assert es[i] == pre[i];
          }
        }
      }
    }

    /** A batch update reports the sum of the rows of the single updates. */
    lemma {:induction false} UpdateAllSums(ref: Option<ViewRef>, es: seq<Value>, inner: Option<TxSlot>, counts: seq<int>)
      requires ResolveRef(ref).Ok? && |counts| == |es|
      requires forall i :: 0 <= i < |es| ==> UpdateBody(ResolveRef(ref).value.0, ResolveRef(ref).value.1, es[i], inner) == Ok(counts[i])
      ensures UpdateAll(ref, es, inner) == Ok(Sum(counts))
      decreases |es|
    {
      if |es| > 0 {
        UpdateAllSums(ref, es[..|es| - 1], inner, counts[..|counts| - 1]);
      }
    }

    /** A batch stops at its first failure: the error of a prefix is the error of the batch. */
    lemma {:induction false} InsertAllStops(ref: Option<ViewRef>, es: seq<Value>, k: nat, inner: Option<TxSlot>)
      requires k <= |es| && InsertAll(ref, es[..k], inner).Err?
      ensures InsertAll(ref, es, inner) == InsertAll(ref, es[..k], inner)
      decreases |es| - k
    {
      if k < |es| {
        assert es[..k + 1][..k] == es[..k];
        InsertAllStops(ref, es, k + 1, inner);
      } else {
        assert es[..k] == es;
      }
    }

    lemma {:induction false} UpsertAllStops(ref: Option<ViewRef>, es: seq<Value>, k: nat, inner: Option<TxSlot>)
      requires k <= |es| && UpsertAll(ref, es[..k], inner).Err?
      ensures UpsertAll(ref, es, inner) == UpsertAll(ref, es[..k], inner)
      decreases |es| - k
    {
      if k < |es| {
        assert es[..k + 1][..k] == es[..k];
        UpsertAllStops(ref, es, k + 1, inner);
      } else {
        assert es[..k] == es;
      }
    }

    lemma {:induction false} UpdateAllStops(ref: Option<ViewRef>, es: seq<Value>, k: nat, inner: Option<TxSlot>)
      requires k <= |es| && UpdateAll(ref, es[..k], inner).Err?
      ensures UpdateAll(ref, es, inner) == UpdateAll(ref, es[..k], inner)
      decreases |es| - k
    {
      if k < |es| {
        assert es[..k + 1][..k] == es[..k];
        UpdateAllStops(ref, es, k + 1, inner);
      } else {
        assert es[..k] == es;
      }
    }

    method InsertEach(inner: Option<TxSlot>, ref: Option<ViewRef>, es: seq<Value>) returns (r: Result<seq<Value>>)
      requires Valid()
      modifies this, userTypes
      ensures Valid()
      ensures Route(defaultPropagation, inner).Inline?
        ==> r == InsertAll(ref, es, inner) && events == old(events) && nextTx == old(nextTx)
    {
      var out := [];
      for i := 0 to |es|
        invariant Valid()
        invariant Route(defaultPropagation, inner).Inline?
          ==> InsertAll(ref, es[..i], inner) == Ok(out) && events == old(events) && nextTx == old(nextTx)
      {
        assert es[..i + 1][..i] == es[..i];
        var x := Insert(inner, ref, es[i]);
        if x.Err? {
          if Route(defaultPropagation, inner).Inline? {
            InsertAllStops(ref, es, i + 1, inner);
          }
          return Err(x.error);
        }
        out := out + [x.value];
      }
      assert es[..|es|] == es;
      return Ok(out);
    }

    method UpsertEach(inner: Option<TxSlot>, ref: Option<ViewRef>, es: seq<Value>) returns (r: Result<seq<Value>>)
      requires Valid()
      modifies this, userTypes
      ensures Valid()
      ensures Route(defaultPropagation, inner).Inline?
        ==> r == UpsertAll(ref, es, inner) && events == old(events) && nextTx == old(nextTx)
    {
      var out := [];
      for i := 0 to |es|
        invariant Valid()
        invariant Route(defaultPropagation, inner).Inline?
          ==> UpsertAll(ref, es[..i], inner) == Ok(out) && events == old(events) && nextTx == old(nextTx)
      {
        assert es[..i + 1][..i] == es[..i];
        var x := Upsert(inner, ref, es[i]);
        if x.Err? {
          if Route(defaultPropagation, inner).Inline? {
            UpsertAllStops(ref, es, i + 1, inner);
          }
          return Err(x.error);
        }
        out := out + [x.value];
      }
      assert es[..|es|] == es;
      return Ok(out);
    }

    method UpdateEach(inner: Option<TxSlot>, ref: Option<ViewRef>, es: seq<Value>) returns (r: Result<int>)
      modifies this
      ensures Route(defaultPropagation, inner).Inline?
        ==> r == UpdateAll(ref, es, inner) && events == old(events) && nextTx == old(nextTx)
    {
      var total := 0;
      for i := 0 to |es|
        invariant Route(defaultPropagation, inner).Inline?
          ==> UpdateAll(ref, es[..i], inner) == Ok(total) && events == old(events) && nextTx == old(nextTx)
      {
        assert es[..i + 1][..i] == es[..i];
        var x := Update(inner, ref, es[i]);
        if x.Err? {
          if Route(defaultPropagation, inner).Inline? {
            UpdateAllStops(ref, es, i + 1, inner);
          }
          return Err(x.error);
        }
        total := total + x.value;
      }
      assert es[..|es|] == es;
      return Ok(total);
    }

    /**
     * bulkInsert: one inTx around the inserts, which join it unless the rule
     * is REQUIRES_NEW; the entities come back as the inserts left them.
     */
    method BulkInsert(scope: Option<TxSlot>, ref: Option<ViewRef>, entities: seq<Value>) returns (r: Result<seq<Value>>)
      requires Valid()
      modifies this, userTypes
      ensures Valid()
      ensures defaultPropagation != REQUIRES_NEW ==> Ran(old(events), old(nextTx), defaultPropagation, scope, r,
        InsertAll(ref, entities, Inner(defaultPropagation, scope, old(nextTx))))
    {
      var t := nextTx;
      var inner := Open(defaultPropagation, scope);
      if inner.Err? {
        return Err(inner.error);
      }
      if defaultPropagation != REQUIRES_NEW {
        NestedCallsJoin(defaultPropagation, scope, t);
      }
      var body := InsertEach(inner.value, ref, entities);
      r := Close(Opens(defaultPropagation, scope, t), t, body);
      if defaultPropagation != REQUIRES_NEW && Opens(defaultPropagation, scope, t) {
        OpenClose(old(events), t, defaultPropagation, scope, old(events) + [Begin(t)], body, r);
      }
    }

    /** bulkUpsert: one inTx around the upserts. */
    method BulkUpsert(scope: Option<TxSlot>, ref: Option<ViewRef>, entities: seq<Value>) returns (r: Result<seq<Value>>)
      requires Valid()
      modifies this, userTypes
      ensures Valid()
      ensures defaultPropagation != REQUIRES_NEW ==> Ran(old(events), old(nextTx), defaultPropagation, scope, r,
        UpsertAll(ref, entities, Inner(defaultPropagation, scope, old(nextTx))))
    {
      var t := nextTx;
      var inner := Open(defaultPropagation, scope);
      if inner.Err? {
        return Err(inner.error);
      }
      if defaultPropagation != REQUIRES_NEW {
        NestedCallsJoin(defaultPropagation, scope, t);
      }
      var body := UpsertEach(inner.value, ref, entities);
      r := Close(Opens(defaultPropagation, scope, t), t, body);
      if defaultPropagation != REQUIRES_NEW && Opens(defaultPropagation, scope, t) {
        OpenClose(old(events), t, defaultPropagation, scope, old(events) + [Begin(t)], body, r);
      }
    }

    /** bulkUpdate: one inTx around the updates, returning the total. */
    method BulkUpdate(scope: Option<TxSlot>, ref: Option<ViewRef>, entities: seq<Value>) returns (r: Result<int>)
      modifies this
      ensures defaultPropagation != REQUIRES_NEW ==> Ran(old(events), old(nextTx), defaultPropagation, scope, r,
        UpdateAll(ref, entities, Inner(defaultPropagation, scope, old(nextTx))))
    {
      var t := nextTx;
      var inner := Open(defaultPropagation, scope);
      if inner.Err? {
        return Err(inner.error);
      }
      if defaultPropagation != REQUIRES_NEW {
        NestedCallsJoin(defaultPropagation, scope, t);
      }
      var body := UpdateEach(inner.value, ref, entities);
      r := Close(Opens(defaultPropagation, scope, t), t, body);
      if defaultPropagation != REQUIRES_NEW && Opens(defaultPropagation, scope, t) {
        OpenClose(old(events), t, defaultPropagation, scope, old(events) + [Begin(t)], body, r);
      }
    }

    /** A validation failure inside updateByCriteria or deleteByCriteria reaches no execute hook: the work fails with it. */
    lemma InvalidQueryNeverExecutes(ea: EntityAuthoring, view: ViewDef, query: Option<Query>, entity: Value, inner: Option<TxSlot>)
      requires Prepared(ea, query).Err?
      ensures UpdateByCriteriaBody(ea, view, query, entity, inner) == Err(Prepared(ea, query).error)
      ensures DeleteBody(ea, view, query, inner) == Err(Prepared(ea, query).error)
    {
    }
  }
}
