/**
 * JdbcDmlPlanner: turns an entity, its view and a POJO into the DML
 * statements the SQL dialects render. Columns come from the view mapping;
 * values are read through the generated POJO accessors, which may be
 * missing (the single-argument constructor configures none), in which case
 * reading a property of a non-null POJO is an error.
 */
module JdbcDmlPlanner {
  import opened Wrappers
  import opened Strings
  import opened Values
  import opened QueryAst
  import opened Authoring
  import opened DmlAst
  import opened DmlPlanning

  /** A generated PojoAccessor: reads a property path off an object of the named entity type. */
  type Accessor = (string, Value, string) -> Value

  /** The planner's final fields: the entity registry, the accessors (None when not configured) and the normalised tenant-boundary keys. */
  datatype Planner = Planner(reg: Registry, accessors: Option<Accessor>, tenantKeys: set<string>)

  /** The three-argument constructor; the shorter ones pass no accessors and no keys. */
  method NewPlanner(reg: Registry, accessors: Option<Accessor>, tenantBoundaryKeys: set<string>) returns (p: Planner)
    ensures p.reg == reg && p.accessors == accessors
    ensures forall k :: k in p.tenantKeys ==> |k| > 0 && Trim(k) == k
    ensures p.tenantKeys == NormalizedKeys(tenantBoundaryKeys)
  {
    var keys := NormalizeKeySet(tenantBoundaryKeys);
    forall k | k in keys
      ensures |k| > 0 && Trim(k) == k
    {
      NormalizedKeysTrimmed(tenantBoundaryKeys, k);
    }
    p := Planner(reg, accessors, keys);
  }

  /** get: null for a null POJO; otherwise the entity and the accessors must be there. */
  function GetProperty(accessors: Option<Accessor>, ea: Option<EntityAuthoring>, pojo: Value, path: string): Result<Value>
  {
    if pojo == VNull then Ok(VNull)
    else if ea.None? then Err(IllegalArgument("EntityAuthoring is required to extract path: " + path))
    else if accessors.None? then
      Err(IllegalArgument("No PojoAccessorRegistry configured for JdbcDmlPlanner (type=" + ea.value.entityType + ")"))
    else Ok(accessors.value(ea.value.entityType, pojo, path))
  }

  /** The shared extraction as this planner runs it. */
  function Env(p: Planner): Planning
  {
    Planning(p.reg, (ea, pojo, path) => GetProperty(p.accessors, ea, pojo, path), p.tenantKeys,
             fd => IsTenantField(p.tenantKeys, fd))
  }

  lemma EnvTestsTenancy(p: Planner)
    ensures TestsTenancy(Env(p))
  {
  }

  /** requireTable: a blank (or null) source is an error naming the entity type. */
  function RequireTable(ea: EntityAuthoring): (r: Result<string>)
    ensures r.Ok? <==> !IsBlank(ea.source)
    ensures r.Ok? ==> r.value == ea.source
    ensures r.Err? ==> r.error == IllegalArgument("Entity authoring has no table source: " + ea.entityType)
  {
    if IsBlank(ea.source) then Err(IllegalArgument("Entity authoring has no table source: " + ea.entityType))
    else Ok(ea.source)
  }

  /** The insert columns of a POJO. */
  function InsertColumnsOf(p: Planner, ea: EntityAuthoring, view: ViewDef, pojo: Value, nulls: set<string>): Result<seq<ColumnBind>>
  {
    ExtractOf(Env(p), ea, view, pojo, nulls, ea.fields, false)
  }

  /** The update sets of a POJO. */
  function UpdateSetsOf(p: Planner, ea: EntityAuthoring, view: ViewDef, pojo: Value, nulls: set<string>): Result<seq<ColumnBind>>
  {
    ExtractOf(Env(p), ea, view, pojo, nulls, ea.fields, true)
  }

  /** planInsert: the table, the insert columns, and the key columns as returning columns iff returningKey. */
  method PlanInsert(p: Planner, ea: EntityAuthoring, view: ViewDef, pojo: Value, nulls: set<string>, returningKey: bool)
    returns (r: Result<InsertAst>)
    ensures IsBlank(ea.source) ==> r == Err(IllegalArgument("Entity authoring has no table source: " + ea.entityType))
    ensures !IsBlank(ea.source) && InsertColumnsOf(p, ea, view, pojo, nulls).Err? ==>
      r == Err(InsertColumnsOf(p, ea, view, pojo, nulls).error)
    ensures r.Ok? <==> !IsBlank(ea.source) && InsertColumnsOf(p, ea, view, pojo, nulls).Ok?
    ensures r.Ok? ==> r.value.table == ea.source && r.value.columns == InsertColumnsOf(p, ea, view, pojo, nulls).value
    ensures r.Ok? ==> r.value.returningColumns == if returningKey then KeyColumnsOf(view, ea.fields) else []
  {
    var table := RequireTable(ea);
    if table.Err? {
      return Err(table.error);
    }
    EnvTestsTenancy(p);
    var cols := ExtractColumns(Env(p), ea, view, pojo, nulls, false);
    if cols.Err? {
      return Err(cols.error);
    }
    var returning := [];
    if returningKey {
      returning := KeyColumns(view, ea.fields);
    }
    r := Ok(InsertAst(table.value, cols.value, returning));
  }

  /**
   * planUpdateById: the table, the update sets, then the single key field
   * (or "id") and its value, filtered by key = value; each step's error
   * ends the plan.
   */
  method PlanUpdateById(p: Planner, ea: EntityAuthoring, view: ViewDef, pojo: Value, nulls: set<string>)
    returns (r: Result<UpdateAst>)
    ensures IsBlank(ea.source) ==> r == Err(IllegalArgument("Entity authoring has no table source: " + ea.entityType))
    ensures !IsBlank(ea.source) && UpdateSetsOf(p, ea, view, pojo, nulls).Err? ==>
      r == Err(UpdateSetsOf(p, ea, view, pojo, nulls).error)
    ensures !IsBlank(ea.source) && UpdateSetsOf(p, ea, view, pojo, nulls).Ok? && |KeyFieldNames(ea.fields)| >= 2 ==>
      r == Err(IllegalArgument("Composite key not supported for updateById: " + ea.entityType))
    ensures (!IsBlank(ea.source) && UpdateSetsOf(p, ea, view, pojo, nulls).Ok? && |KeyFieldNames(ea.fields)| <= 1
             && GetProperty(p.accessors, Some(ea), pojo, KeyField(ea.fields)).Err?) ==>
      r == Err(GetProperty(p.accessors, Some(ea), pojo, KeyField(ea.fields)).error)
    ensures r.Ok? <==>
      !IsBlank(ea.source) && UpdateSetsOf(p, ea, view, pojo, nulls).Ok? && |KeyFieldNames(ea.fields)| <= 1
      && GetProperty(p.accessors, Some(ea), pojo, KeyField(ea.fields)).Ok?
    ensures r.Ok? ==> r.value == UpdateAst(ea.source, UpdateSetsOf(p, ea, view, pojo, nulls).value,
      Some(Eq(KeyField(ea.fields), GetProperty(p.accessors, Some(ea), pojo, KeyField(ea.fields)).value)))
  {
    var table := RequireTable(ea);
    if table.Err? {
      return Err(table.error);
    }
    EnvTestsTenancy(p);
    var sets := ExtractColumns(Env(p), ea, view, pojo, nulls, true);
    if sets.Err? {
      return Err(sets.error);
    }
    var keyField := RequireSingleKeyFieldOrId(ea);
    if keyField.Err? {
      return Err(keyField.error);
    }
    var id := GetProperty(p.accessors, Some(ea), pojo, keyField.value);
    if id.Err? {
      return Err(id.error);
    }
    r := Ok(UpdateAst(table.value, sets.value, Some(Eq(keyField.value, id.value))));
  }

  /** planUpdateByCriteria: the table and the update sets, with the caller's filter. */
  method PlanUpdateByCriteria(p: Planner, ea: EntityAuthoring, view: ViewDef, pojo: Value, nulls: set<string>,
                              where: Option<Element>) returns (r: Result<UpdateAst>)
    ensures IsBlank(ea.source) ==> r == Err(IllegalArgument("Entity authoring has no table source: " + ea.entityType))
    ensures !IsBlank(ea.source) && UpdateSetsOf(p, ea, view, pojo, nulls).Err? ==>
      r == Err(UpdateSetsOf(p, ea, view, pojo, nulls).error)
    ensures r.Ok? <==> !IsBlank(ea.source) && UpdateSetsOf(p, ea, view, pojo, nulls).Ok?
    ensures r.Ok? ==> r.value == UpdateAst(ea.source, UpdateSetsOf(p, ea, view, pojo, nulls).value, where)
  {
    var table := RequireTable(ea);
    if table.Err? {
      return Err(table.error);
    }
    EnvTestsTenancy(p);
    var sets := ExtractColumns(Env(p), ea, view, pojo, nulls, true);
    if sets.Err? {
      return Err(sets.error);
    }
    r := Ok(UpdateAst(table.value, sets.value, where));
  }

  /** planDeleteByCriteria: the table with the caller's filter. */
  function PlanDeleteByCriteria(ea: EntityAuthoring, where: Option<Element>): (r: Result<DeleteAst>)
    ensures r.Ok? <==> !IsBlank(ea.source)
    ensures r.Ok? ==> r.value.table == ea.source && r.value.where == where
    ensures r.Err? ==> r.error == IllegalArgument("Entity authoring has no table source: " + ea.entityType)
  {
    var table :- RequireTable(ea);
    Ok(DeleteAst(table, where))
  }

  /**
   * planUpsert: the insert plan, the key columns as conflict columns, and as
   * update columns the insert columns that are neither conflict columns nor
   * tenant-boundary columns, in insert order.
   */
  method PlanUpsert(p: Planner, ea: EntityAuthoring, view: ViewDef, pojo: Value, nulls: set<string>, returningKey: bool)
    returns (r: Result<UpsertAst>)
    ensures IsBlank(ea.source) ==> r == Err(IllegalArgument("Entity authoring has no table source: " + ea.entityType))
    ensures !IsBlank(ea.source) && InsertColumnsOf(p, ea, view, pojo, nulls).Err? ==>
      r == Err(InsertColumnsOf(p, ea, view, pojo, nulls).error)
    ensures r.Ok? <==> !IsBlank(ea.source) && InsertColumnsOf(p, ea, view, pojo, nulls).Ok?
    ensures r.Ok? ==> r.value.insert == InsertAst(ea.source, InsertColumnsOf(p, ea, view, pojo, nulls).value,
      if returningKey then KeyColumnsOf(view, ea.fields) else [])
    ensures r.Ok? ==> r.value.conflictColumns == KeyColumnsOf(view, ea.fields)
    ensures r.Ok? ==> r.value.updateColumns == KeptColumns(r.value.insert.columns,
      (set c | c in KeyColumnsOf(view, ea.fields)) + TenantColumnsOf(Env(p).tenant, view, ea.fields))
  {
    var ins := PlanInsert(p, ea, view, pojo, nulls, returningKey);
    if ins.Err? {
      return Err(ins.error);
    }
    var conflictCols := KeyColumns(view, ea.fields);
    EnvTestsTenancy(p);
    var tenantCols := TenantColumns(Env(p), view, ea.fields);
    var updateCols := UpsertUpdateColumns(ins.value.columns, conflictCols, tenantCols);
    r := Ok(UpsertAst(ins.value, conflictCols, updateCols));
  }

  /** A null POJO that is not a Nulls plans an insert with no columns. */
  lemma NullPojoInsertsNothing(p: Planner, ea: EntityAuthoring, view: ViewDef)
    ensures InsertColumnsOf(p, ea, view, VNull, {}) == Ok([])
    ensures UpdateSetsOf(p, ea, view, VNull, {}) == Ok([])
  {
    NullPojoNoColumns(Env(p), ea, view, ea.fields, false);
    NullPojoNoColumns(Env(p), ea, view, ea.fields, true);
  }

  /** Without accessors, a non-null POJO whose first field is a scalar cannot be read: the plan fails naming the entity type. */
  lemma NoAccessorsRejected(p: Planner, ea: EntityAuthoring, view: ViewDef, pojo: Value, nulls: set<string>)
    requires p.accessors.None? && pojo != VNull
    requires |ea.fields| > 0 && !ea.fields[0].def.typeRef.Ref?
    ensures InsertColumnsOf(p, ea, view, pojo, nulls)
      == Err(IllegalArgument("No PojoAccessorRegistry configured for JdbcDmlPlanner (type=" + ea.entityType + ")"))
  {
    var fs := ea.fields;
    var e := IllegalArgument("No PojoAccessorRegistry configured for JdbcDmlPlanner (type=" + ea.entityType + ")");
    assert Env(p).get(Some(ea), pojo, fs[0].name) == Err(e);
    assert FieldBindsOf(Env(p), ea, view, pojo, nulls, fs[0]) == Err(e);
    var one := fs[..1];
    assert one[..|one| - 1] == [] && one[|one| - 1] == fs[0];
    assert ExtractOf(Env(p), ea, view, pojo, nulls, one, false) == Err(e);
    ExtractStopped(Env(p), ea, view, pojo, nulls, fs, false, 1);
  }
}
