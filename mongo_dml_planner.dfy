/**
 * MongoDmlPlanner: the same planner contract for collections. Paths come
 * from the view mapping; the accessors are required at construction, so
 * reading a property never fails: the only way extraction fails is a
 * nested reference whose entity the registry does not know.
 */
module MongoDmlPlanner {
  import opened Wrappers
  import opened Strings
  import opened Values
  import opened QueryAst
  import opened Authoring
  import opened DmlAst
  import opened DmlPlanning

  /** A generated PojoAccessor: reads a property path off an object of the named entity type. */
  type Accessor = (string, Value, string) -> Value

  /** The planner's final fields: the entity registry, the accessors and the normalised tenant-boundary keys. */
  datatype Planner = Planner(reg: Registry, accessors: Accessor, tenantKeys: set<string>)

  /** The constructor: a null registry or null accessors is refused, the registry first. */
  method Create(reg: Option<Registry>, accessors: Option<Accessor>, tenantBoundaryKeys: set<string>)
    returns (r: Result<Planner>)
    ensures reg.None? ==> r == Err(NullPointer("authoring"))
    ensures reg.Some? && accessors.None? ==> r == Err(NullPointer("accessors"))
    ensures r.Ok? <==> reg.Some? && accessors.Some?
    ensures r.Ok? ==> r.value.reg == reg.value && r.value.accessors == accessors.value
    ensures r.Ok? ==> r.value.tenantKeys == NormalizedKeys(tenantBoundaryKeys)
  {
    if reg.None? {
      return Err(NullPointer("authoring"));
    }
    if accessors.None? {
      return Err(NullPointer("accessors"));
    }
    var keys := NormalizeKeySet(tenantBoundaryKeys);
    r := Ok(Planner(reg.value, accessors.value, keys));
  }

  /**
   * get, together with the guard around the nested reads: null for a null
   * POJO or an unresolved entity, otherwise what the accessor reads.
   */
  function GetProperty(accessors: Accessor, ea: Option<EntityAuthoring>, pojo: Value, path: string): (r: Result<Value>)
    ensures r.Ok?
  {
    if pojo == VNull || ea.None? then Ok(VNull)
    else Ok(accessors(ea.value.entityType, pojo, path))
  }

  /** The shared extraction as this planner runs it. */
  function Env(p: Planner): Planning
  {
    Planning(p.reg, (ea, pojo, path) => GetProperty(p.accessors, ea, pojo, path), p.tenantKeys,
             fd => IsTenantField(p.tenantKeys, fd))
  }

  lemma EnvTestsTenancy(p: Planner)
    ensures TestsTenancy(Env(p))
  {
  }

  /** requireCollection: a blank (or null) source is an error naming the entity type. */
  function RequireCollection(ea: EntityAuthoring): (r: Result<string>)
    ensures r.Ok? <==> !IsBlank(ea.source)
    ensures r.Ok? ==> r.value == ea.source
    ensures r.Err? ==> r.error == IllegalArgument("Entity authoring has no collection source: " + ea.entityType)
  {
    if IsBlank(ea.source) then Err(IllegalArgument("Entity authoring has no collection source: " + ea.entityType))
    else Ok(ea.source)
  }

  /** The paths of a nested object, in entry order: never an error here. */
  lemma {:induction false} ChildBindsTotal(p: Planner, childEa: Option<EntityAuthoring>, child: Value, fm: seq<Entry>)
    ensures ChildBindsOf(Env(p).get, childEa, child, fm).Ok?
    decreases |fm|
  {
    if |fm| > 0 {
      ChildBindsTotal(p, childEa, child, fm[..|fm| - 1]);
      assert Env(p).get(childEa, child, fm[|fm| - 1].key).Ok?;
    }
  }

  /**
   * Extraction fails only at a reference field whose entity the registry
   * refuses, with the registry's error; when every field's reference
   * resolves it succeeds.
   */
  lemma {:induction false} ExtractRefusesOnlyUnknownRefs(p: Planner, ea: EntityAuthoring, view: ViewDef, pojo: Value,
                                                         nulls: set<string>, fields: seq<Field>, update: bool)
    ensures (forall i :: 0 <= i < |fields| ==> RefEntity(p.reg, ea, fields[i].name).Ok?) ==>
      ExtractOf(Env(p), ea, view, pojo, nulls, fields, update).Ok?
    ensures ExtractOf(Env(p), ea, view, pojo, nulls, fields, update).Err? ==>
      exists i :: 0 <= i < |fields| && RefEntity(p.reg, ea, fields[i].name) == Err(ExtractOf(Env(p), ea, view, pojo, nulls, fields, update).error)
    decreases |fields|
  {
    if |fields| > 0 {
      var init := fields[..|fields| - 1];
      var f := fields[|fields| - 1];
      ExtractRefusesOnlyUnknownRefs(p, ea, view, pojo, nulls, init, update);
      assert forall i :: 0 <= i < |init| ==> init[i] == fields[i];
      assert Env(p).get(Some(ea), pojo, f.name).Ok?;
      var mv := Get(view.mapping, f.name);
      if f.def.typeRef.Ref? && mv.Some? && mv.value.VMap? {
        var fieldsObj := GetOrNull(mv.value.entries, "fields");
        var childEa := RefEntity(p.reg, ea, f.name);
        if fieldsObj.VMap? && childEa.Ok? {
          var child := Env(p).get(Some(ea), pojo, f.name).value;
          ChildBindsTotal(p, childEa.value, child, fieldsObj.entries);
        }
      }
      var r := ExtractOf(Env(p), ea, view, pojo, nulls, fields, update);
      if r.Err? && ExtractOf(Env(p), ea, view, pojo, nulls, init, update).Ok? {
        assert RefEntity(p.reg, ea, fields[|fields| - 1].name) == Err(r.error);
      }
    }
  }

  /** The insert paths of a POJO. */
  function InsertColumnsOf(p: Planner, ea: EntityAuthoring, view: ViewDef, pojo: Value, nulls: set<string>): Result<seq<ColumnBind>>
  {
    ExtractOf(Env(p), ea, view, pojo, nulls, ea.fields, false)
  }

  /** The update sets of a POJO. */
  function UpdateSetsOf(p: Planner, ea: EntityAuthoring, view: ViewDef, pojo: Value, nulls: set<string>): Result<seq<ColumnBind>>
  {
    ExtractOf(Env(p), ea, view, pojo, nulls, ea.fields, true)
  }

  /** planInsert: the collection, the insert paths, and the key paths as returning columns iff returningKey. */
  method PlanInsert(p: Planner, ea: EntityAuthoring, view: ViewDef, pojo: Value, nulls: set<string>, returningKey: bool)
    returns (r: Result<InsertAst>)
    ensures IsBlank(ea.source) ==> r == Err(IllegalArgument("Entity authoring has no collection source: " + ea.entityType))
    ensures !IsBlank(ea.source) && InsertColumnsOf(p, ea, view, pojo, nulls).Err? ==>
      r == Err(InsertColumnsOf(p, ea, view, pojo, nulls).error)
    ensures r.Ok? <==> !IsBlank(ea.source) && InsertColumnsOf(p, ea, view, pojo, nulls).Ok?
    ensures r.Ok? ==> r.value.table == ea.source && r.value.columns == InsertColumnsOf(p, ea, view, pojo, nulls).value
    ensures r.Ok? ==> r.value.returningColumns == if returningKey then KeyColumnsOf(view, ea.fields) else []
  {
    var collection := RequireCollection(ea);
    if collection.Err? {
      return Err(collection.error);
    }
    EnvTestsTenancy(p);
    var cols := ExtractColumns(Env(p), ea, view, pojo, nulls, false);
    if cols.Err? {
      return Err(cols.error);
    }
    var returning := [];
    if returningKey {
      returning := KeyColumns(view, ea.fields);
    }
    r := Ok(InsertAst(collection.value, cols.value, returning));
  }

  /**
   * planUpdateById: the collection, then the single key field (or "id") and
   * its value, filtered by key = value, and only then the update sets.
   */
  method PlanUpdateById(p: Planner, ea: EntityAuthoring, view: ViewDef, pojo: Value, nulls: set<string>)
    returns (r: Result<UpdateAst>)
    ensures IsBlank(ea.source) ==> r == Err(IllegalArgument("Entity authoring has no collection source: " + ea.entityType))
    ensures !IsBlank(ea.source) && |KeyFieldNames(ea.fields)| >= 2 ==>
      r == Err(IllegalArgument("Composite key not supported for updateById: " + ea.entityType))
    ensures !IsBlank(ea.source) && |KeyFieldNames(ea.fields)| <= 1 && UpdateSetsOf(p, ea, view, pojo, nulls).Err? ==>
      r == Err(UpdateSetsOf(p, ea, view, pojo, nulls).error)
    ensures r.Ok? <==> !IsBlank(ea.source) && |KeyFieldNames(ea.fields)| <= 1 && UpdateSetsOf(p, ea, view, pojo, nulls).Ok?
    ensures r.Ok? ==> r.value == UpdateAst(ea.source, UpdateSetsOf(p, ea, view, pojo, nulls).value,
      Some(Eq(KeyField(ea.fields), GetProperty(p.accessors, Some(ea), pojo, KeyField(ea.fields)).value)))
  {
    var collection := RequireCollection(ea);
    if collection.Err? {
      return Err(collection.error);
    }
    var keyField := RequireSingleKeyFieldOrId(ea);
    if keyField.Err? {
      return Err(keyField.error);
    }
    var id := GetProperty(p.accessors, Some(ea), pojo, keyField.value);
    EnvTestsTenancy(p);
    var sets := ExtractColumns(Env(p), ea, view, pojo, nulls, true);
    if sets.Err? {
      return Err(sets.error);
    }
    r := Ok(UpdateAst(collection.value, sets.value, Some(Eq(keyField.value, id.value))));
  }

  /** planUpdateByCriteria: the collection and the update sets, with the caller's filter. */
  method PlanUpdateByCriteria(p: Planner, ea: EntityAuthoring, view: ViewDef, pojo: Value, nulls: set<string>,
                              where: Option<Element>) returns (r: Result<UpdateAst>)
    ensures IsBlank(ea.source) ==> r == Err(IllegalArgument("Entity authoring has no collection source: " + ea.entityType))
    ensures !IsBlank(ea.source) && UpdateSetsOf(p, ea, view, pojo, nulls).Err? ==>
      r == Err(UpdateSetsOf(p, ea, view, pojo, nulls).error)
    ensures r.Ok? <==> !IsBlank(ea.source) && UpdateSetsOf(p, ea, view, pojo, nulls).Ok?
    ensures r.Ok? ==> r.value == UpdateAst(ea.source, UpdateSetsOf(p, ea, view, pojo, nulls).value, where)
  {
    var collection := RequireCollection(ea);
    if collection.Err? {
      return Err(collection.error);
    }
    EnvTestsTenancy(p);
    var sets := ExtractColumns(Env(p), ea, view, pojo, nulls, true);
    if sets.Err? {
      return Err(sets.error);
    }
    r := Ok(UpdateAst(collection.value, sets.value, where));
  }

  /** planDeleteByCriteria: the collection with the caller's filter. */
  function PlanDeleteByCriteria(ea: EntityAuthoring, where: Option<Element>): (r: Result<DeleteAst>)
    ensures r.Ok? <==> !IsBlank(ea.source)
    ensures r.Ok? ==> r.value.table == ea.source && r.value.where == where
    ensures r.Err? ==> r.error == IllegalArgument("Entity authoring has no collection source: " + ea.entityType)
  {
    var collection :- RequireCollection(ea);
    Ok(DeleteAst(collection, where))
  }

  /**
   * planUpsert: the insert plan, the key paths as conflict paths, and as
   * update paths the insert paths that are neither conflict paths nor
   * tenant-boundary paths, in insert order.
   */
  method PlanUpsert(p: Planner, ea: EntityAuthoring, view: ViewDef, pojo: Value, nulls: set<string>, returningKey: bool)
    returns (r: Result<UpsertAst>)
    ensures IsBlank(ea.source) ==> r == Err(IllegalArgument("Entity authoring has no collection source: " + ea.entityType))
    ensures !IsBlank(ea.source) && InsertColumnsOf(p, ea, view, pojo, nulls).Err? ==>
      r == Err(InsertColumnsOf(p, ea, view, pojo, nulls).error)
    ensures r.Ok? <==> !IsBlank(ea.source) && InsertColumnsOf(p, ea, view, pojo, nulls).Ok?
    ensures r.Ok? ==> r.value.insert == InsertAst(ea.source, InsertColumnsOf(p, ea, view, pojo, nulls).value,
      if returningKey then KeyColumnsOf(view, ea.fields) else [])
    ensures r.Ok? ==> r.value.conflictColumns == KeyColumnsOf(view, ea.fields)
    ensures r.Ok? ==> r.value.updateColumns == KeptColumns(r.value.insert.columns,
      (set c | c in KeyColumnsOf(view, ea.fields)) + TenantColumnsOf(Env(p).tenant, view, ea.fields))
  {
    var ins := PlanInsert(p, ea, view, pojo, nulls, returningKey);
    if ins.Err? {
      return Err(ins.error);
    }
    var conflictCols := KeyColumns(view, ea.fields);
    EnvTestsTenancy(p);
    var tenantPaths := TenantColumns(Env(p), view, ea.fields);
    var updateCols := UpsertUpdateColumns(ins.value.columns, conflictCols, tenantPaths);
    r := Ok(UpsertAst(ins.value, conflictCols, updateCols));
  }

  /** An update by id always filters on the key field: with no key marked it is "id". */
  lemma UnkeyedUpdatesById(fields: seq<Field>)
    requires forall i :: 0 <= i < |fields| ==> !fields[i].def.key
    ensures KeyField(fields) == "id"
  {
    NoKeyFieldNames(fields);
  }

  lemma {:induction false} NoKeyFieldNames(fields: seq<Field>)
    requires forall i :: 0 <= i < |fields| ==> !fields[i].def.key
    ensures KeyFieldNames(fields) == []
    decreases |fields|
  {
    if |fields| > 0 {
      NoKeyFieldNames(fields[..|fields| - 1]);
    }
  }
}
