/**
 * The mapping and POJO extraction that the JDBC and the Mongo DML planners
 * share: which fields become insert columns or update sets, how a nested
 * reference is flattened through the view's explicit "fields" map, the
 * bind type of each value, key columns, the single-key rule of updateById,
 * tenant-boundary fields (a "governanceKey" attribute naming one of the
 * configured keys) and the upsert update-column list.
 *
 * Both planners carry these helpers as identical private copies; they are
 * modelled once here, and each planner supplies the one thing that differs,
 * its way of reading a property off a POJO (a Getter).
 *
 * A POJO is a Value (VNull for null). Whether it implements Nulls, and the
 * set it returns, is the `nulls` set: empty for a POJO that is not a Nulls
 * or whose set is null.
 */
module DmlPlanning {
  import opened Wrappers
  import opened Strings
  import opened Values
  import opened Authoring
  import ViewMappings
  import PropertyTypeResolver

  /** A planner's get(ea, pojo, path): the entity is None when a reference could not be resolved. */
  type Getter = (Option<EntityAuthoring>, Value, string) -> Result<Value>

  /** The tenant-boundary test on a field definition. */
  type TenantTest = FieldDef -> bool

  /**
   * What a planner brings to an extraction: the entity registry, its getter,
   * its normalised tenant-boundary keys and the test those keys give.
   */
  datatype Planning = Planning(reg: Registry, get: Getter, tenantKeys: set<string>, tenant: TenantTest)

  /** The planning's test is isTenantBoundaryField over its keys. */
  ghost predicate TestsTenancy(pl: Planning)
  {
    forall fd {:trigger pl.tenant(fd)} :: pl.tenant(fd) == IsTenantField(pl.tenantKeys, fd)
  }

  // ---- binds ----

  /** bindForValue: the value with the canonical type id of its field, or "json" when the field is unknown. */
  function BindFor(fd: Option<FieldDef>, value: Value): (r: Bind)
    ensures r.value == value
    ensures r.userTypeId == if fd.None? then "json" else TypeId(fd.value.typeRef)
  {
    match fd
    case None => Bind(value, "json")
    case Some(d) =>
      if d.typeRef.Scalar? then Bind(value, d.typeRef.userTypeId) else Bind(value, TypeId(d.typeRef))
  }

  // ---- tenant-boundary keys ----

  /** The configured keys, trimmed, with the blank ones dropped. */
  function NormalizedKeys(keys: set<string>): set<string>
  {
    set k | k in keys && |Trim(k)| > 0 :: Trim(k)
  }

  /** normalizeKeySet: trim every key and keep the non-empty ones. */
  method NormalizeKeySet(keys: set<string>) returns (r: set<string>)
    ensures r == NormalizedKeys(keys)
  {
    r := {};
    var rest := keys;
    while rest != {}
      invariant rest <= keys
      invariant r == set k | k in keys - rest && |Trim(k)| > 0 :: Trim(k)
      decreases |rest|
    {
      var k :| k in rest;
      var s := Trim(k);
      if |s| > 0 {
        r := r + {s};
      }
      rest := rest - {k};
    }
    assert keys - rest == keys;
  }

  /** A normalised key is non-empty and already trimmed, so trimming an attribute's text finds it. */
  lemma NormalizedKeysTrimmed(keys: set<string>, k: string)
    requires k in NormalizedKeys(keys)
    ensures |k| > 0 && Trim(k) == k
  {
    var k0 :| k0 in keys && |Trim(k0)| > 0 && Trim(k0) == k;
    TrimStable(Trim(k0));
  }

  /** One trimmed text as a list: empty when the text trims to nothing. */
  function OneKey(t: string): (r: seq<string>)
    ensures |r| <= 1 && forall j :: 0 <= j < |r| ==> |r[j]| > 0
  {
    if |Trim(t)| == 0 then [] else [Trim(t)]
  }

  /** The trimmed texts of the non-null items that are not blank, in order. */
  function TrimmedTexts(items: seq<Value>): (r: seq<string>)
    ensures |r| <= |items|
    ensures forall j :: 0 <= j < |r| ==> |r[j]| > 0
  {
    if |items| == 0 then []
    else
      var pre := TrimmedTexts(items[..|items| - 1]);
      var o := items[|items| - 1];
      if o == VNull || |Trim(Show(o))| == 0 then pre else pre + [Trim(Show(o))]
  }

  /**
   * parseGovernanceKeys: nothing for null; the trimmed items of an Iterable
   * (a list, set or other collection, but not an Object[]); otherwise the
   * trimmed text of the value.
   */
  function GovernanceKeys(raw: Value): (r: seq<string>)
    ensures raw == VNull ==> r == []
    ensures forall j :: 0 <= j < |r| ==> |r[j]| > 0
  {
    if raw == VNull then []
    else if raw.VList? && raw.kind != JArray then TrimmedTexts(raw.items)
    else OneKey(Show(raw))
  }

  /** parseGovernanceKeys. */
  method ParseGovernanceKeys(raw: Value) returns (r: seq<string>)
    ensures r == GovernanceKeys(raw)
  {
    if raw == VNull {
      return [];
    }
    if raw.VList? && raw.kind != JArray {
      r := TrimmedItems(raw.items);
      return;
    }
    var t := Trim(Show(raw));
    r := if |t| == 0 then [] else [t];
  }

  /** The Iterable loop of parseGovernanceKeys. */
  method TrimmedItems(items: seq<Value>) returns (r: seq<string>)
    ensures r == TrimmedTexts(items)
  {
    r := [];
    var i := 0;
    while i < |items|
      invariant 0 <= i <= |items|
      invariant r == TrimmedTexts(items[..i])
    {
      assert items[..i + 1][..i] == items[..i];
      var o := items[i];
      if o != VNull {
        var t := Trim(Show(o));
        if |t| > 0 {
          r := r + [t];
        }
      }
      i := i + 1;
    }
    assert items[..i] == items;
  }

  /** Some key of ks is a configured tenant-boundary key. */
  predicate HasTenantKey(tenantKeys: set<string>, ks: seq<string>)
  {
    exists j :: 0 <= j < |ks| && ks[j] in tenantKeys
  }

  /** isTenantBoundaryField: one of the field's governance keys is a configured tenant-boundary key. */
  predicate IsTenantField(tenantKeys: set<string>, fd: FieldDef)
  {
    HasTenantKey(tenantKeys, GovernanceKeys(GetOrNull(fd.attrs, "governanceKey")))
  }

  method IsTenantBoundaryField(tenantKeys: set<string>, fd: FieldDef) returns (b: bool)
    ensures b <==> IsTenantField(tenantKeys, fd)
    ensures |tenantKeys| == 0 ==> !b
    ensures GetOrNull(fd.attrs, "governanceKey") == VNull ==> !b
  {
    if |tenantKeys| == 0 {
      return false;
    }
    var raw := GetOrNull(fd.attrs, "governanceKey");
    if raw == VNull {
      return false;
    }
    var ks := ParseGovernanceKeys(raw);
    b := AnyTenantKey(tenantKeys, ks);
  }

  /** The loop of isTenantBoundaryField over the parsed keys. */
  method AnyTenantKey(tenantKeys: set<string>, ks: seq<string>) returns (b: bool)
    ensures b == HasTenantKey(tenantKeys, ks)
  {
    var j := 0;
    while j < |ks|
      invariant 0 <= j <= |ks|
      invariant forall m :: 0 <= m < j ==> ks[m] !in tenantKeys
    {
      if ks[j] in tenantKeys {
        return true;
      }
      j := j + 1;
    }
    return false;
  }

  /** The view references of the fields the test marks, blank references left out. */
  function TenantColumnsOf(tenant: TenantTest, view: ViewDef, fields: seq<Field>): set<string>
  {
    if |fields| == 0 then {}
    else
      var f := fields[|fields| - 1];
      TenantColumnsOf(tenant, view, fields[..|fields| - 1])
        + (if tenant(f.def) && !IsBlank(ViewMappings.Ref(view, f.name)) then {ViewMappings.Ref(view, f.name)} else {})
  }

  /** tenantBoundaryColumns (tenantBoundaryPaths in the Mongo planner). */
  method TenantColumns(pl: Planning, view: ViewDef, fields: seq<Field>) returns (out: set<string>)
    requires TestsTenancy(pl)
    ensures out == TenantColumnsOf(pl.tenant, view, fields)
  {
    out := {};
    if |pl.tenantKeys| == 0 {
      NoTenantColumns(pl, view, fields);
      return;
    }
    var i := 0;
    while i < |fields|
      invariant 0 <= i <= |fields|
      invariant out == TenantColumnsOf(pl.tenant, view, fields[..i])
    {
      assert fields[..i + 1][..i] == fields[..i];
      var isTenant := IsTenantBoundaryField(pl.tenantKeys, fields[i].def);
      assert isTenant == pl.tenant(fields[i].def);
      if isTenant {
        var col := ViewMappings.Ref(view, fields[i].name);
        if !IsBlank(col) {
          out := out + {col};
        }
      }
      i := i + 1;
    }
    assert fields[..i] == fields;
  }

  /** With no tenant-boundary keys configured no field is a tenant-boundary field. */
  lemma {:induction false} NoTenantColumns(pl: Planning, view: ViewDef, fields: seq<Field>)
    requires TestsTenancy(pl) && |pl.tenantKeys| == 0
    ensures TenantColumnsOf(pl.tenant, view, fields) == {}
    decreases |fields|
  {
    if |fields| > 0 {
      NoTenantColumns(pl, view, fields[..|fields| - 1]);
      assert !pl.tenant(fields[|fields| - 1].def);
    }
  }

  /** Every marked field with a non-blank reference contributes it. */
  lemma {:induction false} TenantColumnHas(tenant: TenantTest, view: ViewDef, fields: seq<Field>, i: nat)
    requires i < |fields| && tenant(fields[i].def) && !IsBlank(ViewMappings.Ref(view, fields[i].name))
    ensures ViewMappings.Ref(view, fields[i].name) in TenantColumnsOf(tenant, view, fields)
    decreases |fields|
  {
    if i < |fields| - 1 {
      var init := fields[..|fields| - 1];
      assert init[i] == fields[i];
      TenantColumnHas(tenant, view, init, i);
    }
  }

  /** Every tenant column comes from a marked field. */
  lemma {:induction false} TenantColumnFrom(tenant: TenantTest, view: ViewDef, fields: seq<Field>, c: string) returns (i: nat)
    requires c in TenantColumnsOf(tenant, view, fields)
    ensures i < |fields| && tenant(fields[i].def) && ViewMappings.Ref(view, fields[i].name) == c && !IsBlank(c)
    decreases |fields|
  {
    var init := fields[..|fields| - 1];
    if c in TenantColumnsOf(tenant, view, init) {
      i := TenantColumnFrom(tenant, view, init, c);
      assert init[i] == fields[i];
    } else {
      i := |fields| - 1;
    }
  }

  /** A tenant column is the non-blank reference of some marked field, and every such reference is one. */
  lemma TenantColumnsIff(tenant: TenantTest, view: ViewDef, fields: seq<Field>, c: string)
    ensures c in TenantColumnsOf(tenant, view, fields) <==>
      !IsBlank(c) && exists i :: 0 <= i < |fields| && tenant(fields[i].def) && ViewMappings.Ref(view, fields[i].name) == c
  {
    if c in TenantColumnsOf(tenant, view, fields) {
      var i := TenantColumnFrom(tenant, view, fields, c);
    }
    if !IsBlank(c) && exists i :: 0 <= i < |fields| && tenant(fields[i].def) && ViewMappings.Ref(view, fields[i].name) == c {
      var i :| 0 <= i < |fields| && tenant(fields[i].def) && ViewMappings.Ref(view, fields[i].name) == c;
      TenantColumnHas(tenant, view, fields, i);
    }
  }

  // ---- keys ----

  /** The names of the key fields, in the fields' iteration order. */
  function KeyFieldNames(fields: seq<Field>): (r: seq<string>)
    ensures |r| <= |fields|
  {
    if |fields| == 0 then []
    else
      KeyFieldNames(fields[..|fields| - 1])
        + (if fields[|fields| - 1].def.key then [fields[|fields| - 1].name] else [])
  }

  /** The key fields' view references, in the fields' iteration order. */
  function KeyColumnsOf(view: ViewDef, fields: seq<Field>): seq<string>
  {
    if |fields| == 0 then []
    else
      KeyColumnsOf(view, fields[..|fields| - 1])
        + (if fields[|fields| - 1].def.key then [ViewMappings.Ref(view, fields[|fields| - 1].name)] else [])
  }

  /** keyColumns: the column of each key field, in order. */
  method KeyColumns(view: ViewDef, fields: seq<Field>) returns (cols: seq<string>)
    ensures cols == KeyColumnsOf(view, fields)
  {
    cols := [];
    var i := 0;
    while i < |fields|
      invariant 0 <= i <= |fields|
      invariant cols == KeyColumnsOf(view, fields[..i])
    {
      assert fields[..i + 1][..i] == fields[..i];
      if fields[i].def.key {
        cols := cols + [ViewMappings.Ref(view, fields[i].name)];
      }
      i := i + 1;
    }
    assert fields[..i] == fields;
  }

  /** There is one key column per key field: the reference of that field. */
  lemma {:induction false} KeyColumnsOfKeyFields(view: ViewDef, fields: seq<Field>)
    ensures |KeyColumnsOf(view, fields)| == |KeyFieldNames(fields)|
    ensures forall j :: 0 <= j < |KeyFieldNames(fields)| ==>
      KeyColumnsOf(view, fields)[j] == ViewMappings.Ref(view, KeyFieldNames(fields)[j])
    decreases |fields|
  {
    if |fields| > 0 {
      KeyColumnsOfKeyFields(view, fields[..|fields| - 1]);
    }
  }

  /** A prefix of the fields has no more key fields than the whole list. */
  lemma {:induction false} KeyFieldNamesGrow(fields: seq<Field>, i: nat)
    requires i <= |fields|
    ensures |KeyFieldNames(fields[..i])| <= |KeyFieldNames(fields)|
    decreases |fields| - i
  {
    if i < |fields| {
      KeyFieldNamesGrow(fields, i + 1);
      assert fields[..i + 1][..i] == fields[..i];
    } else {
      assert fields[..i] == fields;
    }
  }

  /** The key field updateById filters on: the only key field, or "id" when none is marked. */
  function KeyField(fields: seq<Field>): string
  {
    if |KeyFieldNames(fields)| == 0 then "id" else KeyFieldNames(fields)[0]
  }

  /** requireSingleKeyFieldOrId: a second key field is an error; no key field falls back to "id". */
  method RequireSingleKeyFieldOrId(ea: EntityAuthoring) returns (r: Result<string>)
    ensures r.Err? <==> |KeyFieldNames(ea.fields)| >= 2
    ensures r.Err? ==> r.error == IllegalArgument("Composite key not supported for updateById: " + ea.entityType)
    ensures |KeyFieldNames(ea.fields)| == 1 ==> r == Ok(KeyFieldNames(ea.fields)[0])
    ensures |KeyFieldNames(ea.fields)| == 0 ==> r == Ok("id")
  {
    var fields := ea.fields;
    var key: Option<string> := None;
    var i := 0;
    while i < |fields|
      invariant 0 <= i <= |fields|
      invariant |KeyFieldNames(fields[..i])| <= 1
      invariant key.None? <==> |KeyFieldNames(fields[..i])| == 0
      invariant key.Some? ==> key.value == KeyFieldNames(fields[..i])[0]
    {
      assert fields[..i + 1][..i] == fields[..i];
      if fields[i].def.key {
        if key.Some? {
          KeyFieldNamesGrow(fields, i + 1);
          return Err(IllegalArgument("Composite key not supported for updateById: " + ea.entityType));
        }
        key := Some(fields[i].name);
      }
      i := i + 1;
    }
    assert fields[..i] == fields;
    r := if key.Some? then Ok(key.value) else Ok("id");
  }

  // ---- extraction ----

  /**
   * resolveRefEntity: the entity a reference field points to, looked up in
   * the registry, which refuses an unknown id; None for a field the entity
   * does not declare or one that is no reference.
   */
  function RefEntity(reg: Registry, ea: EntityAuthoring, field: string): (r: Result<Option<EntityAuthoring>>)
    ensures r.Err? <==> FieldOf(ea.fields, field).Some? && FieldOf(ea.fields, field).value.typeRef.Ref?
                        && FieldOf(ea.fields, field).value.typeRef.refId !in reg
    ensures r.Err? ==> r.error == IllegalArgument("Unknown authoring type: " + FieldOf(ea.fields, field).value.typeRef.refId)
    ensures r.Ok? ==> (r.value.Some? <==> FieldOf(ea.fields, field).Some? && FieldOf(ea.fields, field).value.typeRef.Ref?)
    ensures r.Ok? && r.value.Some? ==> r.value.value == reg[FieldOf(ea.fields, field).value.typeRef.refId]
  {
    match FieldOf(ea.fields, field)
    case None => Ok(None)
    case Some(fd) =>
      if fd.typeRef.Ref? then
        var child :- PropertyTypeResolver.EntityNamed(reg, fd.typeRef.refId);
        Ok(Some(child))
      else Ok(None)
  }

  /** The columns of a nested object: one per entry of the view's "fields" map whose child value is not null. */
  function ChildBindsOf(get: Getter, childEa: Option<EntityAuthoring>, child: Value, fm: seq<Entry>): Result<seq<ColumnBind>>
  {
    if |fm| == 0 then Ok([])
    else
      var pre :- ChildBindsOf(get, childEa, child, fm[..|fm| - 1]);
      var e := fm[|fm| - 1];
      var v :- get(childEa, child, e.key);
      if v == VNull then Ok(pre)
      else
        var cfd := if childEa.None? then None else FieldOf(childEa.value.fields, e.key);
        Ok(pre + [ColumnBind(Show(e.val), BindFor(cfd, v))])
  }

  /** The inner loop over a nested mapping's "fields" entries. */
  method ChildColumns(get: Getter, childEa: Option<EntityAuthoring>, child: Value, fm: seq<Entry>)
    returns (r: Result<seq<ColumnBind>>)
    ensures r == ChildBindsOf(get, childEa, child, fm)
  {
    var out := [];
    var i := 0;
    while i < |fm|
      invariant 0 <= i <= |fm|
      invariant ChildBindsOf(get, childEa, child, fm[..i]) == Ok(out)
    {
      assert fm[..i + 1][..i] == fm[..i];
      var v := get(childEa, child, fm[i].key);
      if v.Err? {
        ChildStopped(get, childEa, child, fm, i + 1);
        return Err(v.error);
      }
      if v.value != VNull {
        var cfd := if childEa.None? then None else FieldOf(childEa.value.fields, fm[i].key);
        out := out + [ColumnBind(Show(fm[i].val), BindFor(cfd, v.value))];
      }
      i := i + 1;
    }
    assert fm[..i] == fm;
    r := Ok(out);
  }

  /** Once a prefix of the nested entries fails, every longer prefix fails the same way. */
  lemma {:induction false} ChildStopped(get: Getter, childEa: Option<EntityAuthoring>, child: Value, fm: seq<Entry>, i: nat)
    requires 0 < i <= |fm| && ChildBindsOf(get, childEa, child, fm[..i]).Err?
    ensures ChildBindsOf(get, childEa, child, fm) == ChildBindsOf(get, childEa, child, fm[..i])
    decreases |fm| - i
  {
    if i < |fm| {
      assert fm[..i + 1][..i] == fm[..i];
      ChildStopped(get, childEa, child, fm, i + 1);
    } else {
      assert fm[..i] == fm;
    }
  }

  /**
   * What one field contributes. A reference field contributes the columns of
   * its nested object, and only when the view maps it to a map with a
   * "fields" map and the object is not null; any other field contributes its
   * view column, unless its value is null and the field is not in `nulls`.
   */
  function FieldBindsOf(pl: Planning, ea: EntityAuthoring, view: ViewDef, pojo: Value, nulls: set<string>, f: Field)
    : Result<seq<ColumnBind>>
  {
    if f.def.typeRef.Ref? then
      match Get(view.mapping, f.name)
      case Some(VMap(nested)) =>
        var child :- pl.get(Some(ea), pojo, f.name);
        if child == VNull then Ok([])
        else
          (match GetOrNull(nested, "fields")
           case VMap(fm) =>
             var childEa :- RefEntity(pl.reg, ea, f.name);
             ChildBindsOf(pl.get, childEa, child, fm)
           case _ => Ok([]))
      case _ => Ok([])
    else
      var v :- pl.get(Some(ea), pojo, f.name);
      if v == VNull && f.name !in nulls then Ok([])
      else Ok([ColumnBind(ViewMappings.Ref(view, f.name), BindFor(Some(f.def), v))])
  }

  /** extractUpdateSets passes over key fields and tenant-boundary fields; extractColumns passes over none. */
  predicate Skipped(tenant: TenantTest, f: Field, update: bool)
  {
    update && (f.def.key || tenant(f.def))
  }

  /** The columns of the fields in order: extractColumns, or extractUpdateSets when `update` holds. */
  function ExtractOf(pl: Planning, ea: EntityAuthoring, view: ViewDef, pojo: Value, nulls: set<string>,
                     fields: seq<Field>, update: bool): Result<seq<ColumnBind>>
  {
    if |fields| == 0 then Ok([])
    else
      var pre :- ExtractOf(pl, ea, view, pojo, nulls, fields[..|fields| - 1], update);
      var f := fields[|fields| - 1];
      if Skipped(pl.tenant, f, update) then Ok(pre)
      else
        var add :- FieldBindsOf(pl, ea, view, pojo, nulls, f);
        Ok(pre + add)
  }

  /** The body of the field loop, for one field. */
  method FieldColumns(pl: Planning, ea: EntityAuthoring, view: ViewDef, pojo: Value, nulls: set<string>, f: Field)
    returns (r: Result<seq<ColumnBind>>)
    ensures r == FieldBindsOf(pl, ea, view, pojo, nulls, f)
  {
    if f.def.typeRef.Ref? {
      var mv := Get(view.mapping, f.name);
      if !(mv.Some? && mv.value.VMap?) {
        return Ok([]);
      }
      var child := pl.get(Some(ea), pojo, f.name);
      if child.Err? {
        return Err(child.error);
      }
      if child.value == VNull {
        return Ok([]);
      }
      var fieldsObj := GetOrNull(mv.value.entries, "fields");
      if !fieldsObj.VMap? {
        return Ok([]);
      }
      var childEa := RefEntity(pl.reg, ea, f.name);
      if childEa.Err? {
        return Err(childEa.error);
      }
      r := ChildColumns(pl.get, childEa.value, child.value, fieldsObj.entries);
      return;
    }
    var col := ViewMappings.Ref(view, f.name);
    var v := pl.get(Some(ea), pojo, f.name);
    if v.Err? {
      return Err(v.error);
    }
    if v.value == VNull && f.name !in nulls {
      return Ok([]);
    }
    r := Ok([ColumnBind(col, BindFor(Some(f.def), v.value))]);
  }

  /** extractColumns (update false) and extractUpdateSets (update true): the loop over the entity's fields. */
  method ExtractColumns(pl: Planning, ea: EntityAuthoring, view: ViewDef, pojo: Value, nulls: set<string>, update: bool)
    returns (r: Result<seq<ColumnBind>>)
    requires TestsTenancy(pl)
    ensures r == ExtractOf(pl, ea, view, pojo, nulls, ea.fields, update)
  {
    var fields := ea.fields;
    var out := [];
    var i := 0;
    while i < |fields|
      invariant 0 <= i <= |fields|
      invariant ExtractOf(pl, ea, view, pojo, nulls, fields[..i], update) == Ok(out)
    {
      var f := fields[i];
      var skip := false;
      if update {
        if f.def.key {
          skip := true;
        } else {
          skip := IsTenantBoundaryField(pl.tenantKeys, f.def);
          assert skip == pl.tenant(f.def);
        }
      }
      var next := i + 1;
      if skip {
        ExtractAdvance(pl, ea, view, pojo, nulls, fields, update, i, next, out, skip, Ok([]));
      } else {
        var add := FieldColumns(pl, ea, view, pojo, nulls, f);
        ExtractAdvance(pl, ea, view, pojo, nulls, fields, update, i, next, out, skip, add);
        if add.Err? {
          ExtractStopped(pl, ea, view, pojo, nulls, fields, update, next);
          return Err(add.error);
        }
        out := out + add.value;
      }
      i := next;
    }
    assert fields[..i] == fields;
    r := Ok(out);
  }

  /** One more field: skipped, it adds nothing; otherwise its columns, or its error, follow the prefix's. */
  lemma ExtractAdvance(pl: Planning, ea: EntityAuthoring, view: ViewDef, pojo: Value, nulls: set<string>,
                       fields: seq<Field>, update: bool, i: nat, next: nat, out: seq<ColumnBind>,
                       skip: bool, add: Result<seq<ColumnBind>>)
    requires i < |fields| && next == i + 1
    requires ExtractOf(pl, ea, view, pojo, nulls, fields[..i], update) == Ok(out)
    requires skip == Skipped(pl.tenant, fields[i], update)
    requires !skip ==> add == FieldBindsOf(pl, ea, view, pojo, nulls, fields[i])
    ensures skip ==> ExtractOf(pl, ea, view, pojo, nulls, fields[..next], update) == Ok(out)
    ensures !skip && add.Err? ==> ExtractOf(pl, ea, view, pojo, nulls, fields[..next], update) == Err(add.error)
    ensures !skip && add.Ok? ==> ExtractOf(pl, ea, view, pojo, nulls, fields[..next], update) == Ok(out + add.value)
  {
    assert fields[..next][..i] == fields[..i];
    assert fields[..next][i] == fields[i];
  }

  /** Once a prefix of the fields fails, every longer prefix fails the same way. */
  lemma {:induction false} ExtractStopped(pl: Planning, ea: EntityAuthoring, view: ViewDef, pojo: Value, nulls: set<string>,
                                          fields: seq<Field>, update: bool, i: nat)
    requires 0 < i <= |fields| && ExtractOf(pl, ea, view, pojo, nulls, fields[..i], update).Err?
    ensures ExtractOf(pl, ea, view, pojo, nulls, fields, update) == ExtractOf(pl, ea, view, pojo, nulls, fields[..i], update)
    decreases |fields| - i
  {
    if i < |fields| {
      assert fields[..i + 1][..i] == fields[..i];
      ExtractStopped(pl, ea, view, pojo, nulls, fields, update, i + 1);
    } else {
      assert fields[..i] == fields;
    }
  }

  /** The fields an update may set: neither key fields nor tenant-boundary fields, in order. */
  function Plain(tenant: TenantTest, fields: seq<Field>): (r: seq<Field>)
    ensures |r| <= |fields|
  {
    if |fields| == 0 then []
    else
      var f := fields[|fields| - 1];
      Plain(tenant, fields[..|fields| - 1]) + (if Skipped(tenant, f, true) then [] else [f])
  }

  /** Plain keeps exactly the fields that are neither key nor tenant-boundary fields. */
  lemma {:induction false} PlainIff(tenant: TenantTest, fields: seq<Field>, f: Field)
    ensures f in Plain(tenant, fields) <==> f in fields && !f.def.key && !tenant(f.def)
    decreases |fields|
  {
    if |fields| > 0 {
      var init := fields[..|fields| - 1];
      PlainIff(tenant, init, f);
      assert fields == init + [fields[|fields| - 1]];
    }
  }

  /** The update sets are the insert columns of the plain fields: key and tenant-boundary fields never appear in a SET. */
  lemma {:induction false} UpdateSetsArePlainColumns(pl: Planning, ea: EntityAuthoring, view: ViewDef, pojo: Value,
                                                     nulls: set<string>, fields: seq<Field>)
    ensures ExtractOf(pl, ea, view, pojo, nulls, fields, true)
      == ExtractOf(pl, ea, view, pojo, nulls, Plain(pl.tenant, fields), false)
    decreases |fields|
  {
    if |fields| > 0 {
      var init := fields[..|fields| - 1];
      var f := fields[|fields| - 1];
      UpdateSetsArePlainColumns(pl, ea, view, pojo, nulls, init);
      if !Skipped(pl.tenant, f, true) {
        var p := Plain(pl.tenant, init);
        var q := p + [f];
        assert Plain(pl.tenant, fields) == q;
        assert q[..|q| - 1] == p && q[|q| - 1] == f;
        assert !Skipped(pl.tenant, f, false);
        assert ExtractOf(pl, ea, view, pojo, nulls, q, false)
          == (var pre :- ExtractOf(pl, ea, view, pojo, nulls, p, false);
              var add :- FieldBindsOf(pl, ea, view, pojo, nulls, f);
              Ok(pre + add));
        assert ExtractOf(pl, ea, view, pojo, nulls, fields, true)
          == (var pre :- ExtractOf(pl, ea, view, pojo, nulls, init, true);
              var add :- FieldBindsOf(pl, ea, view, pojo, nulls, f);
              Ok(pre + add));
      } else {
        assert Plain(pl.tenant, fields) == Plain(pl.tenant, init);
        var e := ExtractOf(pl, ea, view, pojo, nulls, init, true);
        assert ExtractOf(pl, ea, view, pojo, nulls, fields, true) == if e.Err? then Err(e.error) else Ok(e.value);
      }
    }
  }

  /** A null scalar value is left out unless the POJO marks the field in its Nulls set, and then it is bound as null. */
  lemma NullOmittedUnlessMarked(pl: Planning, ea: EntityAuthoring, view: ViewDef, pojo: Value, nulls: set<string>, f: Field)
    requires !f.def.typeRef.Ref? && pl.get(Some(ea), pojo, f.name) == Ok(VNull)
    ensures FieldBindsOf(pl, ea, view, pojo, nulls, f) == Ok([]) <==> f.name !in nulls
    ensures f.name in nulls ==>
      FieldBindsOf(pl, ea, view, pojo, nulls, f) == Ok([ColumnBind(ViewMappings.Ref(view, f.name), Bind(VNull, TypeId(f.def.typeRef)))])
  {
  }

  /** A null POJO without a Nulls set yields no column at all, from any list of fields. */
  lemma {:induction false} NullPojoNoColumns(pl: Planning, ea: EntityAuthoring, view: ViewDef, fields: seq<Field>, update: bool)
    requires forall path :: pl.get(Some(ea), VNull, path) == Ok(VNull)
    ensures ExtractOf(pl, ea, view, VNull, {}, fields, update) == Ok([])
    decreases |fields|
  {
    if |fields| > 0 {
      var f := fields[|fields| - 1];
      NullPojoNoColumns(pl, ea, view, fields[..|fields| - 1], update);
      assert pl.get(Some(ea), VNull, f.name) == Ok(VNull);
      assert FieldBindsOf(pl, ea, view, VNull, {}, f) == Ok([]);
      var none: seq<ColumnBind> := [];
      assert none + none == none;
    }
  }

  // ---- upsert ----

  /** The insert columns, in insert order, whose names are not in drop. */
  function KeptColumns(cols: seq<ColumnBind>, drop: set<string>): seq<string>
  {
    if |cols| == 0 then []
    else
      var c := cols[|cols| - 1].column;
      KeptColumns(cols[..|cols| - 1], drop) + (if c in drop then [] else [c])
  }

  /** List.removeIf(drop::contains). */
  function RemoveIn(names: seq<string>, drop: set<string>): seq<string>
  {
    if |names| == 0 then []
    else
      RemoveIn(names[..|names| - 1], drop)
        + (if names[|names| - 1] in drop then [] else [names[|names| - 1]])
  }

  lemma {:induction false} RemoveInAppend(a: seq<string>, b: seq<string>, drop: set<string>)
    ensures RemoveIn(a + b, drop) == RemoveIn(a, drop) + RemoveIn(b, drop)
    decreases |b|
  {
    if |b| > 0 {
      var b0 := b[..|b| - 1];
      assert (a + b)[..|a + b| - 1] == a + b0;
      RemoveInAppend(a, b0, drop);
    } else {
      assert a + b == a;
    }
  }

  /** Removing b after keeping the names outside a is keeping the names outside both. */
  lemma {:induction false} KeptThenRemoved(cols: seq<ColumnBind>, a: set<string>, b: set<string>)
    ensures RemoveIn(KeptColumns(cols, a), b) == KeptColumns(cols, a + b)
    decreases |cols|
  {
    if |cols| > 0 {
      var init := cols[..|cols| - 1];
      var c := cols[|cols| - 1].column;
      KeptThenRemoved(init, a, b);
      var one := if c in a then [] else [c];
      RemoveInAppend(KeptColumns(init, a), one, b);
      assert RemoveIn([c], b) == (if c in b then [] else [c]) by {
        assert [c][..0] == [];
      }
    }
  }

  /** A name is kept exactly when it is the column of some insert column and is not dropped. */
  lemma {:induction false} KeptColumnsIff(cols: seq<ColumnBind>, drop: set<string>, c: string)
    ensures c in KeptColumns(cols, drop) <==> c !in drop && exists i :: 0 <= i < |cols| && cols[i].column == c
    decreases |cols|
  {
    if |cols| > 0 {
      var init := cols[..|cols| - 1];
      KeptColumnsIff(init, drop, c);
      assert forall i :: 0 <= i < |init| ==> init[i] == cols[i];
    }
  }

  /**
   * planUpsert's update columns: the insert columns outside the conflict
   * columns, in insert order, then the tenant-boundary columns removed.
   */
  method UpsertUpdateColumns(cols: seq<ColumnBind>, conflict: seq<string>, tenant: set<string>) returns (r: seq<string>)
    ensures r == KeptColumns(cols, (set c | c in conflict) + tenant)
  {
    var conflictSet := set c | c in conflict;
    r := [];
    var i := 0;
    while i < |cols|
      invariant 0 <= i <= |cols|
      invariant r == KeptColumns(cols[..i], conflictSet)
    {
      assert cols[..i + 1][..i] == cols[..i];
      if cols[i].column !in conflictSet {
        r := r + [cols[i].column];
      }
      i := i + 1;
    }
    assert cols[..i] == cols;
    KeptThenRemoved(cols, conflictSet, tenant);
    if |tenant| > 0 {
      r := RemoveIn(r, tenant);
    } else {
      assert conflictSet + tenant == conflictSet;
      assert RemoveIn(r, tenant) == r by {
        RemoveInNothing(r, tenant);
      }
    }
  }

  /**
   * The upsert's update columns: an insert column is updated on conflict
   * exactly when it is not a key column and not the reference of a
   * tenant-boundary field.
   */
  lemma UpsertColumnsIff(tenant: TenantTest, cols: seq<ColumnBind>, view: ViewDef, fields: seq<Field>, c: string)
    ensures c in KeptColumns(cols, (set k | k in KeyColumnsOf(view, fields)) + TenantColumnsOf(tenant, view, fields)) <==>
      (exists i :: 0 <= i < |cols| && cols[i].column == c)
      && c !in KeyColumnsOf(view, fields)
      && !(!IsBlank(c) && exists i :: 0 <= i < |fields| && tenant(fields[i].def) && ViewMappings.Ref(view, fields[i].name) == c)
  {
    KeptColumnsIff(cols, (set k | k in KeyColumnsOf(view, fields)) + TenantColumnsOf(tenant, view, fields), c);
    TenantColumnsIff(tenant, view, fields, c);
  }

  lemma {:induction false} RemoveInNothing(names: seq<string>, drop: set<string>)
    requires |drop| == 0
    ensures RemoveIn(names, drop) == names
    decreases |names|
  {
    if |names| > 0 {
      RemoveInNothing(names[..|names| - 1], drop);
    }
  }
}
