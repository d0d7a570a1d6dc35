/**
 * Entity metadata: type references, field definitions, entities and their
 * views, and the registry that holds them.
 */
module Authoring {
  import opened Wrappers
  import opened Values

  /** The declared type of a field. */
  datatype TypeRef =
    | Scalar(userTypeId: string)
    | Ref(refId: string)
    | ListOf(elem: TypeRef)
    | SetOf(elem: TypeRef)
    | ArrayOf(elem: TypeRef)
    | MapOf(key: TypeRef, val: TypeRef)

  /** A field: its type, the key and auto-generated flags, and free attributes. */
  datatype FieldDef = FieldDef(typeRef: TypeRef, key: bool, autoGenerated: bool, attrs: seq<Entry>)

  datatype Field = Field(name: string, def: FieldDef)

  /**
   * An entity or value type: its name, its table or collection (blank for a
   * value type) and its fields, in the one iteration order the model fixes.
   */
  datatype EntityAuthoring = EntityAuthoring(entityType: string, source: string, fields: seq<Field>)

  /** The backend base query of a view (SQL text, or a Mongo pipeline or filter) and its projection. */
  datatype SqlViewDef = SqlViewDef(sql: Value, projection: Value, schema: bool)

  /** A view: its id, its property mapping and an optional base query. */
  datatype ViewDef = ViewDef(id: string, mapping: seq<Entry>, sqlView: Option<SqlViewDef>)

  /** Every loaded entity by type name; a name outside the map is unknown. */
  type Registry = map<string, EntityAuthoring>

  /** Map.get on the entity's fields. */
  function FieldOf(fields: seq<Field>, name: string): (r: Option<FieldDef>)
    ensures r.Some? ==> exists i :: 0 <= i < |fields| && fields[i] == Field(name, r.value)
    ensures r.None? ==> forall i :: 0 <= i < |fields| ==> fields[i].name != name
  {
    if fields == [] then None
    else if fields[0].name == name then Some(fields[0].def)
    else
      var r := FieldOf(fields[1..], name);
      assert r.Some? ==> fields[1..][1..] == fields[2..];
      assert forall i :: 1 <= i < |fields| ==> fields[i] == fields[1..][i - 1];
      r
  }

  /** TypeIds.id: the canonical user type id of a type reference. */
  function TypeId(t: TypeRef): string
  {
    match t
    case Scalar(id) => id
    case Ref(_) => "ref"
    case ListOf(e) => "list<" + TypeId(e) + ">"
    case SetOf(e) => "set<" + TypeId(e) + ">"
    case ArrayOf(e) => "array<" + TypeId(e) + ">"
    case MapOf(k, v) => "map<" + TypeId(k) + "," + TypeId(v) + ">"
  }
}
