/**
 * The Mongo engine's reading of a view mapping: a property path resolves to
 * a document path only when the mapping names it explicitly.
 */
module MongoViewMapping {
  import opened Wrappers
  import opened Strings
  import opened Values
  import opened Authoring
  import ViewMappings

  /** refFromSpec: a string spec, else its "ref", else its "column", else nothing. */
  function RefFromSpec(spec: Value): (r: Option<string>)
    ensures spec.VStr? ==> r == Some(spec.s)
    ensures spec.VMap? && GetOrNull(spec.entries, "ref") != VNull ==> r == Some(Show(GetOrNull(spec.entries, "ref")))
    ensures spec.VMap? && GetOrNull(spec.entries, "ref") == VNull && GetOrNull(spec.entries, "column") != VNull
      ==> r == Some(Show(GetOrNull(spec.entries, "column")))
    ensures !spec.VStr? && !spec.VMap? ==> r == None
  {
    match spec
    case VStr(s) => Some(s)
    case VMap(m) =>
      if GetOrNull(m, "ref") != VNull then Some(Show(GetOrNull(m, "ref")))
      else if GetOrNull(m, "column") != VNull then Some(Show(GetOrNull(m, "column")))
      else None
    case _ => None
  }

  /**
   * explicitRef: the direct mapping key first; then, for a dotted path, the
   * child entry of the parent's "fields" map (one level, the rest of the
   * path taken as one key).
   */
  function ExplicitRef(view: Option<ViewDef>, path: string): Option<string>
  {
    if view.None? || view.value.mapping == [] then None
    else
      var mapping := view.value.mapping;
      var direct := RefFromSpec(GetOrNull(mapping, path));
      if direct.Some? then direct
      else if '.' !in path then None
      else
        var parts := SplitFirst(path, '.');
        match GetOrNull(mapping, parts[0])
        case VMap(pm) =>
          (match GetOrNull(pm, "fields")
           case VMap(fm) => RefFromSpec(GetOrNull(fm, parts[1]))
           case _ => None)
        case _ => None
  }

  lemma NoViewNoRef(view: Option<ViewDef>, path: string)
    requires view.None? || view.value.mapping == []
    ensures ExplicitRef(view, path) == None
  {
  }

  /** A direct key that resolves wins over the nested lookup, and agrees with the generic ref. */
  lemma DirectKeyWins(view: ViewDef, path: string, spec: Value, r: string)
    requires Get(view.mapping, path) == Some(spec)
    requires RefFromSpec(spec) == Some(r)
    ensures ExplicitRef(Some(view), path) == Some(r)
    ensures ViewMappings.Ref(view, path) == r
  {
    ViewMappings.DirectKeyWins(view, path, spec);
  }

  /**
   * A one-level nested entry resolves through the parent's "fields" map, and
   * the generic ref resolves it the same way.
   */
  lemma NestedKey(view: ViewDef, parent: string, child: string, fields: seq<Entry>, r: string)
    requires '.' !in parent && '.' !in child
    requires !HasKey(view.mapping, parent + "." + child)
    requires exists pm :: GetOrNull(view.mapping, parent) == VMap(pm) && GetOrNull(pm, "fields") == VMap(fields)
    requires RefFromSpec(GetOrNull(fields, child)) == Some(r)
    ensures ExplicitRef(Some(view), parent + "." + child) == Some(r)
    ensures ViewMappings.Ref(view, parent + "." + child) == r
  {
    var path := parent + "." + child;
    assert path == parent + ['.'] + child;
    assert path[|parent|] == '.';
    IndexOfAfter(parent, '.', child);
    assert path[..|parent|] == parent && path[|parent| + 1..] == child;
    assert view.mapping != [] by {
      var pm :| GetOrNull(view.mapping, parent) == VMap(pm) && GetOrNull(pm, "fields") == VMap(fields);
    }
    ViewMappings.NestedLookup(view.mapping, parent, child, fields);
    assert Get(fields, child).Some?;
  }

  /** A nested path whose parent carries no "fields" map is not explicitly mapped. */
  lemma NestedWithoutFields(view: ViewDef, parent: string, child: string)
    requires '.' !in parent
    requires !HasKey(view.mapping, parent + "." + child)
    requires forall pm :: GetOrNull(view.mapping, parent) == VMap(pm) ==> !GetOrNull(pm, "fields").VMap?
    ensures ExplicitRef(Some(view), parent + "." + child) == None
  {
    var path := parent + "." + child;
    assert path == parent + ['.'] + child;
    assert path[|parent|] == '.';
    IndexOfAfter(parent, '.', child);
    assert path[..|parent|] == parent;
  }
}
