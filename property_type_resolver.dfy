/**
 * Resolution of a dotted filter property path to the scalar user type id of
 * its leaf field, following Ref fields from entity to entity, with a cache
 * keyed by (root entity type, path).
 */
module PropertyTypeResolver {
  import opened Wrappers
  import opened Strings
  import opened Authoring

  /** AuthoringRegistry.getEntityAuthoring: an unknown id throws. */
  function EntityNamed(reg: Registry, id: string): (r: Result<EntityAuthoring>)
    ensures r.Ok? <==> id in reg
    ensures r.Ok? ==> r.value == reg[id]
    ensures r.Err? ==> r.error == IllegalArgument("Unknown authoring type: " + id)
  {
    if id in reg then Ok(reg[id]) else Err(IllegalArgument("Unknown authoring type: " + id))
  }

  /**
   * The segment walk from `current`: Ok(None) is Java's null (unknown
   * segment, non-scalar leaf, non-Ref step); Err is the registry's throw.
   */
  function Walk(reg: Registry, current: EntityAuthoring, parts: seq<string>): (r: Result<Option<string>>)
    requires |parts| >= 1
    decreases |parts|
  {
    match FieldOf(current.fields, parts[0])
    case None => Ok(None)
    case Some(fd) =>
      if |parts| == 1 then
        (if fd.typeRef.Scalar? then Ok(Some(fd.typeRef.userTypeId)) else Ok(None))
      else if fd.typeRef.Ref? then
        (match EntityNamed(reg, fd.typeRef.refId)
         case Err(e) => Err(e)
         case Ok(next) => Walk(reg, next, parts[1..]))
      else Ok(None)
  }

  /** resolveScalarUserTypeIdNoCache, with the null root folded in (a null path is ""). */
  function ResolveNoCache(reg: Registry, root: Option<EntityAuthoring>, path: string): (r: Result<Option<string>>)
    ensures root.None? || IsBlank(path) ==> r == Ok(None)
    ensures r.Err? ==> r.error.IllegalArgument?
  {
    if root.None? || IsBlank(path) then Ok(None)
    else
      var r := Walk(reg, root.value, SplitAll(path, '.'));
      WalkFailsOnlyOnUnknown(reg, root.value, SplitAll(path, '.'));
      r
  }

  lemma {:induction false} WalkFailsOnlyOnUnknown(reg: Registry, current: EntityAuthoring, parts: seq<string>)
    requires |parts| >= 1
    ensures Walk(reg, current, parts).Err? ==> Walk(reg, current, parts).error.IllegalArgument?
    decreases |parts|
  {
    var fd := FieldOf(current.fields, parts[0]);
    if fd.Some? && |parts| > 1 && fd.value.typeRef.Ref? && fd.value.typeRef.refId in reg {
      WalkFailsOnlyOnUnknown(reg, reg[fd.value.typeRef.refId], parts[1..]);
    }
  }

  /** The loop of resolveScalarUserTypeIdNoCache, proved against the walk. */
  method ResolveLoop(reg: Registry, root: EntityAuthoring, path: string) returns (r: Result<Option<string>>)
    ensures r == ResolveNoCache(reg, Some(root), path)
  {
    if IsBlank(path) {
      return Ok(None);
    }
    var parts := SplitAll(path, '.');
    var current := root;
    var i := 0;
    while i < |parts|
      invariant 0 <= i < |parts|
      invariant Walk(reg, root, parts) == Walk(reg, current, parts[i..])
      decreases |parts| - i
    {
      var fd := FieldOf(current.fields, parts[i]);
      if fd.None? {
        return Ok(None);
      }
      var last := i == |parts| - 1;
      var tr := fd.value.typeRef;
      if last {
        if tr.Scalar? {
          return Ok(Some(tr.userTypeId));
        }
        return Ok(None);
      }
      if tr.Ref? {
        var next := EntityNamed(reg, tr.refId);
        if next.Err? {
          return Err(next.error);
        }
        assert parts[i..][1..] == parts[i + 1..];
        current := next.value;
      } else {
        return Ok(None);
      }
      i := i + 1;
    }
    return Ok(None);
  }

  /** One step of a path: the named field of `e` is a Ref to the registered `next`. */
  predicate StepsTo(reg: Registry, e: EntityAuthoring, name: string, next: EntityAuthoring)
  {
    match FieldOf(e.fields, name)
    case None => false
    case Some(fd) => fd.typeRef.Ref? && fd.typeRef.refId in reg && reg[fd.typeRef.refId] == next
  }

  /** The last step: the named field of `e` is the scalar `id`. */
  predicate EndsAt(e: EntityAuthoring, name: string, id: string)
  {
    match FieldOf(e.fields, name)
    case None => false
    case Some(fd) => fd.typeRef == Scalar(id)
  }

  /**
   * `chain` is the sequence of entities a path visits from `root`: every
   * segment but the last steps through a Ref, the last names a scalar `id`.
   */
  predicate LeadsTo(reg: Registry, root: EntityAuthoring, parts: seq<string>, chain: seq<EntityAuthoring>, id: string)
  {
    |parts| >= 1 && |chain| == |parts| && chain[0] == root
    && (forall i :: 0 <= i < |parts| - 1 ==> StepsTo(reg, chain[i], parts[i], chain[i + 1]))
    && EndsAt(chain[|parts| - 1], parts[|parts| - 1], id)
  }

  /** A walk that resolves has a chain of entities to show for it. */
  lemma {:induction false} WalkHasChain(reg: Registry, current: EntityAuthoring, parts: seq<string>, id: string)
    returns (chain: seq<EntityAuthoring>)
    requires |parts| >= 1
    requires Walk(reg, current, parts) == Ok(Some(id))
    ensures LeadsTo(reg, current, parts, chain, id)
    decreases |parts|
  {
    var fd := FieldOf(current.fields, parts[0]).value;
    if |parts| == 1 {
      chain := [current];
    } else {
      var next := reg[fd.typeRef.refId];
      var rest := WalkHasChain(reg, next, parts[1..], id);
      chain := [current] + rest;
      forall i | 0 <= i < |parts| - 1
        ensures StepsTo(reg, chain[i], parts[i], chain[i + 1])
      {
        if i > 0 {
          assert chain[i] == rest[i - 1] && chain[i + 1] == rest[i] && parts[i] == parts[1..][i - 1];
        }
      }
      assert chain[|parts| - 1] == rest[|parts[1..]| - 1];
    }
  }

  /** A chain of entities makes the walk resolve to its scalar. */
  lemma {:induction false} ChainResolves(reg: Registry, current: EntityAuthoring, parts: seq<string>, chain: seq<EntityAuthoring>, id: string)
    requires LeadsTo(reg, current, parts, chain, id)
    ensures Walk(reg, current, parts) == Ok(Some(id))
    decreases |parts|
  {
    if |parts| > 1 {
      assert StepsTo(reg, chain[0], parts[0], chain[1]);
      var rest := chain[1..];
      forall i | 0 <= i < |parts[1..]| - 1
        ensures StepsTo(reg, rest[i], parts[1..][i], rest[i + 1])
      {
        assert StepsTo(reg, chain[i + 1], parts[i + 1], chain[i + 2]);
      }
      assert rest[|parts[1..]| - 1] == chain[|parts| - 1];
      ChainResolves(reg, chain[1], parts[1..], rest, id);
    }
  }

  /**
   * A path resolves to `id` exactly when its segments lead, field by field
   * through Refs, from the root to a scalar field of type `id`.
   */
  lemma PathResolves(reg: Registry, root: EntityAuthoring, path: string, id: string)
    ensures ResolveNoCache(reg, Some(root), path) == Ok(Some(id))
      <==> (!IsBlank(path) && exists chain :: LeadsTo(reg, root, SplitAll(path, '.'), chain, id))
  {
    var parts := SplitAll(path, '.');
    if !IsBlank(path) {
      if Walk(reg, root, parts) == Ok(Some(id)) {
        var chain := WalkHasChain(reg, root, parts, id);
      }
      if exists chain :: LeadsTo(reg, root, parts, chain, id) {
        var chain :| LeadsTo(reg, root, parts, chain, id);
        ChainResolves(reg, root, parts, chain, id);
      }
    }
  }

  /** A first segment that names no field resolves to null. */
  lemma UnknownSegment(reg: Registry, root: EntityAuthoring, path: string)
    requires !IsBlank(path)
    requires FieldOf(root.fields, SplitAll(path, '.')[0]).None?
    ensures ResolveNoCache(reg, Some(root), path) == Ok(None)
  {
  }

  /** An unknown segment anywhere along the chain resolves to null. */
  lemma {:induction false} UnknownSegmentAlong(reg: Registry, current: EntityAuthoring, parts: seq<string>, chain: seq<EntityAuthoring>, k: nat)
    requires k < |parts| && |chain| == k + 1 && chain[0] == current
    requires forall i :: 0 <= i < k ==> StepsTo(reg, chain[i], parts[i], chain[i + 1])
    requires FieldOf(chain[k].fields, parts[k]).None?
    ensures Walk(reg, current, parts) == Ok(None)
    decreases k
  {
    if k > 0 {
      assert StepsTo(reg, chain[0], parts[0], chain[1]);
      forall i | 0 <= i < k - 1
        ensures StepsTo(reg, chain[1..][i], parts[1..][i], chain[1..][i + 1])
      {
        assert StepsTo(reg, chain[i + 1], parts[i + 1], chain[i + 2]);
      }
      UnknownSegmentAlong(reg, chain[1], parts[1..], chain[1..], k - 1);
    }
  }

  /** A path that is one segment naming a non-scalar field resolves to null. */
  lemma NonScalarLeaf(reg: Registry, root: EntityAuthoring, name: string, fd: FieldDef)
    requires '.' !in name && !IsBlank(name)
    requires FieldOf(root.fields, name) == Some(fd) && !fd.typeRef.Scalar?
    ensures ResolveNoCache(reg, Some(root), name) == Ok(None)
  {
  }

  /** A non-terminal segment that is not a Ref stops the walk with null. */
  lemma NonRefStep(reg: Registry, root: EntityAuthoring, parts: seq<string>, fd: FieldDef)
    requires |parts| >= 2
    requires FieldOf(root.fields, parts[0]) == Some(fd) && !fd.typeRef.Ref?
    ensures Walk(reg, root, parts) == Ok(None)
  {
  }

  /** A Ref step into an unregistered entity throws the registry's error. */
  lemma UnknownEntityStep(reg: Registry, root: EntityAuthoring, parts: seq<string>, refId: string, fd: FieldDef)
    requires |parts| >= 2
    requires FieldOf(root.fields, parts[0]) == Some(fd) && fd.typeRef == Ref(refId) && refId !in reg
    ensures Walk(reg, root, parts) == Err(IllegalArgument("Unknown authoring type: " + refId))
  {
  }

  datatype CacheKey = CacheKey(rootType: string, propertyPath: string)

  /**
   * The resolver: the authoring registry and the cache. computeIfAbsent
   * stores nothing for a null result or a throw, so only resolved ids are
   * cached. `roots` is the root entity each cache entry was computed from.
   */
  class Resolver {
    const authoring: Registry
    var cache: map<CacheKey, string>
    ghost var roots: map<CacheKey, EntityAuthoring>

    /** Every cached id is what the uncached resolution gave for its key. */
    ghost predicate Valid()
      reads this
    {
      cache.Keys == roots.Keys
      && forall k :: k in cache ==>
           roots[k].entityType == k.rootType
           && ResolveNoCache(authoring, Some(roots[k]), k.propertyPath) == Ok(Some(cache[k]))
    }

    constructor(authoring: Registry)
      ensures this.authoring == authoring && cache == map[] && Valid()
    {
      this.authoring := authoring;
      cache := map[];
      roots := map[];
    }

    /**
     * resolveScalarUserTypeId: a hit returns the cached id; a miss resolves
     * and caches only a non-null result. For a key resolved before from
     * the same root, the cached answer is the uncached one.
     */
    method Resolve(root: Option<EntityAuthoring>, path: string) returns (r: Result<Option<string>>)
      requires Valid()
      modifies this
      ensures Valid()
      ensures root.None? ==> r == Ok(None) && cache == old(cache) && roots == old(roots)
      ensures root.Some? ==>
        var key := CacheKey(root.value.entityType, path);
        if key in old(cache) then
          r == Ok(Some(old(cache)[key])) && cache == old(cache) && roots == old(roots)
        else
          r == ResolveNoCache(authoring, root, path)
          && (if r.Ok? && r.value.Some?
              then cache == old(cache)[key := r.value.value] && roots == old(roots)[key := root.value]
              else cache == old(cache) && roots == old(roots))
      ensures root.Some? ==>
        var key := CacheKey(root.value.entityType, path);
        key !in old(cache) || old(roots)[key] == root.value ==> r == ResolveNoCache(authoring, root, path)
    {
      if root.None? {
        return Ok(None);
      }
      var key := CacheKey(root.value.entityType, path);
      if key in cache {
        return Ok(Some(cache[key]));
      }
      r := ResolveLoop(authoring, root.value, path);
      if r.Ok? && r.value.Some? {
        cache := cache[key := r.value.value];
        roots := roots[key := root.value];
      }
    }
  }
}
