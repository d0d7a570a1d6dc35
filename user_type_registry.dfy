/**
 * The registry of user types discovered from providers: dialect-specific
 * types first, then global ones, then container types synthesized from
 * their element ids and cached.
 */
module UserTypeRegistry {
  import opened Wrappers
  import opened Strings
  import opened UserTypes
  import TypeRefParser
  import Authoring

  /** The dialect id under which a provider offers types to every dialect. */
  const GlobalDialect: string := "*"

  /** A provider as discovered: its dialect id and its types, each possibly null. */
  datatype Provider = Provider(dialectId: Option<string>, userTypes: Option<seq<Option<UserType>>>)

  /** normalizeDialect: a missing or blank provider dialect is the global one. */
  function NormalizeDialect(did: Option<string>): (r: string)
    ensures r != []
    ensures did.None? || Trim(did.value) == [] ==> r == GlobalDialect
    ensures did.Some? && Trim(did.value) != [] ==> r == Trim(did.value)
  {
    if did.None? then GlobalDialect
    else
      var s := Trim(did.value);
      if s == [] then GlobalDialect else s
  }

  /** One type offered under one normalized dialect id. */
  datatype Offer = Offer(dialect: string, ut: UserType)

  /** The non-null types of one provider, in order. */
  function OffersOf(did: string, types: seq<Option<UserType>>): (r: seq<Offer>)
    ensures |r| <= |types|
  {
    if types == [] then []
    else
      var prefix := OffersOf(did, types[..|types| - 1]);
      var last := types[|types| - 1];
      if last.Some? then prefix + [Offer(did, last.value)] else prefix
  }

  /** Every offer of every non-null provider, in discovery order. */
  function Offers(ps: seq<Option<Provider>>): seq<Offer>
  {
    if ps == [] then []
    else
      var prefix := Offers(ps[..|ps| - 1]);
      var p := ps[|ps| - 1];
      if p.None? || p.value.userTypes.None? then prefix
      else prefix + OffersOf(NormalizeDialect(p.value.dialectId), p.value.userTypes.value)
  }

  /** Whether an offer belongs to the global tier, or to the tier of the registry's dialect. */
  predicate Selects(o: Offer, global: bool, dialectId: string)
  {
    if global then o.dialect == GlobalDialect
    else o.dialect != GlobalDialect && o.dialect == dialectId
  }

  /** A tier: putIfAbsent over the selected offers, so the first offer of an id wins. */
  function Tier(offers: seq<Offer>, global: bool, dialectId: string): (m: map<string, UserType>)
    ensures forall k :: k in m ==> m[k].id == k
  {
    if offers == [] then map[]
    else
      var m := Tier(offers[..|offers| - 1], global, dialectId);
      var o := offers[|offers| - 1];
      if Selects(o, global, dialectId) && o.ut.id !in m then m[o.ut.id := o.ut] else m
  }

  /** An id is in a tier exactly when some selected offer carries it. */
  lemma {:induction false} TierDomain(offers: seq<Offer>, global: bool, dialectId: string, k: string)
    ensures k in Tier(offers, global, dialectId)
      <==> exists i :: 0 <= i < |offers| && Selects(offers[i], global, dialectId) && offers[i].ut.id == k
    decreases |offers|
  {
    if offers != [] {
      var init := offers[..|offers| - 1];
      TierDomain(init, global, dialectId, k);
      if exists i :: 0 <= i < |init| && Selects(init[i], global, dialectId) && init[i].ut.id == k {
        var i :| 0 <= i < |init| && Selects(init[i], global, dialectId) && init[i].ut.id == k;
        assert offers[i] == init[i];
      }
      forall i | 0 <= i < |offers| - 1
        ensures offers[i] == init[i]
      {
      }
    }
  }

  /** The type a tier holds for an id is the first selected offer of that id. */
  lemma {:induction false} TierFirstWins(offers: seq<Offer>, global: bool, dialectId: string, i: nat)
    requires i < |offers| && Selects(offers[i], global, dialectId)
    requires forall j :: 0 <= j < i ==> !(Selects(offers[j], global, dialectId) && offers[j].ut.id == offers[i].ut.id)
    ensures offers[i].ut.id in Tier(offers, global, dialectId)
    ensures Tier(offers, global, dialectId)[offers[i].ut.id] == offers[i].ut
    decreases |offers|
  {
    var init := offers[..|offers| - 1];
    var k := offers[i].ut.id;
    if i < |offers| - 1 {
      TierFirstWins(init, global, dialectId, i);
    } else {
      TierDomain(init, global, dialectId, k);
      forall j | 0 <= j < |init|
        ensures !(Selects(init[j], global, dialectId) && init[j].ut.id == k)
      {
        assert init[j] == offers[j];
      }
    }
  }

  lemma TierSnoc(offers: seq<Offer>, o: Offer, global: bool, dialectId: string)
    ensures Tier(offers + [o], global, dialectId)
      == (var m := Tier(offers, global, dialectId);
          if Selects(o, global, dialectId) && o.ut.id !in m then m[o.ut.id := o.ut] else m)
  {
    assert (offers + [o])[..|offers|] == offers;
  }

  /**
   * map<K,V> split at the top-level comma; None when the comma is missing,
   * first or last.
   */
  function MapSplit(body: string): (r: Option<(string, string)>)
    ensures r.Some? ==> |r.value.0| > 0 && |r.value.1| > 0 && body == r.value.0 + "," + r.value.1
  {
    var comma := TypeRefParser.TopCommaAt(body, 0);
    if comma <= 0 || comma >= |body| - 1 then None
    else
      assert body == body[..comma] + "," + body[comma + 1..];
      Some((body[..comma], body[comma + 1..]))
  }

  /** The split as the registry writes it: at the first comma, whatever its depth. */
  function MapSplitAsWritten(body: string): (r: Option<(string, string)>)
    ensures r.Some? ==> ',' !in r.value.0 && body == r.value.0 + "," + r.value.1
  {
    var comma := IndexOf(body, ',');
    if comma <= 0 || comma >= |body| - 1 then None
    else
      assert body == body[..comma] + "," + body[comma + 1..];
      Some((body[..comma], body[comma + 1..]))
  }

  /**
   * The split synthesis applies to a map body: the registry as written cuts
   * at the first comma; `topLevel` selects the depth-aware split instead.
   */
  function SplitMapBody(body: string, topLevel: bool): (r: Option<(string, string)>)
    ensures r.Some? ==> body == r.value.0 + "," + r.value.1
  {
    if topLevel then MapSplit(body) else MapSplitAsWritten(body)
  }

  /** The constructor's loops over the providers and their types. */
  method CollectTiers(did0: string, providers: seq<Option<Provider>>) returns (dialect: map<string, UserType>, global: map<string, UserType>)
    ensures dialect == Tier(Offers(providers), false, did0)
    ensures global == Tier(Offers(providers), true, did0)
  {
    dialect, global := map[], map[];
    for i := 0 to |providers|
      invariant dialect == Tier(Offers(providers[..i]), false, did0)
      invariant global == Tier(Offers(providers[..i]), true, did0)
    {
      assert providers[..i + 1][..i] == providers[..i];
      var p := providers[i];
      if p.Some? && p.value.userTypes.Some? {
        dialect, global := CollectProvider(did0, Offers(providers[..i]), NormalizeDialect(p.value.dialectId),
          p.value.userTypes.value, dialect, global);
      }
    }
    assert providers[..|providers|] == providers;
  }

  /** The inner loop: one provider's types, putIfAbsent into the tier its dialect selects. */
  method CollectProvider(did0: string, ghost before: seq<Offer>, did: string, types: seq<Option<UserType>>,
                         dialect0: map<string, UserType>, global0: map<string, UserType>)
    returns (dialect: map<string, UserType>, global: map<string, UserType>)
    requires dialect0 == Tier(before, false, did0) && global0 == Tier(before, true, did0)
    ensures dialect == Tier(before + OffersOf(did, types), false, did0)
    ensures global == Tier(before + OffersOf(did, types), true, did0)
  {
    dialect, global := dialect0, global0;
    assert before + OffersOf(did, types[..0]) == before;
    for j := 0 to |types|
      invariant dialect == Tier(before + OffersOf(did, types[..j]), false, did0)
      invariant global == Tier(before + OffersOf(did, types[..j]), true, did0)
    {
      assert types[..j + 1][..j] == types[..j];
      var ut := types[j];
      if ut.Some? {
        var o := Offer(did, ut.value);
        assert before + OffersOf(did, types[..j + 1]) == (before + OffersOf(did, types[..j])) + [o];
        TierSnoc(before + OffersOf(did, types[..j]), o, false, did0);
        TierSnoc(before + OffersOf(did, types[..j]), o, true, did0);
        if did == GlobalDialect {
          if ut.value.id !in global {
            global := global[ut.value.id := ut.value];
          }
        } else if did == did0 {
          if ut.value.id !in dialect {
            dialect := dialect[ut.value.id := ut.value];
          }
        }
      }
    }
    assert types[..|types|] == types;
  }

  class Registry {
    const dialectId: string
    const dialectTypes: map<string, UserType>
    const globalTypes: map<string, UserType>
    /** The container types synthesized so far (computeIfAbsent never stores a null). */
    var synthesized: map<string, UserType>

    /** Every cached container is what synthesis gives for its id. */
    ghost predicate Valid()
      reads this
    {
      (forall k :: k in dialectTypes ==> dialectTypes[k].id == k)
      && (forall k :: k in globalTypes ==> globalTypes[k].id == k)
      && (forall k :: k in synthesized ==> Synthesize(k, false) == Ok(Some(synthesized[k])))
    }

    /**
     * get: dialect tier, global tier, synthesized container, else the
     * unknown-id error. The registry is `Resolve(id, false)`; `Resolve(id,
     * true)` is the same lookup with map bodies split at their top-level comma.
     */
    function Resolve(id: string, topLevel: bool): Result<UserType>
      decreases |id|, 1
    {
      if IsBlank(id) then Err(IllegalArgument("Unknown userTypeId: " + id))
      else if id in dialectTypes then Ok(dialectTypes[id])
      else if id in globalTypes then Ok(globalTypes[id])
      else
        match Synthesize(id, topLevel)
        case Err(e) => Err(e)
        case Ok(Some(t)) => Ok(t)
        case Ok(None) => Err(IllegalArgument("Unknown userTypeId: " + id + " (dialectId=" + dialectId + ")"))
    }

    /** trySynthesize: a container type over resolved element ids, or None for any other id. */
    function Synthesize(id: string, topLevel: bool): Result<Option<UserType>>
      decreases |id|, 0
    {
      match TypeRefParser.FormOf(id)
      case ListForm(x) =>
        var el :- Resolve(x, topLevel);
        Ok(Some(ListType(id, el)))
      case SetForm(x) =>
        var el :- Resolve(x, topLevel);
        Ok(Some(SetType(id, el)))
      case ArrayForm(x) =>
        var el :- Resolve(x, topLevel);
        Ok(Some(ArrayType(id, el)))
      case MapForm(body) =>
        (match SplitMapBody(body, topLevel)
         case None => Ok(None)
         case Some((k, v)) =>
           var kt :- Resolve(k, topLevel);
           var vt :- Resolve(v, topLevel);
           Ok(Some(MapType(id, kt, vt))))
      case _ => Ok(None)
    }

    /** Fills the two tiers from the providers in discovery order. */
    constructor (dialectId: Option<string>, providers: seq<Option<Provider>>)
      ensures this.dialectId == (if dialectId.None? || IsBlank(dialectId.value) then "" else dialectId.value)
      ensures dialectTypes == Tier(Offers(providers), false, this.dialectId)
      ensures globalTypes == Tier(Offers(providers), true, this.dialectId)
      ensures synthesized == map[]
      ensures Valid()
    {
      var did0 := if dialectId.None? || IsBlank(dialectId.value) then "" else dialectId.value;
      var dialect, global := CollectTiers(did0, providers);
      this.dialectId := did0;
      this.dialectTypes := dialect;
      this.globalTypes := global;
      this.synthesized := map[];
    }

    /** get, with the synthesized cache consulted and filled. */
    method Get(id: string) returns (r: Result<UserType>)
      requires Valid()
      modifies this
      ensures Valid()
      ensures r == Resolve(id, false)
      ensures Extends(old(synthesized), synthesized)
      ensures IsBlank(id) || id in dialectTypes || id in globalTypes || id in old(synthesized)
        ==> synthesized == old(synthesized)
      ensures r.Ok? && !IsBlank(id) && id !in dialectTypes && id !in globalTypes
        ==> id in synthesized && synthesized[id] == r.value
      decreases |id|, 1
    {
      if IsBlank(id) {
        return Err(IllegalArgument("Unknown userTypeId: " + id));
      }
      if id in dialectTypes {
        return Ok(dialectTypes[id]);
      }
      if id in globalTypes {
        return Ok(globalTypes[id]);
      }
      if id in synthesized {
        return Ok(synthesized[id]);
      }
      var syn := TrySynthesize(id);
      if syn.Err? {
        return Err(syn.error);
      }
      if syn.value.Some? {
        synthesized := synthesized[id := syn.value.value];
        return Ok(syn.value.value);
      }
      return Err(IllegalArgument("Unknown userTypeId: " + id + " (dialectId=" + dialectId + ")"));
    }

    method TrySynthesize(id: string) returns (r: Result<Option<UserType>>)
      requires Valid()
      modifies this
      ensures Valid()
      ensures r == Synthesize(id, false)
      ensures Extends(old(synthesized), synthesized)
      decreases |id|, 0
    {
      var form := TypeRefParser.FormOf(id);
      if form.ListForm? {
        var el := Get(form.inner);
        if el.Err? { return Err(el.error); }
        return Ok(Some(ListType(id, el.value)));
      }
      if form.SetForm? {
        var el := Get(form.inner);
        if el.Err? { return Err(el.error); }
        return Ok(Some(SetType(id, el.value)));
      }
      if form.ArrayForm? {
        var el := Get(form.inner);
        if el.Err? { return Err(el.error); }
        return Ok(Some(ArrayType(id, el.value)));
      }
      if form.MapForm? {
        var split := MapSplitAsWritten(form.inner);
        if split.None? { return Ok(None); }
        var kt := Get(split.value.0);
        if kt.Err? { return Err(kt.error); }
        var vt := Get(split.value.1);
        if vt.Err? { return Err(vt.error); }
        return Ok(Some(MapType(id, kt.value, vt.value)));
      }
      return Ok(None);
    }

    /** What get returns for an id carries that id. */
    lemma {:induction false} ResolvedIdMatches(id: string, topLevel: bool)
      requires forall k :: k in dialectTypes ==> dialectTypes[k].id == k
      requires forall k :: k in globalTypes ==> globalTypes[k].id == k
      ensures Resolve(id, topLevel).Ok? ==> Resolve(id, topLevel).value.id == id
    {
      if !IsBlank(id) && id !in dialectTypes && id !in globalTypes
        && Synthesize(id, topLevel).Ok? && Synthesize(id, topLevel).value.Some? {
        SynthesizedIdMatches(id, topLevel);
      }
    }

    lemma SynthesizedIdMatches(id: string, topLevel: bool)
      ensures Synthesize(id, topLevel).Ok? && Synthesize(id, topLevel).value.Some?
        ==> Synthesize(id, topLevel).value.value.id == id
    {
    }

    /** A blank id is refused before any tier is consulted. */
    lemma BlankIsUnknown(id: string)
      requires IsBlank(id)
      ensures Resolve(id, false) == Err(IllegalArgument("Unknown userTypeId: " + id))
    {
    }

    /** An id registered for the dialect shadows the same id registered globally. */
    lemma DialectShadowsGlobal(id: string)
      requires !IsBlank(id) && id in dialectTypes && id in globalTypes
      ensures Resolve(id, false) == Ok(dialectTypes[id])
    {
    }

    /** Every scalar leaf of a type is registered in one of the tiers. */
    predicate LeavesRegistered(t: Authoring.TypeRef)
    {
      match t
      case Scalar(id) => id in dialectTypes || id in globalTypes
      case Ref(_) => false
      case ListOf(e) => LeavesRegistered(e)
      case SetOf(e) => LeavesRegistered(e)
      case ArrayOf(e) => LeavesRegistered(e)
      case MapOf(k, v) => LeavesRegistered(k) && LeavesRegistered(v)
    }

    /**
     * The canonical id of every container type over registered scalars
     * resolves: always with the top-level split, and with the registry's
     * first-comma split when no map key is itself a map.
     */
    lemma {:induction false} ResolvesCanonical(t: Authoring.TypeRef, topLevel: bool)
      requires TypeRefParser.Canonical(t) && LeavesRegistered(t)
      requires topLevel || KeysFlat(t)
      ensures Resolve(Authoring.TypeId(t), topLevel).Ok?
      decreases t
    {
      match t
      case Scalar(id) =>
        assert !IsWhitespace(id[0]) by { assert TypeRefParser.IdChar(id[0]); }
      case ListOf(e) =>
        ResolvesCanonical(e, topLevel);
        ResolvesWrapped("list<", e, topLevel);
      case SetOf(e) =>
        ResolvesCanonical(e, topLevel);
        ResolvesWrapped("set<", e, topLevel);
      case ArrayOf(e) =>
        ResolvesCanonical(e, topLevel);
        ResolvesWrapped("array<", e, topLevel);
      case MapOf(k, v) =>
        if !topLevel { NoMapIsFlat(k); }
        ResolvesCanonical(k, topLevel);
        ResolvesCanonical(v, topLevel);
        ResolvesMap(k, v, topLevel);
    }

    lemma ResolvesWrapped(w: string, e: Authoring.TypeRef, topLevel: bool)
      requires w == "list<" || w == "set<" || w == "array<"
      requires Resolve(Authoring.TypeId(e), topLevel).Ok?
      ensures Resolve(w + Authoring.TypeId(e) + ">", topLevel).Ok?
    {
      var x := Authoring.TypeId(e);
      var s := w + x + ">";
      assert !IsWhitespace(s[0]);
      if w == "list<" {
        TypeRefParser.FormList(x);
      } else if w == "set<" {
        TypeRefParser.FormSet(x);
      } else {
        TypeRefParser.FormArray(x);
      }
    }

    lemma ResolvesMap(k: Authoring.TypeRef, v: Authoring.TypeRef, topLevel: bool)
      requires TypeRefParser.Canonical(k) && TypeRefParser.Canonical(v)
      requires topLevel || KeysFlat(Authoring.MapOf(k, v))
      requires Resolve(Authoring.TypeId(k), topLevel).Ok? && Resolve(Authoring.TypeId(v), topLevel).Ok?
      ensures Resolve(Authoring.TypeId(Authoring.MapOf(k, v)), topLevel).Ok?
    {
      var K, V := Authoring.TypeId(k), Authoring.TypeId(v);
      var body := K + "," + V;
      var s := "map<" + body + ">";
      assert Resolve(s, topLevel).Ok? by {
        assert !IsBlank(s) by { assert !IsWhitespace(s[0]); }
        assert Synthesize(s, topLevel).Ok? && Synthesize(s, topLevel).value.Some? by {
          TypeRefParser.FormMap(body);
          if topLevel {
            MapSplitOfIds(k, v);
          } else {
            AsWrittenSplitOfIds(k, v);
          }
          SynthesizesMap(s, body, K, V, topLevel);
        }
        ResolvesSynthesized(s, topLevel);
      }
      assert Authoring.TypeId(Authoring.MapOf(k, v)) == s;
    }

    /** A map form whose split halves both resolve is synthesized. */
    lemma SynthesizesMap(s: string, body: string, K: string, V: string, topLevel: bool)
      requires TypeRefParser.FormOf(s) == TypeRefParser.MapForm(body) && SplitMapBody(body, topLevel) == Some((K, V))
      requires Resolve(K, topLevel).Ok? && Resolve(V, topLevel).Ok?
      ensures Synthesize(s, topLevel) == Ok(Some(MapType(s, Resolve(K, topLevel).value, Resolve(V, topLevel).value)))
    {
    }

    /** An id that is not blank and that synthesis builds resolves. */
    lemma ResolvesSynthesized(s: string, topLevel: bool)
      requires !IsBlank(s) && Synthesize(s, topLevel).Ok? && Synthesize(s, topLevel).value.Some?
      ensures Resolve(s, topLevel).Ok?
    {
    }

    /**
     * The first-comma split of the registry as written cuts the body of
     * "map<map<a,K2>,V>" inside its key and asks for "map<a", which is no
     * type, so get fails for the whole id; the top-level split resolves it.
     */
    lemma NestedMapKeyMisSplit(a: string, k2: Authoring.TypeRef, v: Authoring.TypeRef)
      requires TypeRefParser.Canonical(Authoring.Scalar(a)) && TypeRefParser.Canonical(k2) && TypeRefParser.Canonical(v)
      requires LeavesRegistered(Authoring.Scalar(a)) && LeavesRegistered(k2) && LeavesRegistered(v)
      requires "map<" + a !in dialectTypes && "map<" + a !in globalTypes
      requires NestedMapId(a, k2, v) !in dialectTypes && NestedMapId(a, k2, v) !in globalTypes
      ensures Resolve(NestedMapId(a, k2, v), false).Err?
      ensures Resolve(NestedMapId(a, k2, v), true).Ok?
    {
      var id := NestedMapId(a, k2, v);
      var body := NestedMapBody(a, k2, v);
      AsWrittenSplitsNestedKey(a, k2, v);
      TypeRefParser.FormMap(body);
      MapPrefixUnknown(a);
      SplitKeyFails(id, body, "map<" + a, Authoring.TypeId(k2) + ">," + Authoring.TypeId(v));
      ResolvesCanonical(Authoring.MapOf(Authoring.MapOf(Authoring.Scalar(a), k2), v), true);
    }

    /** A map id whose as-written key half fails to resolve fails too. */
    lemma SplitKeyFails(id: string, body: string, key: string, rest: string)
      requires id == "map<" + body + ">" && TypeRefParser.FormOf(id) == TypeRefParser.MapForm(body)
      requires MapSplitAsWritten(body) == Some((key, rest)) && Resolve(key, false).Err?
      requires id !in dialectTypes && id !in globalTypes
      ensures Resolve(id, false).Err?
    {
      assert !IsBlank(id) by { assert !IsWhitespace(id[0]); }
      assert Synthesize(id, false).Err?;
    }

    /** "map<a" is not closed, so it is no container, and get fails for it unless it is registered. */
    lemma MapPrefixUnknown(a: string)
      requires TypeRefParser.Canonical(Authoring.Scalar(a))
      requires "map<" + a !in dialectTypes && "map<" + a !in globalTypes
      ensures Resolve("map<" + a, false).Err?
    {
      var key := "map<" + a;
      assert !IsWhitespace(key[0]);
      assert TypeRefParser.IdChar(key[|key| - 1]);
      TypeRefParser.FormOfUnclosed(key);
    }
  }

  /** A later cache keeps every entry of an earlier one. */
  ghost predicate Extends(before: map<string, UserType>, after: map<string, UserType>)
  {
    forall k :: k in before ==> k in after && after[k] == before[k]
  }

  /** The id of map<map<a,K2>,V>. */
  function NestedMapId(a: string, k2: Authoring.TypeRef, v: Authoring.TypeRef): string
  {
    Authoring.TypeId(Authoring.MapOf(Authoring.MapOf(Authoring.Scalar(a), k2), v))
  }

  /** The text between "map<" and the closing ">" of that id. */
  function NestedMapBody(a: string, k2: Authoring.TypeRef, v: Authoring.TypeRef): string
  {
    Authoring.TypeId(Authoring.MapOf(Authoring.Scalar(a), k2)) + "," + Authoring.TypeId(v)
  }

  lemma {:induction false} NoMapIsFlat(t: Authoring.TypeRef)
    requires NoMap(t)
    ensures KeysFlat(t)
  {
    match t
    case ListOf(e) => NoMapIsFlat(e);
    case SetOf(e) => NoMapIsFlat(e);
    case ArrayOf(e) => NoMapIsFlat(e);
    case _ =>
  }

  /** No map anywhere in the type, so its canonical id holds no comma. */
  predicate NoMap(t: Authoring.TypeRef)
  {
    match t
    case MapOf(_, _) => false
    case ListOf(e) => NoMap(e)
    case SetOf(e) => NoMap(e)
    case ArrayOf(e) => NoMap(e)
    case _ => true
  }

  /** No map key is itself (or contains) a map: the ids the first-comma split handles. */
  predicate KeysFlat(t: Authoring.TypeRef)
  {
    match t
    case MapOf(k, v) => NoMap(k) && KeysFlat(v)
    case ListOf(e) => KeysFlat(e)
    case SetOf(e) => KeysFlat(e)
    case ArrayOf(e) => KeysFlat(e)
    case _ => true
  }

  lemma {:induction false} NoCommaInId(t: Authoring.TypeRef)
    requires TypeRefParser.Canonical(t) && NoMap(t)
    ensures ',' !in Authoring.TypeId(t)
  {
    match t
    case Scalar(id) =>
      forall i | 0 <= i < |id| ensures id[i] != ',' { assert TypeRefParser.IdChar(id[i]); }
    case ListOf(e) =>
      NoCommaInId(e);
      NoCommaWrapped("list<", Authoring.TypeId(e));
    case SetOf(e) =>
      NoCommaInId(e);
      NoCommaWrapped("set<", Authoring.TypeId(e));
    case ArrayOf(e) =>
      NoCommaInId(e);
      NoCommaWrapped("array<", Authoring.TypeId(e));
  }

  lemma NoCommaWrapped(w: string, x: string)
    requires ',' !in w && ',' !in x
    ensures ',' !in w + x + ">"
  {
    var s := w + x + ">";
    forall i | 0 <= i < |s| ensures s[i] != ',' {
      if i < |w| { assert s[i] == w[i]; }
      else if i < |w| + |x| { assert s[i] == x[i - |w|]; }
    }
  }

  /** With a comma-free key, the first-comma split finds the comma between key and value. */
  lemma AsWrittenSplitOfIds(k: Authoring.TypeRef, v: Authoring.TypeRef)
    requires TypeRefParser.Canonical(k) && TypeRefParser.Canonical(v) && NoMap(k)
    ensures MapSplitAsWritten(Authoring.TypeId(k) + "," + Authoring.TypeId(v)) == Some((Authoring.TypeId(k), Authoring.TypeId(v)))
  {
    NoCommaInId(k);
    CanonicalIdNonEmpty(k);
    CanonicalIdNonEmpty(v);
    AsWrittenSplitsAt(Authoring.TypeId(k), Authoring.TypeId(v));
  }


  /** The first comma of the body of map<map<a,K2>,V> falls inside its key, right after "map<a". */
  lemma AsWrittenSplitsNestedKey(a: string, k2: Authoring.TypeRef, v: Authoring.TypeRef)
    requires TypeRefParser.Canonical(Authoring.Scalar(a))
    ensures NestedMapId(a, k2, v) == "map<" + NestedMapBody(a, k2, v) + ">"
    ensures MapSplitAsWritten(NestedMapBody(a, k2, v)) == Some(("map<" + a, Authoring.TypeId(k2) + ">," + Authoring.TypeId(v)))
  {
    var K2, V := Authoring.TypeId(k2), Authoring.TypeId(v);
    var inner := Authoring.TypeId(Authoring.MapOf(Authoring.Scalar(a), k2));
    assert Authoring.TypeId(Authoring.Scalar(a)) == a;
    assert inner == "map<" + a + "," + K2 + ">";
    assert NestedMapId(a, k2, v) == "map<" + inner + "," + V + ">";
    NestedShape(a, K2, V, inner, NestedMapBody(a, k2, v), NestedMapId(a, k2, v));
    assert ',' !in "map<" + a by {
      forall i | 0 <= i < |a| ensures a[i] != ',' { assert TypeRefParser.IdChar(a[i]); }
      NoCommaWrapped("map<", a);
      assert "map<" + a == ("map<" + a + ">")[..|"map<" + a|];
    }
    AsWrittenSplitsAt("map<" + a, K2 + ">," + V);
  }

  /** Where the first comma of the body of map<map<a,K2>,V> falls. */
  lemma NestedShape(a: string, K2: string, V: string, inner: string, body: string, id: string)
    requires inner == "map<" + a + "," + K2 + ">" && body == inner + "," + V
    requires id == "map<" + inner + "," + V + ">"
    ensures id == "map<" + body + ">"
    ensures body == ("map<" + a) + "," + (K2 + ">," + V)
  {
  }

  /** The as-written split stops at the first comma of its input. */
  lemma AsWrittenSplitsAt(key: string, rest: string)
    requires ',' !in key && |key| > 0 && |rest| > 0
    ensures MapSplitAsWritten(key + "," + rest) == Some((key, rest))
  {
    var s := key + "," + rest;
    assert s == key + [','] + rest;
    IndexOfAfter(key, ',', rest);
    assert s[..|key|] == key;
    assert s[|key| + 1..] == rest;
  }

  /** The corrected split finds the comma between the canonical ids of key and value. */
  lemma MapSplitOfIds(k: Authoring.TypeRef, v: Authoring.TypeRef)
    requires TypeRefParser.Canonical(k) && TypeRefParser.Canonical(v)
    ensures MapSplit(Authoring.TypeId(k) + "," + Authoring.TypeId(v)) == Some((Authoring.TypeId(k), Authoring.TypeId(v)))
  {
    var K, V := Authoring.TypeId(k), Authoring.TypeId(v);
    var body := K + "," + V;
    TypeRefParser.MapCommaIsTop(k, v);
    CanonicalIdNonEmpty(k);
    CanonicalIdNonEmpty(v);
    assert body[..|K|] == K && body[|K| + 1..] == V;
  }

  lemma {:induction false} CanonicalIdNonEmpty(t: Authoring.TypeRef)
    requires TypeRefParser.Canonical(t)
    ensures |Authoring.TypeId(t)| > 0
  {
  }
}
