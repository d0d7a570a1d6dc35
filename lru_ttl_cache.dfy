/**
 * LruTtlCache: a bounded cache whose entries expire a fixed time after they
 * were written (ttl) or after they were last read (idle), and which drops
 * its least recently used entries once it holds more than maxEntries.
 *
 * The access-ordered LinkedHashMap is a sequence of slots, least recently
 * used first; a read or a write moves the slot it touches to the end. The
 * clock (nowMillis) is read by the caller and passed in as `now`. A null
 * value is None, so a cached null reads back exactly like a miss.
 */
module LruTtlCache {
  import opened Wrappers

  /** One cached value with the times it was written and last read. */
  datatype Slot<K, V> = Slot(key: K, value: Option<V>, writeAt: int, accessAt: int)

  /** No key occurs twice: the map has one entry per key. */
  ghost predicate UniqueKeys<K, V>(s: seq<Slot<K, V>>)
  {
    forall i, j :: 0 <= i < j < |s| ==> s[i].key != s[j].key
  }

  /** Where key sits in the access order, if anywhere. */
  function Find<K(==), V>(s: seq<Slot<K, V>>, key: K): (r: Option<nat>)
    ensures r.Some? ==> r.value < |s| && s[r.value].key == key
    ensures r.None? <==> forall i :: 0 <= i < |s| ==> s[i].key != key
  {
    if |s| == 0 then None
    else if s[0].key == key then Some(0)
    else
      match Find(s[1..], key)
      case None => None
      case Some(j) => Some(j + 1)
  }

  /** The slots without the one at i. */
  function Without<K, V>(s: seq<Slot<K, V>>, i: nat): (r: seq<Slot<K, V>>)
    requires i < |s|
    ensures |r| == |s| - 1
  {
    s[..i] + s[i + 1..]
  }

  /** In a map with one entry per key, the slot at i is the only one for its key. */
  lemma FindUnique<K, V>(s: seq<Slot<K, V>>, i: nat)
    requires UniqueKeys(s) && i < |s|
    ensures Find(s, s[i].key) == Some(i)
  {
    var r := Find(s, s[i].key);
    assert r.Some?;
  }

  /** Dropping a slot keeps one entry per key and removes its key. */
  lemma WithoutUnique<K, V>(s: seq<Slot<K, V>>, i: nat)
    requires UniqueKeys(s) && i < |s|
    ensures UniqueKeys(Without(s, i))
    ensures forall j :: 0 <= j < |s| - 1 ==> Without(s, i)[j].key != s[i].key
  {
    var w := Without(s, i);
    assert forall j :: 0 <= j < |w| ==> w[j] == if j < i then s[j] else s[j + 1];
  }

  /** A slot for a key the slots do not hold can go at the end. */
  lemma AppendUnique<K, V>(s: seq<Slot<K, V>>, x: Slot<K, V>)
    requires UniqueKeys(s) && forall j :: 0 <= j < |s| ==> s[j].key != x.key
    ensures UniqueKeys(s + [x])
  {
  }

  /** The newest slots: the front (least recently used) dropped until at most max remain. */
  function Newest<K, V>(s: seq<Slot<K, V>>, max: nat): (r: seq<Slot<K, V>>)
    ensures |r| <= max || r == s
  {
    if |s| > max then s[|s| - max..] else s
  }

  class Cache<K(==), V> {
    const maxEntries: nat
    const ttlMillis: nat
    const idleMillis: nat
    /** The entries, least recently used first. */
    var slots: seq<Slot<K, V>>

    ghost predicate Valid()
      reads this
    {
      maxEntries > 0 && UniqueKeys(slots) && |slots| <= maxEntries
    }

    /** isExpired: past its write time-to-live, or idle for too long; a zero limit is off. */
    predicate IsExpired(e: Slot<K, V>, now: int)
    {
      (ttlMillis > 0 && now - e.writeAt >= ttlMillis) || (idleMillis > 0 && now - e.accessAt >= idleMillis)
    }

    /** The slots that have not expired at now, in their order. */
    function Live(s: seq<Slot<K, V>>, now: int): (r: seq<Slot<K, V>>)
      ensures |r| <= |s|
    {
      if |s| == 0 then []
      else Live(s[..|s| - 1], now) + (if IsExpired(s[|s| - 1], now) then [] else [s[|s| - 1]])
    }

    /** What map.get and the expiry check leave behind: a miss, an expired entry removed, or the entry read and moved last. */
    function Looked(s: seq<Slot<K, V>>, key: K, now: int): seq<Slot<K, V>>
    {
      match Find(s, key)
      case None => s
      case Some(i) =>
        if IsExpired(s[i], now) then Without(s, i)
        else Without(s, i) + [s[i].(accessAt := now)]
    }

    /** The value that read gives: null for a miss or an expired entry. */
    function LookedValue(s: seq<Slot<K, V>>, key: K, now: int): Option<V>
    {
      match Find(s, key)
      case None => None
      case Some(i) => if IsExpired(s[i], now) then None else s[i].value
    }

    /** map.put: a fresh entry for key, written and read at now, last in the order. */
    function Stored(s: seq<Slot<K, V>>, key: K, value: Option<V>, now: int): seq<Slot<K, V>>
    {
      var rest := match Find(s, key) case None => s case Some(i) => Without(s, i);
      rest + [Slot(key, value, now, now)]
    }

    /** The value an earlier put left for key, or null. */
    function Previous(s: seq<Slot<K, V>>, key: K): Option<V>
    {
      match Find(s, key)
      case None => None
      case Some(i) => s[i].value
    }

    constructor(maxEntries: nat, ttlMillis: nat, idleMillis: nat)
      requires maxEntries > 0
      ensures Valid() && slots == []
      ensures this.maxEntries == maxEntries && this.ttlMillis == ttlMillis && this.idleMillis == idleMillis
    {
      this.maxEntries := maxEntries;
      this.ttlMillis := ttlMillis;
      this.idleMillis := idleMillis;
      slots := [];
    }

    /** The checking constructor: a bound below one, or a negative time limit, is refused. */
    static method Create(maxEntries: int, ttlMillis: int, idleMillis: int) returns (r: Result<Cache<K, V>>)
      ensures maxEntries <= 0 ==> r == Err(IllegalArgument("maxEntries must be > 0"))
      ensures maxEntries > 0 && ttlMillis < 0 ==> r == Err(IllegalArgument("ttlMillis must be >= 0"))
      ensures maxEntries > 0 && ttlMillis >= 0 && idleMillis < 0 ==> r == Err(IllegalArgument("idleMillis must be >= 0"))
      ensures r.Ok? <==> maxEntries > 0 && ttlMillis >= 0 && idleMillis >= 0
      ensures r.Ok? ==> fresh(r.value) && r.value.Valid() && r.value.slots == []
      ensures r.Ok? ==> r.value.maxEntries == maxEntries && r.value.ttlMillis == ttlMillis && r.value.idleMillis == idleMillis
    {
      if maxEntries <= 0 {
        return Err(IllegalArgument("maxEntries must be > 0"));
      }
      if ttlMillis < 0 {
        return Err(IllegalArgument("ttlMillis must be >= 0"));
      }
      if idleMillis < 0 {
        return Err(IllegalArgument("idleMillis must be >= 0"));
      }
      var c := new Cache(maxEntries, ttlMillis, idleMillis);
      r := Ok(c);
    }

    /** The pruning loop: every expired entry removed, the others kept in order. */
    method PruneExpired(now: int)
      requires Valid()
      modifies this
      ensures Valid()
      ensures slots == Live(old(slots), now)
    {
      if |slots| == 0 {
        return;
      }
      var kept := [];
      var i := 0;
      while i < |slots|
        invariant 0 <= i <= |slots|
        invariant kept == Live(slots[..i], now)
      {
        assert slots[..i + 1][..i] == slots[..i];
        if !IsExpired(slots[i], now) {
          kept := kept + [slots[i]];
        }
        i := i + 1;
      }
      assert slots[..i] == slots;
      LiveUnique(slots, now);
      slots := kept;
    }

    /** The eviction loop: the least recently used entry goes first, until at most maxEntries remain. */
    method EvictIfNeeded()
      requires maxEntries > 0 && UniqueKeys(slots)
      modifies this
      ensures Valid()
      ensures slots == Newest(old(slots), maxEntries)
    {
      ghost var k := 0;
      while |slots| > maxEntries
        invariant k <= |old(slots)| && slots == old(slots)[k..]
        invariant |old(slots)| > maxEntries ==> k <= |old(slots)| - maxEntries
        invariant |old(slots)| <= maxEntries ==> k == 0
        decreases |slots|
      {
        slots := slots[1..];
        k := k + 1;
      }
      assert old(slots)[k..] == Newest(old(slots), maxEntries);
      NewestUnique(old(slots), maxEntries);
    }

    /** map.get on the access-ordered map, then the expiry check and the access-time update of get. */
    method Lookup(key: K, now: int) returns (r: Option<V>)
      requires Valid()
      modifies this
      ensures Valid()
      ensures slots == Looked(old(slots), key, now) && r == LookedValue(old(slots), key, now)
    {
      var f := FindSlot(key);
      if f.None? {
        return None;
      }
      var i := f.value;
      var e := slots[i];
      WithoutUnique(slots, i);
      if IsExpired(e, now) {
        slots := slots[..i] + slots[i + 1..];
        return None;
      }
      AppendUnique(Without(slots, i), e.(accessAt := now));
      slots := slots[..i] + slots[i + 1..] + [e.(accessAt := now)];
      r := e.value;
    }

    /** The lookup in the slots, front to back. */
    method FindSlot(key: K) returns (r: Option<nat>)
      ensures r == Find(slots, key)
    {
      var i := 0;
      while i < |slots|
        invariant 0 <= i <= |slots|
        invariant forall j :: 0 <= j < i ==> slots[j].key != key
      {
        if slots[i].key == key {
          FindFirst(slots, key, i);
          return Some(i);
        }
        i := i + 1;
      }
      return None;
    }

    /** get: expired entries pruned, then the key read. */
    method Get(key: K, now: int) returns (r: Option<V>)
      requires Valid()
      modifies this
      ensures Valid()
      ensures slots == Looked(Live(old(slots), now), key, now)
      ensures r == LookedValue(Live(old(slots), now), key, now)
    {
      PruneExpired(now);
      r := Lookup(key, now);
    }

    /** put: expired entries pruned, the entry stored last, then the eldest evicted; the old value is returned. */
    method Put(key: K, value: Option<V>, now: int) returns (prev: Option<V>)
      requires Valid()
      modifies this
      ensures Valid()
      ensures slots == Newest(Stored(Live(old(slots), now), key, value, now), maxEntries)
      ensures prev == Previous(Live(old(slots), now), key)
    {
      PruneExpired(now);
      var f := FindSlot(key);
      var e := Slot(key, value, now, now);
      if f.Some? {
        var i := f.value;
        prev := slots[i].value;
        WithoutUnique(slots, i);
        AppendUnique(Without(slots, i), e);
        slots := slots[..i] + slots[i + 1..] + [e];
      } else {
        prev := None;
        AppendUnique(slots, e);
        slots := slots + [e];
      }
      EvictIfNeeded();
    }

    /**
     * getOrCompute: a cached non-null value is returned as it is; otherwise
     * the supplier's result (passed in as supplied) is stored and returned.
     * called says whether the supplier ran. The clock is read once by get
     * (nowGet) and once by put (nowPut).
     */
    method GetOrCompute(key: K, nowGet: int, nowPut: int, supplied: Option<V>) returns (r: Option<V>, called: bool)
      requires Valid()
      modifies this
      ensures Valid()
      ensures called <==> LookedValue(Live(old(slots), nowGet), key, nowGet).None?
      ensures !called ==> r == LookedValue(Live(old(slots), nowGet), key, nowGet)
      ensures !called ==> slots == Looked(Live(old(slots), nowGet), key, nowGet)
      ensures called ==> r == supplied
      ensures called ==>
        slots == Newest(Stored(Live(Looked(Live(old(slots), nowGet), key, nowGet), nowPut), key, supplied, nowPut), maxEntries)
    {
      var existing := Get(key, nowGet);
      if existing.Some? {
        return existing, false;
      }
      var _ := Put(key, supplied, nowPut);
      return supplied, true;
    }

    /** size: expired entries pruned, then counted. */
    method Size(now: int) returns (n: nat)
      requires Valid()
      modifies this
      ensures Valid()
      ensures slots == Live(old(slots), now) && n == |slots|
      ensures n <= maxEntries
    {
      PruneExpired(now);
      n := |slots|;
    }

    // -------------------------------------------------------------------
    // Properties.

    /** Pruning keeps exactly the unexpired slots. */
    lemma {:induction false} LiveIff(s: seq<Slot<K, V>>, now: int, x: Slot<K, V>)
      ensures x in Live(s, now) <==> x in s && !IsExpired(x, now)
    {
      if |s| > 0 {
        var init, last := s[..|s| - 1], s[|s| - 1];
        LiveIff(init, now, x);
        assert s == init + [last];
      }
    }

    lemma {:induction false} LiveUnique(s: seq<Slot<K, V>>, now: int)
      requires UniqueKeys(s)
      ensures UniqueKeys(Live(s, now))
    {
      if |s| > 0 {
        var init, last := s[..|s| - 1], s[|s| - 1];
        assert UniqueKeys(init);
        LiveUnique(init, now);
        var l := Live(init, now);
        forall j | 0 <= j < |l|
          ensures l[j].key != last.key
        {
          LiveIff(init, now, l[j]);
          var m :| 0 <= m < |init| && init[m] == l[j];
          assert s[m] == init[m];
        }
      }
    }

    /** Dropping the front keeps one entry per key. */
    lemma NewestUnique(s: seq<Slot<K, V>>, max: nat)
      requires UniqueKeys(s)
      ensures UniqueKeys(Newest(s, max))
    {
      if |s| > max {
        var t := s[|s| - max..];
        assert forall j :: 0 <= j < |t| ==> t[j] == s[|s| - max + j];
      }
    }

    /** An entry past its write time-to-live or idle time is never returned by get, and get removes it. */
    lemma ExpiredNeverReturned(s: seq<Slot<K, V>>, i: nat, now: int)
      requires UniqueKeys(s) && i < |s| && IsExpired(s[i], now)
      ensures LookedValue(Live(s, now), s[i].key, now) == None
      ensures Find(Looked(Live(s, now), s[i].key, now), s[i].key) == None
    {
      var key, l := s[i].key, Live(s, now);
      LiveUnique(s, now);
      forall j | 0 <= j < |l|
        ensures l[j].key != key
      {
        LiveIff(s, now, l[j]);
        var m :| 0 <= m < |s| && s[m] == l[j];
        FindUnique(s, m);
        FindUnique(s, i);
      }
    }

    /** A live entry is returned by get with its value, read at now, and becomes the most recently used. */
    lemma LiveEntryRead(s: seq<Slot<K, V>>, i: nat, now: int)
      requires UniqueKeys(s) && i < |s| && !IsExpired(s[i], now)
      ensures LookedValue(s, s[i].key, now) == s[i].value
      ensures Looked(s, s[i].key, now) == Without(s, i) + [s[i].(accessAt := now)]
    {
      FindUnique(s, i);
    }

    /** Storing keeps one entry per key and puts the new slot last. */
    lemma StoredUnique(s: seq<Slot<K, V>>, key: K, value: Option<V>, now: int)
      requires UniqueKeys(s)
      ensures UniqueKeys(Stored(s, key, value, now))
      ensures var st := Stored(s, key, value, now); |st| > 0 && st[|st| - 1] == Slot(key, value, now, now)
    {
      var rest := match Find(s, key) case None => s case Some(i) => Without(s, i);
      if Find(s, key).Some? {
        WithoutUnique(s, Find(s, key).value);
      }
      AppendUnique(rest, Slot(key, value, now, now));
    }

    /** After put the key is held, as the most recently used entry, with the value just written. */
    lemma PutHoldsKey(s: seq<Slot<K, V>>, key: K, value: Option<V>, now: int)
      requires maxEntries > 0 && UniqueKeys(s)
      ensures var t := Newest(Stored(s, key, value, now), maxEntries);
        |t| > 0 && t[|t| - 1] == Slot(key, value, now, now) && Find(t, key) == Some(|t| - 1)
    {
      var st := Stored(s, key, value, now);
      StoredUnique(s, key, value, now);
      NewestUnique(st, maxEntries);
      var t := Newest(st, maxEntries);
      assert |t| > 0 && t[|t| - 1] == st[|st| - 1];
      FindUnique(t, |t| - 1);
    }

    /** put returns what the key held before, or null when it held nothing. */
    lemma PutReturnsPrevious(s: seq<Slot<K, V>>, i: nat)
      requires UniqueKeys(s) && i < |s|
      ensures Previous(s, s[i].key) == s[i].value
    {
      FindUnique(s, i);
    }

    lemma FindFirst(s: seq<Slot<K, V>>, key: K, i: nat)
      requires i < |s| && s[i].key == key && forall j :: 0 <= j < i ==> s[j].key != key
      ensures Find(s, key) == Some(i)
    {
      if i > 0 {
        FindFirst(s[1..], key, i - 1);
      }
    }
  }
}
