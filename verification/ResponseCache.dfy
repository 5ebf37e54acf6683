/** The bounded TTL/LRU map of AsyncResponseCache.

    The value-level operations below are the specification; class AsyncResponseCache is
    the object whose fields they describe. Entries are listed oldest first, which is the
    iteration order of the OrderedDict. */
module ResponseCache {
  import opened Common

  datatype Entry<V> = Entry(key: string, value: V, expiresAt: real)

  datatype CacheStats = CacheStats(hits: nat, misses: nat, stores: nat, evictions: nat)

  datatype Cache<V> = Cache(entries: seq<Entry<V>>, stats: CacheStats)

  function EmptyCache<V>(): Cache<V> {
    Cache([], CacheStats(0, 0, 0, 0))
  }

  ghost predicate DistinctKeys<V>(es: seq<Entry<V>>) {
    forall i, j :: 0 <= i < j < |es| ==> es[i].key != es[j].key
  }

  function Find<V>(es: seq<Entry<V>>, key: string): (r: Option<Entry<V>>)
    ensures r.Some? ==> r.value in es && r.value.key == key
    ensures r.None? ==> forall i :: 0 <= i < |es| ==> es[i].key != key
  {
    if es == [] then None
    else if es[0].key == key then Some(es[0])
    else Find(es[1..], key)
  }

  predicate HasKey<V>(es: seq<Entry<V>>, key: string) {
    Find(es, key).Some?
  }

  /** The entries without `key`, order kept. */
  function Remove<V>(es: seq<Entry<V>>, key: string): seq<Entry<V>> {
    if es == [] then []
    else if es[0].key == key then Remove(es[1..], key)
    else [es[0]] + Remove(es[1..], key)
  }

  /** The newest `capacity` entries. */
  function Newest<V>(es: seq<Entry<V>>, capacity: nat): seq<Entry<V>> {
    if |es| <= capacity then es else es[|es| - capacity..]
  }

  function Hit<V>(c: Cache<V>, e: Entry<V>): Cache<V> {
    Cache(Remove(c.entries, e.key) + [e], c.stats.(hits := c.stats.hits + 1))
  }

  function Lookup<V>(c: Cache<V>, key: string, now: real): (Cache<V>, Option<V>) {
    match Find(c.entries, key)
    case None => (c.(stats := c.stats.(misses := c.stats.misses + 1)), None)
    case Some(e) =>
      if e.expiresAt <= now then
        (Cache(Remove(c.entries, key), c.stats.(misses := c.stats.misses + 1)), None)
      else (Hit(c, e), Some(e.value))
  }

  /** `ttl_seconds or self._ttl`: an absent or zero argument falls back to the default. */
  function EffectiveTtl(ttl: Option<real>, defaultTtl: real): real {
    if ttl.Some? && ttl.value != 0.0 then ttl.value else defaultTtl
  }

  function Store<V>(c: Cache<V>, capacity: nat, key: string, value: V, expiresAt: real): Cache<V> {
    var grown := Remove(c.entries, key) + [Entry(key, value, expiresAt)];
    var kept := Newest(grown, capacity);
    Cache(kept, c.stats.(stores := c.stats.stores + 1,
                         evictions := c.stats.evictions + (|grown| - |kept|)))
  }

  function Cleared<V>(c: Cache<V>): Cache<V> {
    c.(entries := [])
  }

  ghost predicate Valid<V>(c: Cache<V>, capacity: nat) {
    DistinctKeys(c.entries) && |c.entries| <= capacity
  }

  // ----- facts about the order -----

  lemma {:induction false} RemoveAbsent<V>(es: seq<Entry<V>>, key: string)
    requires forall i :: 0 <= i < |es| ==> es[i].key != key
    ensures Remove(es, key) == es
  {
    if es != [] {
      RemoveAbsent(es[1..], key);
    }
  }

  /** With distinct keys, removing the key at position i removes that entry and nothing else. */
  lemma {:induction false} RemoveAt<V>(es: seq<Entry<V>>, i: nat)
    requires DistinctKeys(es) && i < |es|
    ensures Remove(es, es[i].key) == es[..i] + es[i + 1..]
  {
    if i == 0 {
      RemoveAbsent(es[1..], es[0].key);
    } else {
      var tail := es[1..];
      RemoveAt(tail, i - 1);
      assert [es[0]] + tail[..i - 1] == es[..i];
      assert tail[i..] == es[i + 1..];
    }
  }

  lemma FindPosition<V>(es: seq<Entry<V>>, key: string) returns (i: nat)
    requires HasKey(es, key)
    ensures i < |es| && es[i] == Find(es, key).value && es[i].key == key
  {
    i :| 0 <= i < |es| && es[i] == Find(es, key).value;
  }

  lemma RemoveDistinct<V>(es: seq<Entry<V>>, key: string)
    requires DistinctKeys(es)
    ensures DistinctKeys(Remove(es, key))
    ensures |Remove(es, key)| == |es| - (if HasKey(es, key) then 1 else 0)
    ensures forall i :: 0 <= i < |Remove(es, key)| ==> Remove(es, key)[i].key != key
  {
    if HasKey(es, key) {
      var i := FindPosition(es, key);
      RemoveAt(es, i);
    } else {
      RemoveAbsent(es, key);
    }
  }

  lemma {:induction false} FindAt<V>(es: seq<Entry<V>>, i: nat)
    requires DistinctKeys(es) && i < |es|
    ensures Find(es, es[i].key) == Some(es[i])
  {
    if i > 0 {
      assert es[0].key != es[i].key;
      FindAt(es[1..], i - 1);
    }
  }

  // ----- what every operation keeps -----

  lemma LookupKeepsValid<V>(c: Cache<V>, capacity: nat, key: string, now: real)
    requires Valid(c, capacity)
    ensures Valid(Lookup(c, key, now).0, capacity)
  {
    RemoveDistinct(c.entries, key);
  }

  /** The eviction loop runs at most once per store: it drops the oldest entry exactly when
      the key was new and the cache was full. */
  lemma StoreEvictsAtMostOne<V>(c: Cache<V>, capacity: nat, key: string, value: V, expiresAt: real)
    requires capacity >= 1 && Valid(c, capacity)
    ensures var c' := Store(c, capacity, key, value, expiresAt);
            && Valid(c', capacity)
            && c'.stats.evictions == c.stats.evictions
                 + (if !HasKey(c.entries, key) && |c.entries| == capacity then 1 else 0)
            && c'.entries == (if !HasKey(c.entries, key) && |c.entries| == capacity
                              then c.entries[1..] else Remove(c.entries, key))
                             + [Entry(key, value, expiresAt)]
  {
    RemoveDistinct(c.entries, key);
    if !HasKey(c.entries, key) {
      RemoveAbsent(c.entries, key);
    }
  }

  // ----- the object -----

  /** `entries[key] = entry` on an OrderedDict: overwrite in place, or append. */
  function Assign<V>(es: seq<Entry<V>>, e: Entry<V>): seq<Entry<V>> {
    if es == [] then [e]
    else if es[0].key == e.key then [e] + es[1..]
    else [es[0]] + Assign(es[1..], e)
  }

  /** `entries.move_to_end(key)`, for a key that is present. */
  function MoveToEnd<V>(es: seq<Entry<V>>, key: string): seq<Entry<V>>
    requires HasKey(es, key)
  {
    Remove(es, key) + [Find(es, key).value]
  }

  /** Overwriting in place and moving to the end is the same as removing and appending. */
  lemma {:induction false} AssignThenMove<V>(es: seq<Entry<V>>, e: Entry<V>)
    ensures Find(Assign(es, e), e.key) == Some(e)
    ensures Remove(Assign(es, e), e.key) == Remove(es, e.key)
  {
    if es != [] && es[0].key != e.key {
      AssignThenMove(es[1..], e);
    }
  }

  class AsyncResponseCache<V> {
    const maxEntries: nat
    const ttl: real
    var entries: seq<Entry<V>>
    var hits: nat
    var misses: nat
    var stores: nat
    var evictions: nat

    ghost function State(): Cache<V>
      reads this
    {
      Cache(entries, CacheStats(hits, misses, stores, evictions))
    }

    ghost predicate Ok()
      reads this
    {
      maxEntries >= 1 && ttl > 0.0 && Valid(State(), maxEntries)
    }

    constructor (maxEntries: nat, ttl: real)
      requires maxEntries >= 1 && ttl > 0.0
      ensures Ok() && State() == EmptyCache()
      ensures this.maxEntries == maxEntries && this.ttl == ttl
    {
      this.maxEntries, this.ttl := maxEntries, ttl;
      entries := [];
      hits, misses, stores, evictions := 0, 0, 0, 0;
    }

    /** Construction with the source's argument check. */
    static method Create(maxEntries: int, ttl: real)
      returns (r: Result<AsyncResponseCache<V>, ValueError>)
      ensures r.Ok? <==> maxEntries >= 1 && ttl > 0.0
      ensures r.Ok? ==> fresh(r.value) && r.value.Ok() && r.value.State() == EmptyCache()
                        && r.value.maxEntries == maxEntries && r.value.ttl == ttl
    {
      if maxEntries < 1 || ttl <= 0.0 {
        return Err(ValueError.ValueError);
      }
      var c := new AsyncResponseCache<V>(maxEntries, ttl);
      return Result.Ok(c);
    }

    method Get(key: string, now: real) returns (r: Option<V>)
      requires Ok()
      modifies this
      ensures Ok()
      ensures (State(), r) == Lookup(old(State()), key, now)
    {
      LookupKeepsValid(State(), maxEntries, key, now);
      var entry := Find(entries, key);
      if entry.None? {
        misses := misses + 1;
        return None;
      }
      if entry.value.expiresAt <= now {
        entries := Remove(entries, key);
        misses := misses + 1;
        return None;
      }
      entries := MoveToEnd(entries, key);
      hits := hits + 1;
      return Some(entry.value.value);
    }

    method Set(key: string, value: V, now: real, ttlSeconds: Option<real>)
      requires Ok()
      modifies this
      ensures Ok()
      ensures var given := if ttlSeconds.None? || ttlSeconds.value == 0.0 then ttl else ttlSeconds.value;
              State() == Store(old(State()), maxEntries, key, value, now + given)
    {
      var e := Entry(key, value, now + EffectiveTtl(ttlSeconds, ttl));
      StoreEvictsAtMostOne(State(), maxEntries, key, value, e.expiresAt);
      AssignThenMove(entries, e);
      entries := Assign(entries, e);
      entries := MoveToEnd(entries, key);
      stores := stores + 1;
      EvictOverflow();
    }

    /** The loop at the end of set: oldest entries go until the bound holds. */
    method EvictOverflow()
      modifies this`entries, this`evictions
      ensures entries == Newest(old(entries), maxEntries)
      ensures evictions == old(evictions) + (|old(entries)| - |entries|)
    {
      while |entries| > maxEntries
        invariant |entries| <= |old(entries)|
        invariant |entries| < |old(entries)| ==> |entries| >= maxEntries
        invariant entries == old(entries)[|old(entries)| - |entries|..]
        invariant evictions == old(evictions) + (|old(entries)| - |entries|)
      {
        entries := entries[1..];
        evictions := evictions + 1;
      }
    }

    method Clear()
      requires Ok()
      modifies this
      ensures Ok() && State() == Cleared(old(State()))
      ensures State() == Cache([], old(State()).stats)
    {
      entries := [];
    }

    method Stats() returns (s: CacheStats)
      ensures s == State().stats
    {
      s := CacheStats(hits, misses, stores, evictions);
    }
  }
}
