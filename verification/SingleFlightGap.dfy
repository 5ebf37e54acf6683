/** get_or_set between the lookup and the flight table.

    The lock of the cache is never held across an await, so it is always free when it is
    asked for, and asking for a free lock does not suspend. In the code the look into the
    flight table therefore follows the lookup of its call directly. The machine of module
    SingleFlight lets other calls in between, as a lock that may suspend would; the second
    half says what that would cost. */
module SingleFlightGap {
  import opened Common
  import opened ResponseCache
  import CacheTrace
  import CacheHistory
  import opened SingleFlight

  predicate Held<V>(s: Sys<V>, key: string) {
    HasKey(s.cache.entries, key)
  }

  ghost predicate IsMissed<V>(s: Sys<V>, id: nat) {
    id in s.calls && s.calls[id].pc.Missed?
  }

  lemma {:induction false} PrefixRuns<V>(cfg: CacheTrace.Config, events: seq<Event<V>>, n: nat)
    requires n <= |events| && Run(cfg, events).Some?
    ensures Run(cfg, events[..n]).Some?
    ensures n < |events| ==> Enabled(Run(cfg, events[..n]).value, events[n])
    ensures n < |events| ==>
              Run(cfg, events[..n + 1]) == Some(Apply(cfg, Run(cfg, events[..n]).value, events[n]))
    decreases |events|
  {
    if n == |events| {
      assert events[..n] == events;
    } else if n == |events| - 1 {
      assert events[..n + 1] == events;
    } else {
      var before := events[..|events| - 1];
      PrefixRuns(cfg, before, n);
      assert before[..n] == events[..n] && before[..n + 1] == events[..n + 1];
    }
  }

  // ----- the runs of the code -----

  /** Every look into the flight table directly follows the lookup of the same call. */
  ghost predicate Unbroken<V>(events: seq<Event<V>>) {
    forall i :: 0 <= i < |events| && events[i].Enter? ==>
      i > 0 && events[i - 1].LookUp? && events[i - 1].id == events[i].id
  }

  lemma {:induction false} RemovedIsAbsent<V>(es: seq<Entry<V>>, key: string)
    ensures !HasKey(Remove(es, key), key)
  {
    if es != [] {
      RemovedIsAbsent(es[1..], key);
    }
  }

  /** A lookup that misses leaves the key out of the cache. */
  lemma {:induction false} MissLeavesAbsent<V>(cfg: CacheTrace.Config, s: Sys<V>, id: nat, now: real)
    requires Enabled(s, LookUp(id, now))
    requires IsMissed(Apply(cfg, s, LookUp(id, now)), id)
    ensures !Held(Apply(cfg, s, LookUp(id, now)), s.calls[id].key)
  {
    RemovedIsAbsent(s.cache.entries, s.calls[id].key);
  }

  /** No call looks into the flight table, and so none starts its factory, while its key is
      cached. */
  lemma {:induction false} FactoriesStartUncached<V>(cfg: CacheTrace.Config, events: seq<Event<V>>, i: nat)
    requires Run(cfg, events).Some? && Unbroken(events)
    requires i < |events| && events[i].Enter?
    ensures var before := Run(cfg, events[..i]);
            before.Some? && events[i].id in before.value.calls
            && !Held(before.value, before.value.calls[events[i].id].key)
  {
    PrefixRuns(cfg, events, i);
    PrefixRuns(cfg, events, i - 1);
    MissLeavesAbsent(cfg, Run(cfg, events[..i - 1]).value, events[i].id, events[i - 1].now);
  }

  // ----- how long a stored value is held -----

  /** What a step does to the cache. */
  datatype Effect<V> = Nothing | Looks(key: string, now: real) | Stores(key: string, value: V, expiresAt: real) | Clears

  function EffectOf<V>(cfg: CacheTrace.Config, s: Sys<V>, e: Event<V>): Effect<V>
    requires Enabled(s, e)
  {
    match e
    case LookUp(id, now) => Looks(s.calls[id].key, now)
    case OutsideGet(key, now) => Looks(key, now)
    case StoreAndResolve(id, now) => Stores(s.calls[id].key, s.calls[id].pc.value, now + cfg.ttl)
    case OutsideSet(key, value, expiresAt) => Stores(key, value, expiresAt)
    case OutsideClear => Clears
    case _ => Nothing
  }

  function Effected<V>(c: Cache<V>, capacity: nat, f: Effect<V>): Cache<V> {
    match f
    case Nothing => c
    case Looks(key, now) => Lookup(c, key, now).0
    case Stores(key, value, expiresAt) => Store(c, capacity, key, value, expiresAt)
    case Clears => Cleared(c)
  }

  lemma {:induction false} StepEffect<V>(cfg: CacheTrace.Config, s: Sys<V>, e: Event<V>)
    requires Enabled(s, e)
    ensures Apply(cfg, s, e).cache == Effected(s.cache, cfg.maxEntries, EffectOf(cfg, s, e))
  {
  }

  predicate StoresUnder<V>(f: Effect<V>, key: string) {
    f.Stores? && f.key == key
  }

  predicate Expired<V>(c: Cache<V>, key: string, now: real) {
    HasKey(c.entries, key) && Find(c.entries, key).value.expiresAt <= now
  }

  /** Storing under another, new key into a full cache whose oldest entry is this one. */
  predicate Evicts<V>(c: Cache<V>, capacity: nat, other: string, key: string) {
    other != key && !HasKey(c.entries, other) && |c.entries| == capacity && capacity > 0 && c.entries[0].key == key
  }

  /** The key leaves the cache: it is found expired, evicted, or cleared. */
  predicate Drops<V>(c: Cache<V>, capacity: nat, f: Effect<V>, key: string) {
    match f
    case Nothing => false
    case Looks(k, now) => k == key && Expired(c, key, now)
    case Stores(k, _, _) => Evicts(c, capacity, k, key)
    case Clears => true
  }

  lemma {:induction false} HeldAfterLookup<V>(c: Cache<V>, k: string, now: real, key: string)
    ensures HasKey(Lookup(c, k, now).0.entries, key) <==> HasKey(c.entries, key) && !(k == key && Expired(c, key, now))
  {
    RemovedIsAbsent(c.entries, k);
    if k != key {
      CacheHistory.RemoveOther(c.entries, k, key);
    }
    if HasKey(c.entries, k) {
      CacheHistory.FindInAppend(Remove(c.entries, k), Find(c.entries, k).value, key);
    }
  }

  lemma {:induction false} GoneWithTheOldest<V>(es: seq<Entry<V>>, e: Entry<V>)
    requires es != [] && DistinctKeys(es) && e.key != es[0].key
    ensures !HasKey(es[1..] + [e], es[0].key)
  {
    var kept := es[1..] + [e];
    assert forall i :: 0 <= i < |kept| ==> kept[i].key != es[0].key;
  }

  lemma {:induction false} HeldAfterStore<V>(c: Cache<V>, n: nat, k: string, value: V, expiresAt: real, key: string)
    requires n >= 1 && Valid(c, n)
    ensures HasKey(Store(c, n, k, value, expiresAt).entries, key)
            <==> k == key || (HasKey(c.entries, key) && !Evicts(c, n, k, key))
  {
    var e := Entry(k, value, expiresAt);
    StoreEvictsAtMostOne(c, n, k, value, expiresAt);
    if k == key {
      CacheHistory.StoredKeyIsHeld(c, n, k, value, expiresAt);
    } else if HasKey(c.entries, k) || |c.entries| < n {
      CacheHistory.FindInAppend(Remove(c.entries, k), e, key);
      CacheHistory.RemoveOther(c.entries, k, key);
    } else {
      CacheHistory.FindInAppend(c.entries[1..], e, key);
      GoneWithTheOldest(c.entries, e);
    }
  }

  lemma {:induction false} EffectKeepsValid<V>(c: Cache<V>, n: nat, f: Effect<V>)
    requires n >= 1 && Valid(c, n)
    ensures Valid(Effected(c, n, f), n)
  {
    match f
    case Nothing =>
    case Looks(key, now) => LookupKeepsValid(c, n, key, now);
    case Stores(key, value, expiresAt) => StoreEvictsAtMostOne(c, n, key, value, expiresAt);
    case Clears =>
  }

  lemma {:induction false} CacheStaysValid<V>(cfg: CacheTrace.Config, events: seq<Event<V>>)
    requires cfg.maxEntries >= 1 && Run(cfg, events).Some?
    ensures Valid(Run(cfg, events).value.cache, cfg.maxEntries)
  {
    if events != [] {
      var before, e := events[..|events| - 1], events[|events| - 1];
      var s := Run(cfg, before).value;
      CacheStaysValid(cfg, before);
      StepEffect(cfg, s, e);
      EffectKeepsValid(s.cache, cfg.maxEntries, EffectOf(cfg, s, e));
    }
  }

  /** The cache holds the key afterwards exactly when a value was stored under it, or it was
      there and was not dropped. */
  lemma {:induction false} HeldAfterEffect<V>(c: Cache<V>, n: nat, f: Effect<V>, key: string)
    requires n >= 1 && Valid(c, n)
    ensures HasKey(Effected(c, n, f).entries, key)
            <==> StoresUnder(f, key) || (HasKey(c.entries, key) && !Drops(c, n, f, key))
  {
    match f
    case Nothing =>
    case Looks(k, now) => HeldAfterLookup(c, k, now, key);
    case Stores(k, value, expiresAt) => HeldAfterStore(c, n, k, value, expiresAt, key);
    case Clears =>
  }

  /** Event m takes the key out of the cache. */
  ghost predicate DropsAt<V>(cfg: CacheTrace.Config, events: seq<Event<V>>, m: nat, key: string)
    requires m < |events|
  {
    Run(cfg, events[..m]).Some? && Enabled(Run(cfg, events[..m]).value, events[m])
    && var s := Run(cfg, events[..m]).value;
       Drops(s.cache, cfg.maxEntries, EffectOf(cfg, s, events[m]), key)
  }

  /** Event k stores a value under the key. */
  ghost predicate StoresAt<V>(cfg: CacheTrace.Config, events: seq<Event<V>>, k: nat, key: string)
    requires k < |events|
  {
    Run(cfg, events[..k]).Some? && Enabled(Run(cfg, events[..k]).value, events[k])
    && StoresUnder(EffectOf(cfg, Run(cfg, events[..k]).value, events[k]), key)
  }

  lemma {:induction false} HeldAfterLast<V>(cfg: CacheTrace.Config, events: seq<Event<V>>, key: string)
    requires cfg.maxEntries >= 1 && Run(cfg, events).Some? && events != []
    ensures var n := |events| - 1;
            && Run(cfg, events[..n]).Some?
            && (Held(Run(cfg, events).value, key) <==>
                StoresAt(cfg, events, n, key) || (Held(Run(cfg, events[..n]).value, key) && !DropsAt(cfg, events, n, key)))
  {
    var before, e := events[..|events| - 1], events[|events| - 1];
    var s := Run(cfg, before).value;
    CacheStaysValid(cfg, before);
    StepEffect(cfg, s, e);
    HeldAfterEffect(s.cache, cfg.maxEntries, EffectOf(cfg, s, e), key);
  }

  /** Event k stores under the key and no later event drops it. */
  ghost predicate KeptSince<V>(cfg: CacheTrace.Config, events: seq<Event<V>>, k: nat, key: string) {
    && k < |events|
    && StoresAt(cfg, events, k, key)
    && forall m :: k < m < |events| ==> !DropsAt(cfg, events, m, key)
  }

  lemma {:induction false} KeptOneLonger<V>(cfg: CacheTrace.Config, events: seq<Event<V>>, k: nat, key: string)
    requires k < |events| - 1
    ensures var n := |events| - 1;
            KeptSince(cfg, events, k, key) <==> KeptSince(cfg, events[..n], k, key) && !DropsAt(cfg, events, n, key)
  {
    var before := events[..|events| - 1];
    assert before[..k] == events[..k];
    forall m | k < m < |before|
      ensures DropsAt(cfg, before, m, key) <==> DropsAt(cfg, events, m, key)
    {
      assert before[..m] == events[..m];
    }
  }

  lemma {:induction false} KeptIsHeld<V>(cfg: CacheTrace.Config, events: seq<Event<V>>, k: nat, key: string)
    requires cfg.maxEntries >= 1 && Run(cfg, events).Some? && KeptSince(cfg, events, k, key)
    ensures Held(Run(cfg, events).value, key)
  {
    HeldAfterLast(cfg, events, key);
    if k < |events| - 1 {
      KeptOneLonger(cfg, events, k, key);
      KeptIsHeld(cfg, events[..|events| - 1], k, key);
    }
  }

  /** What is cached now and was not before was stored in between and not dropped since. */
  lemma {:induction false} HeldIsKept<V>(cfg: CacheTrace.Config, events: seq<Event<V>>, j: nat, key: string) returns (k: nat)
    requires cfg.maxEntries >= 1 && Run(cfg, events).Some? && j <= |events|
    requires Run(cfg, events[..j]).Some? && !Held(Run(cfg, events[..j]).value, key)
    requires Held(Run(cfg, events).value, key)
    ensures j <= k && KeptSince(cfg, events, k, key)
  {
    assert events[..|events|] == events;
    var n := |events| - 1;
    HeldAfterLast(cfg, events, key);
    k := n;
    if !StoresAt(cfg, events, n, key) {
      assert events[..n][..j] == events[..j];
      k := HeldIsKept(cfg, events[..n], j, key);
      KeptOneLonger(cfg, events, k, key);
    }
  }

  /** Single flight across time, in the runs of the code: after a value was stored under a
      key, no call starts a factory for the key until that value has expired, been evicted or
      been cleared. */
  lemma {:induction false} FactoryRunsAgainOnlyAfterALoss<V>(
    cfg: CacheTrace.Config, events: seq<Event<V>>, k: nat, i: nat, key: string)
    requires cfg.maxEntries >= 1 && Run(cfg, events).Some? && Unbroken(events)
    requires k < i < |events| && events[i].Enter?
    requires StoresAt(cfg, events, k, key)
    requires Run(cfg, events[..i]).Some? && events[i].id in Run(cfg, events[..i]).value.calls
    requires Run(cfg, events[..i]).value.calls[events[i].id].key == key
    ensures exists m :: k < m < i && DropsAt(cfg, events, m, key)
  {
    FactoriesStartUncached(cfg, events, i);
    var before := events[..i];
    assert before[..k] == events[..k];
    if KeptSince(cfg, before, k, key) {
      KeptIsHeld(cfg, before, k, key);
    } else {
      var m :| k < m < i && DropsAt(cfg, before, m, key);
      assert before[..m] == events[..m];
      assert DropsAt(cfg, events, m, key);
    }
  }

  // ----- what a lock that may suspend would allow -----

  /** Over all runs of the machine: after a lookup that missed, the key is cached, and the call
      if it now looks into the table can start a factory over it, exactly when a value stored
      in between has not been dropped. */
  lemma {:induction false} StaleMissIffStoredSince<V>(cfg: CacheTrace.Config, events: seq<Event<V>>, id: nat, j: nat)
    requires cfg.maxEntries >= 1 && Run(cfg, events).Some?
    requires j < |events| && events[j].LookUp? && events[j].id == id
    requires Run(cfg, events[..j]).Some? && Enabled(Run(cfg, events[..j]).value, events[j])
    requires IsMissed(Apply(cfg, Run(cfg, events[..j]).value, events[j]), id)
    ensures var key := Run(cfg, events[..j]).value.calls[id].key;
            Held(Run(cfg, events).value, key) <==> exists k :: j < k && KeptSince(cfg, events, k, key)
  {
    var s := Run(cfg, events[..j]).value;
    PrefixRuns(cfg, events, j);
    MissLeavesAbsent(cfg, s, id, events[j].now);
    var key := s.calls[id].key;
    if Held(Run(cfg, events).value, key) {
      var k := HeldIsKept(cfg, events, j + 1, key);
    }
    forall k | j < k && KeptSince(cfg, events, k, key)
      ensures Held(Run(cfg, events).value, key)
    {
      KeptIsHeld(cfg, events, k, key);
    }
  }

  lemma {:induction false} RunOneMore<V>(cfg: CacheTrace.Config, events: seq<Event<V>>, e: Event<V>)
    requires Run(cfg, events).Some? && Enabled(Run(cfg, events).value, e)
    ensures Run(cfg, events + [e]) == Some(Apply(cfg, Run(cfg, events).value, e))
  {
    assert (events + [e])[..|events + [e]| - 1] == events;
  }

  lemma {:induction false} TwoCallsMiss(cfg: CacheTrace.Config, key: string) returns (events: seq<Event<int>>, s: Sys<int>)
    ensures Run(cfg, events) == Some(s)
    ensures s.inflight == map[] && s.futures == map[] && s.cache.entries == []
    ensures s.calls == map[0 := Call(key, Missed), 1 := Call(key, Missed)]
  {
    events := [];
    RunOneMore(cfg, events, Begin(0, key, true));
    events := events + [Begin(0, key, true)];
    RunOneMore(cfg, events, Begin(1, key, true));
    events := events + [Begin(1, key, true)];
    RunOneMore(cfg, events, LookUp(0, 0.0));
    events := events + [LookUp(0, 0.0)];
    RunOneMore(cfg, events, LookUp(1, 0.0));
    events := events + [LookUp(1, 0.0)];
    s := Run(cfg, events).value;
  }

  lemma {:induction false} OwnerRunsToTheEnd(cfg: CacheTrace.Config, key: string, start: seq<Event<int>>)
    returns (events: seq<Event<int>>, s: Sys<int>)
    requires cfg.maxEntries >= 1 && Run(cfg, start).Some?
    requires var s0 := Run(cfg, start).value;
             && s0.inflight == map[] && s0.cache.entries == []
             && s0.calls == map[0 := Call(key, Missed), 1 := Call(key, Missed)]
    ensures Run(cfg, events) == Some(s)
    ensures s.inflight == map[] && s.cache.entries == [Entry(key, 7, cfg.ttl)]
    ensures s.calls == map[0 := Call(key, Done(Value(7), AsOwner)), 1 := Call(key, Missed)]
  {
    events := start;
    RunOneMore(cfg, events, Enter(0));
    events := events + [Enter(0)];
    RunOneMore(cfg, events, FactoryReturns(0, 7));
    events := events + [FactoryReturns(0, 7)];
    RunOneMore(cfg, events, StoreAndResolve(0, 0.0));
    events := events + [StoreAndResolve(0, 0.0)];
    RunOneMore(cfg, events, Release(0));
    events := events + [Release(0)];
    s := Run(cfg, events).value;
  }

  /** Such a run of the suspending locks: two calls miss, the first runs to the end, and the
      second then starts a factory of its own while the first one's value sits in the cache. */
  lemma {:induction false} StaleMissRunsFactoryAgain(cfg: CacheTrace.Config, key: string) returns (events: seq<Event<int>>)
    requires cfg.maxEntries >= 1
    ensures Run(cfg, events).Some?
    ensures var s := Run(cfg, events).value;
            && s.calls == map[0 := Call(key, Done(Value(7), AsOwner)), 1 := Call(key, Producing)]
            && HasKey(s.cache.entries, key)
  {
    var start, _ := TwoCallsMiss(cfg, key);
    var done, s := OwnerRunsToTheEnd(cfg, key, start);
    RunOneMore(cfg, done, Enter(1));
    events := done + [Enter(1)];
  }
}
