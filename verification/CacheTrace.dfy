/** Runs of the cache over a timed trace of operations. */
module CacheTrace {
  import opened Common
  import opened ResponseCache

  datatype Op<V> =
    | GetOp(key: string, now: real)
    | SetOp(key: string, value: V, now: real, ttl: Option<real>)
    | ClearOp

  /** The constructor arguments. */
  datatype Config = Config(maxEntries: nat, ttl: real)

  function Apply<V>(cfg: Config, c: Cache<V>, op: Op<V>): Cache<V> {
    match op
    case GetOp(key, now) => Lookup(c, key, now).0
    case SetOp(key, value, now, ttl) =>
      Store(c, cfg.maxEntries, key, value, now + EffectiveTtl(ttl, cfg.ttl))
    case ClearOp => Cleared(c)
  }

  function Run<V>(cfg: Config, ops: seq<Op<V>>): Cache<V> {
    if ops == [] then EmptyCache()
    else Apply(cfg, Run(cfg, ops[..|ops| - 1]), ops[|ops| - 1])
  }

  lemma ApplyKeepsValid<V>(cfg: Config, c: Cache<V>, op: Op<V>)
    requires cfg.maxEntries >= 1 && Valid(c, cfg.maxEntries)
    ensures Valid(Apply(cfg, c, op), cfg.maxEntries)
  {
    match op
    case GetOp(key, now) => LookupKeepsValid(c, cfg.maxEntries, key, now);
    case SetOp(key, value, now, ttl) =>
      StoreEvictsAtMostOne(c, cfg.maxEntries, key, value, now + EffectiveTtl(ttl, cfg.ttl));
    case ClearOp =>
  }

  /** Over every trace the keys stay distinct and the size bound holds. */
  lemma {:induction false} RunIsValid<V>(cfg: Config, ops: seq<Op<V>>)
    requires cfg.maxEntries >= 1
    ensures Valid(Run(cfg, ops), cfg.maxEntries)
  {
    if ops != [] {
      RunIsValid(cfg, ops[..|ops| - 1]);
      ApplyKeepsValid(cfg, Run(cfg, ops[..|ops| - 1]), ops[|ops| - 1]);
    }
  }

  // ----- how long a value that was set can be looked up -----

  lemma {:induction false} FindStored<V>(c: Cache<V>, capacity: nat, key: string, value: V, expiresAt: real)
    requires capacity >= 1 && Valid(c, capacity)
    ensures Find(Store(c, capacity, key, value, expiresAt).entries, key) == Some(Entry(key, value, expiresAt))
  {
    StoreEvictsAtMostOne(c, capacity, key, value, expiresAt);
    var kept := Store(c, capacity, key, value, expiresAt).entries;
    FindAt(kept, |kept| - 1);
  }

  /** What a lookup at t returns directly after a value was set at `now`: the value, if less
      time has passed than it was given, which is the configured time without an argument of
      its own or with zero. */
  lemma {:induction false} SetLastsForItsTtl<V>(cfg: Config, c: Cache<V>, key: string, value: V, now: real, ttl: Option<real>, t: real)
    requires cfg.maxEntries >= 1 && Valid(c, cfg.maxEntries)
    ensures var found := Lookup(Apply(cfg, c, SetOp(key, value, now, ttl)), key, t).1;
            && (found.None? || found == Some(value))
            && (ttl.None? ==> (found.Some? <==> t < now + cfg.ttl))
            && (ttl == Some(0.0) ==> (found.Some? <==> t < now + cfg.ttl))
            && (ttl.Some? && ttl.value != 0.0 ==> (found.Some? <==> t < now + ttl.value))
  {
    FindStored(c, cfg.maxEntries, key, value, now + EffectiveTtl(ttl, cfg.ttl));
  }
}
