/** Per-key single flight: AsyncResponseCache.get_or_set as a step machine.

    Any number of calls interleave. Each event below is one region of the coroutine between
    two points at which it may be suspended (an await or a lock acquisition); a call's
    program counter says which region comes next. Factories, and the clock, are arbitrary. */
module SingleFlight {
  import opened Common
  import opened ResponseCache
  import CacheTrace

  datatype Outcome<V> = Value(value: V) | Raised(error: string)

  datatype Via = FromCache | AsOwner | AsJoiner(flight: nat) | Uncached

  datatype Pc<V> =
    | Looking                              // about to call get
    | Missed                               // about to look the key up in _inflight
    | Producing                            // owner, awaiting its factory
    | Produced(value: V)                   // owner, about to store the value
    | Settled(outcome: Outcome<V>)         // owner, future resolved, about to pop the key
    | Joined(flight: nat)                  // awaiting the future of call `flight`
    | Bypassing                            // cacheable=False, awaiting its own factory
    | Done(result: Outcome<V>, via: Via)

  datatype Call<V> = Call(key: string, pc: Pc<V>)

  /** A future is named after the call that created it. `sources` records every value a
      cacheable factory returned or an outside caller set, with its key. */
  datatype Sys<V> = Sys(
    cache: Cache<V>,
    inflight: map<string, nat>,
    futures: map<nat, Option<Outcome<V>>>,
    calls: map<nat, Call<V>>,
    sources: seq<(string, V)>)

  datatype Event<V> =
    | Begin(id: nat, key: string, cacheable: bool)
    | LookUp(id: nat, now: real)
    | Enter(id: nat)
    | FactoryReturns(id: nat, value: V)
    | FactoryRaises(id: nat, error: string)
    | StoreAndResolve(id: nat, now: real)
    | Release(id: nat)
    | Wake(id: nat)
    | BypassEnds(id: nat, outcome: Outcome<V>)
    | OutsideGet(key: string, now: real)
    | OutsideSet(key: string, value: V, expiresAt: real)
    | OutsideClear

  function Init<V>(): Sys<V> {
    Sys(EmptyCache(), map[], map[], map[], [])
  }

  function Own<V>(s: Sys<V>, id: nat, pc: Pc<V>): Sys<V>
    requires id in s.calls
  {
    s.(calls := s.calls[id := s.calls[id].(pc := pc)])
  }

  predicate Enabled<V>(s: Sys<V>, e: Event<V>) {
    match e
    case Begin(id, _, _) => id !in s.calls
    case LookUp(id, _) => id in s.calls && s.calls[id].pc.Looking?
    case Enter(id) => id in s.calls && s.calls[id].pc.Missed?
    case FactoryReturns(id, _) => id in s.calls && s.calls[id].pc.Producing?
    case FactoryRaises(id, _) => id in s.calls && s.calls[id].pc.Producing?
    case StoreAndResolve(id, _) => id in s.calls && s.calls[id].pc.Produced?
    case Release(id) => id in s.calls && s.calls[id].pc.Settled?
    case Wake(id) =>
      && id in s.calls && s.calls[id].pc.Joined?
      && s.calls[id].pc.flight in s.futures && s.futures[s.calls[id].pc.flight].Some?
    case BypassEnds(id, _) => id in s.calls && s.calls[id].pc.Bypassing?
    case _ => true
  }

  function Apply<V>(cfg: CacheTrace.Config, s: Sys<V>, e: Event<V>): Sys<V>
    requires Enabled(s, e)
  {
    match e
    case Begin(id, key, cacheable) =>
      s.(calls := s.calls[id := Call(key, if cacheable then Looking else Bypassing)])
    case LookUp(id, now) =>
      var (cache', r) := Lookup(s.cache, s.calls[id].key, now);
      Own(s.(cache := cache'), id, if r.Some? then Done(Value(r.value), FromCache) else Missed)
    case Enter(id) =>
      var key := s.calls[id].key;
      if key in s.inflight then Own(s, id, Joined(s.inflight[key]))
      else Own(s.(inflight := s.inflight[key := id], futures := s.futures[id := None]), id, Producing)
    case FactoryReturns(id, value) =>
      Own(s.(sources := s.sources + [(s.calls[id].key, value)]), id, Produced(value))
    case FactoryRaises(id, error) =>
      Own(s.(futures := s.futures[id := Some(Raised(error))]), id, Settled(Raised(error)))
    case StoreAndResolve(id, now) =>
      var value := s.calls[id].pc.value;
      Own(s.(cache := Store(s.cache, cfg.maxEntries, s.calls[id].key, value, now + cfg.ttl),
             futures := s.futures[id := Some(Value(value))]),
          id, Settled(Value(value)))
    case Release(id) =>
      Own(s.(inflight := s.inflight - {s.calls[id].key}), id, Done(s.calls[id].pc.outcome, AsOwner))
    case Wake(id) =>
      var f := s.calls[id].pc.flight;
      Own(s, id, Done(s.futures[f].value, AsJoiner(f)))
    case BypassEnds(id, outcome) => Own(s, id, Done(outcome, Uncached))
    case OutsideGet(key, now) => s.(cache := Lookup(s.cache, key, now).0)
    case OutsideSet(key, value, expiresAt) =>
      s.(cache := Store(s.cache, cfg.maxEntries, key, value, expiresAt),
         sources := s.sources + [(key, value)])
    case OutsideClear => s.(cache := Cleared(s.cache))
  }

  /** The state after performing `events` in order, if each is enabled in its turn. */
  function Run<V>(cfg: CacheTrace.Config, events: seq<Event<V>>): Option<Sys<V>> {
    if events == [] then Some(Init())
    else
      match Run(cfg, events[..|events| - 1])
      case None => None
      case Some(s) =>
        if Enabled(s, events[|events| - 1]) then Some(Apply(cfg, s, events[|events| - 1])) else None
  }

  // ----- the invariant -----

  predicate Owns<V>(c: Call<V>) {
    c.pc.Producing? || c.pc.Produced? || c.pc.Settled?
  }

  /** The call created a future at some point. */
  predicate HasOwned<V>(c: Call<V>) {
    Owns(c) || (c.pc.Done? && c.pc.via == AsOwner)
  }

  ghost predicate FlightsMatch<V>(s: Sys<V>) {
    && (forall key :: key in s.inflight ==>
          && s.inflight[key] in s.calls
          && s.calls[s.inflight[key]].key == key && Owns(s.calls[s.inflight[key]]))
    && (forall id :: id in s.calls && Owns(s.calls[id]) ==>
          s.calls[id].key in s.inflight && s.inflight[s.calls[id].key] == id)
  }

  /** The future of an owner is pending before it settles, and holds its outcome after. */
  ghost predicate FutureOf<V>(s: Sys<V>, id: nat)
    requires id in s.calls
  {
    var pc := s.calls[id].pc;
    && (id in s.futures <==> HasOwned(s.calls[id]))
    && (pc.Producing? || pc.Produced? ==> s.futures[id] == None)
    && (pc.Settled? ==> s.futures[id] == Some(pc.outcome))
    && (pc.Done? && pc.via == AsOwner ==> s.futures[id] == Some(pc.result))
  }

  ghost predicate JoinOf<V>(s: Sys<V>, id: nat)
    requires id in s.calls
  {
    var pc := s.calls[id].pc;
    && (pc.Joined? ==>
          && pc.flight in s.calls && s.calls[pc.flight].key == s.calls[id].key
          && HasOwned(s.calls[pc.flight]))
    && (pc.Done? && pc.via.AsJoiner? ==>
          && pc.via.flight in s.calls && s.calls[pc.via.flight].key == s.calls[id].key
          && HasOwned(s.calls[pc.via.flight])
          && pc.via.flight in s.futures && s.futures[pc.via.flight] == Some(pc.result))
  }

  ghost predicate Inv<V>(s: Sys<V>) {
    && FlightsMatch(s)
    && (forall id :: id in s.futures ==> id in s.calls)
    && (forall id :: id in s.calls ==> FutureOf(s, id))
    && (forall id :: id in s.calls ==> JoinOf(s, id))
  }

  /** The call whose region an event is. */
  predicate Acts<V>(e: Event<V>, id: nat) {
    match e
    case OutsideGet(_, _) => false
    case OutsideSet(_, _, _) => false
    case OutsideClear => false
    case _ => e.id == id
  }

  lemma {:induction false} OtherCallsStay<V>(cfg: CacheTrace.Config, s: Sys<V>, e: Event<V>, id: nat)
    requires Enabled(s, e) && !Acts(e, id)
    ensures var s' := Apply(cfg, s, e);
            && (id in s'.calls <==> id in s.calls) && (id in s.calls ==> s'.calls[id] == s.calls[id])
            && (id in s'.futures <==> id in s.futures) && (id in s.futures ==> s'.futures[id] == s.futures[id])
  {
  }

  lemma {:induction false} FlightKeyStepsOn<V>(cfg: CacheTrace.Config, s: Sys<V>, e: Event<V>, key: string)
    requires Inv(s) && Enabled(s, e) && key in Apply(cfg, s, e).inflight
    ensures var s' := Apply(cfg, s, e);
            var f := s'.inflight[key];
            f in s'.calls && s'.calls[f].key == key && Owns(s'.calls[f])
  {
    var f := Apply(cfg, s, e).inflight[key];
    if !Acts(e, f) {
      OtherCallsStay(cfg, s, e, f);
    }
  }

  lemma {:induction false} FlightOwnerStepsOn<V>(cfg: CacheTrace.Config, s: Sys<V>, e: Event<V>, id: nat)
    requires Inv(s) && Enabled(s, e)
    requires id in Apply(cfg, s, e).calls && Owns(Apply(cfg, s, e).calls[id])
    ensures var s' := Apply(cfg, s, e);
            s'.calls[id].key in s'.inflight && s'.inflight[s'.calls[id].key] == id
  {
    if !Acts(e, id) {
      OtherCallsStay(cfg, s, e, id);
    }
  }

  lemma {:induction false} StepKeepsFlights<V>(cfg: CacheTrace.Config, s: Sys<V>, e: Event<V>)
    requires Inv(s) && Enabled(s, e)
    ensures FlightsMatch(Apply(cfg, s, e))
  {
    var s' := Apply(cfg, s, e);
    forall key | key in s'.inflight
      ensures s'.inflight[key] in s'.calls
      ensures s'.calls[s'.inflight[key]].key == key && Owns(s'.calls[s'.inflight[key]])
    {
      FlightKeyStepsOn(cfg, s, e, key);
    }
    forall id | id in s'.calls && Owns(s'.calls[id])
      ensures s'.calls[id].key in s'.inflight && s'.inflight[s'.calls[id].key] == id
    {
      FlightOwnerStepsOn(cfg, s, e, id);
    }
  }

  lemma {:induction false} OwnFuture<V>(cfg: CacheTrace.Config, s: Sys<V>, e: Event<V>, id: nat)
    requires Enabled(s, e) && Acts(e, id)
    requires id in s.calls ==> FutureOf(s, id)
    requires id !in s.calls ==> id !in s.futures
    ensures id in Apply(cfg, s, e).calls && FutureOf(Apply(cfg, s, e), id)
  {
  }

  lemma {:induction false} FutureStepsOn<V>(cfg: CacheTrace.Config, s: Sys<V>, e: Event<V>, id: nat)
    requires Inv(s) && Enabled(s, e) && id in Apply(cfg, s, e).calls
    ensures FutureOf(Apply(cfg, s, e), id)
  {
    if Acts(e, id) {
      OwnFuture(cfg, s, e, id);
    } else {
      OtherCallsStay(cfg, s, e, id);
      assert FutureOf(s, id);
    }
  }

  lemma {:induction false} StepKeepsFutures<V>(cfg: CacheTrace.Config, s: Sys<V>, e: Event<V>)
    requires Inv(s) && Enabled(s, e)
    ensures forall id :: id in Apply(cfg, s, e).futures ==> id in Apply(cfg, s, e).calls
    ensures forall id :: id in Apply(cfg, s, e).calls ==> FutureOf(Apply(cfg, s, e), id)
  {
    forall id | id in Apply(cfg, s, e).calls
      ensures FutureOf(Apply(cfg, s, e), id)
    {
      FutureStepsOn(cfg, s, e, id);
    }
  }

  /** A call that created a future stays one that did, under the same key, and its resolved
      future does not change. */
  lemma {:induction false} FlightIsForever<V>(cfg: CacheTrace.Config, s: Sys<V>, e: Event<V>, f: nat)
    requires Inv(s) && Enabled(s, e) && f in s.calls && HasOwned(s.calls[f])
    ensures var s' := Apply(cfg, s, e);
            && f in s'.calls && s'.calls[f].key == s.calls[f].key && HasOwned(s'.calls[f])
            && f in s.futures && f in s'.futures
            && (s.futures[f].Some? ==> s'.futures[f] == s.futures[f])
  {
    assert FutureOf(s, f);
    if !Acts(e, f) {
      OtherCallsStay(cfg, s, e, f);
    }
  }

  lemma {:induction false} JoinStepsOn<V>(cfg: CacheTrace.Config, s: Sys<V>, e: Event<V>, id: nat)
    requires Inv(s) && Enabled(s, e) && id in Apply(cfg, s, e).calls
    ensures JoinOf(Apply(cfg, s, e), id)
  {
    var pc := Apply(cfg, s, e).calls[id].pc;
    assert id in s.calls ==> JoinOf(s, id);
    if !Acts(e, id) {
      OtherCallsStay(cfg, s, e, id);
    }
    if pc.Joined? && pc.flight in s.calls && HasOwned(s.calls[pc.flight]) {
      FlightIsForever(cfg, s, e, pc.flight);
    }
    if pc.Done? && pc.via.AsJoiner? && pc.via.flight in s.calls && HasOwned(s.calls[pc.via.flight]) {
      FlightIsForever(cfg, s, e, pc.via.flight);
    }
  }

  lemma {:induction false} StepKeepsJoins<V>(cfg: CacheTrace.Config, s: Sys<V>, e: Event<V>)
    requires Inv(s) && Enabled(s, e)
    ensures forall id :: id in Apply(cfg, s, e).calls ==> JoinOf(Apply(cfg, s, e), id)
  {
    forall id | id in Apply(cfg, s, e).calls
      ensures JoinOf(Apply(cfg, s, e), id)
    {
      JoinStepsOn(cfg, s, e, id);
    }
  }

  lemma {:induction false} ReachableInv<V>(cfg: CacheTrace.Config, events: seq<Event<V>>)
    requires Run(cfg, events).Some?
    ensures Inv(Run(cfg, events).value)
  {
    if events != [] {
      var e := events[|events| - 1];
      ReachableInv(cfg, events[..|events| - 1]);
      var before := Run(cfg, events[..|events| - 1]).value;
      StepKeepsFlights(cfg, before, e);
      StepKeepsFutures(cfg, before, e);
      StepKeepsJoins(cfg, before, e);
    }
  }

  // ----- what every interleaving guarantees -----

  /** Per key at most one call is between registering its flight and popping it, so two
      cacheable factory calls for one key never overlap; a key is in _inflight exactly while
      such a call exists. */
  lemma {:induction false} OneOwnerPerKey<V>(cfg: CacheTrace.Config, events: seq<Event<V>>, a: nat, b: nat)
    requires Run(cfg, events).Some?
    requires a in Run(cfg, events).value.calls && b in Run(cfg, events).value.calls
    ensures var s := Run(cfg, events).value;
            && (Owns(s.calls[a]) && Owns(s.calls[b]) && s.calls[a].key == s.calls[b].key ==> a == b)
            && (Owns(s.calls[a]) <==> s.calls[a].key in s.inflight && s.inflight[s.calls[a].key] == a)
  {
    ReachableInv(cfg, events);
  }

  lemma {:induction false} InflightKeysHaveOwners<V>(cfg: CacheTrace.Config, events: seq<Event<V>>, key: string)
    requires Run(cfg, events).Some?
    ensures var s := Run(cfg, events).value;
            key in s.inflight <==> exists id :: id in s.calls && s.calls[id].key == key && Owns(s.calls[id])
  {
    ReachableInv(cfg, events);
    var s := Run(cfg, events).value;
    if key in s.inflight {
      assert Owns(s.calls[s.inflight[key]]);
    }
  }

  /** A joiner finishes with the outcome, value or exception, of the owner it joined. */
  lemma {:induction false} JoinerGetsOwnersOutcome<V>(cfg: CacheTrace.Config, events: seq<Event<V>>, id: nat)
    requires Run(cfg, events).Some? && id in Run(cfg, events).value.calls
    requires var pc := Run(cfg, events).value.calls[id].pc; pc.Done? && pc.via.AsJoiner?
    ensures var s := Run(cfg, events).value;
            var pc := s.calls[id].pc;
            && pc.via.flight in s.calls && s.calls[pc.via.flight].key == s.calls[id].key
            && (s.calls[pc.via.flight].pc == Settled(pc.result)
                || s.calls[pc.via.flight].pc == Done(pc.result, AsOwner))
  {
    ReachableInv(cfg, events);
    var s := Run(cfg, events).value;
    assert JoinOf(s, id);
    assert FutureOf(s, s.calls[id].pc.via.flight);
  }

  /** No joiner is left behind: the call it waits for is still running, or has resolved. */
  lemma {:induction false} JoinerIsNeverStranded<V>(cfg: CacheTrace.Config, events: seq<Event<V>>, id: nat)
    requires Run(cfg, events).Some? && id in Run(cfg, events).value.calls
    requires Run(cfg, events).value.calls[id].pc.Joined?
    ensures var s := Run(cfg, events).value;
            var f := s.calls[id].pc.flight;
            && f in s.calls
            && (Enabled(s, Wake(id)) || s.calls[f].pc.Producing? || s.calls[f].pc.Produced?)
  {
    ReachableInv(cfg, events);
    var s := Run(cfg, events).value;
    assert JoinOf(s, id) && FutureOf(s, s.calls[id].pc.flight);
  }

  /** At quiescence nothing is left in _inflight and every future is resolved. */
  lemma {:induction false} QuiescentMeansNoFlights<V>(cfg: CacheTrace.Config, events: seq<Event<V>>)
    requires Run(cfg, events).Some?
    requires forall id :: id in Run(cfg, events).value.calls ==> Run(cfg, events).value.calls[id].pc.Done?
    ensures Run(cfg, events).value.inflight == map[]
    ensures forall id :: id in Run(cfg, events).value.futures ==> Run(cfg, events).value.futures[id].Some?
  {
    ReachableInv(cfg, events);
    var s := Run(cfg, events).value;
    assert forall key :: key !in s.inflight;
    forall id | id in s.futures
      ensures s.futures[id].Some?
    {
      assert FutureOf(s, id);
    }
  }

  // ----- progress -----

  /** Regions a call still has to run. */
  function Remaining<V>(pc: Pc<V>): nat {
    match pc
    case Looking => 5
    case Missed => 4
    case Producing => 3
    case Produced(_) => 2
    case Settled(_) => 1
    case Joined(_) => 1
    case Bypassing => 1
    case Done(_, _) => 0
  }

  /** Each region run by a call leaves it fewer regions to run and touches no other call. */
  lemma {:induction false} EveryRegionMakesProgress<V>(cfg: CacheTrace.Config, s: Sys<V>, e: Event<V>)
    requires Enabled(s, e)
    requires !e.OutsideGet? && !e.OutsideSet? && !e.OutsideClear? && !e.Begin?
    ensures e.id in s.calls
    ensures var s' := Apply(cfg, s, e);
            && s'.calls.Keys == s.calls.Keys
            && Remaining(s'.calls[e.id].pc) < Remaining(s.calls[e.id].pc)
            && forall id :: id in s.calls && id != e.id ==> s'.calls[id] == s.calls[id]
  {
  }

  /** There is no deadlock: while some call is unfinished, a call's own region can run (a
      factory that returns counts as one). */
  lemma {:induction false} NoDeadlock<V>(cfg: CacheTrace.Config, events: seq<Event<V>>, id: nat, value: V)
    returns (e: Event<V>)
    requires Run(cfg, events).Some? && id in Run(cfg, events).value.calls
    requires !Run(cfg, events).value.calls[id].pc.Done?
    ensures Enabled(Run(cfg, events).value, e)
    ensures !e.OutsideGet? && !e.OutsideSet? && !e.OutsideClear? && !e.Begin?
  {
    var s := Run(cfg, events).value;
    match s.calls[id].pc
    case Looking => e := LookUp(id, 0.0);
    case Missed => e := Enter(id);
    case Producing => e := FactoryReturns(id, value);
    case Produced(_) => e := StoreAndResolve(id, 0.0);
    case Settled(_) => e := Release(id);
    case Bypassing => e := BypassEnds(id, Value(value));
    case Joined(f) =>
      JoinerIsNeverStranded(cfg, events, id);
      e := if Enabled(s, Wake(id)) then Wake(id)
           else if s.calls[f].pc.Producing? then FactoryReturns(f, value)
           else StoreAndResolve(f, 0.0);
  }

  /** The regions a call has run itself. */
  function Regions<V>(events: seq<Event<V>>, id: nat): nat {
    if events == [] then 0
    else
      var e := events[|events| - 1];
      Regions(events[..|events| - 1], id) + if Acts(e, id) && !e.Begin? then 1 else 0
  }

  /** Termination: a call runs at most five regions, whatever the others do; what it has run
      and what it still has to run never add up to more. */
  lemma {:induction false} AtMostFiveRegions<V>(cfg: CacheTrace.Config, events: seq<Event<V>>, id: nat)
    requires Run(cfg, events).Some?
    ensures var s := Run(cfg, events).value;
            if id in s.calls then Regions(events, id) + Remaining(s.calls[id].pc) <= 5 else Regions(events, id) == 0
  {
    if events != [] {
      var before, e := events[..|events| - 1], events[|events| - 1];
      AtMostFiveRegions(cfg, before, id);
      if Acts(e, id) && !e.Begin? {
        EveryRegionMakesProgress(cfg, Run(cfg, before).value, e);
      } else if !Acts(e, id) {
        OtherCallsStay(cfg, Run(cfg, before).value, e, id);
      }
    }
  }

  /** The event makes the call an owner, and so starts its factory. */
  predicate StartsFactory<V>(s: Sys<V>, e: Event<V>, id: nat) {
    e.Enter? && e.id == id && id in s.calls && s.calls[id].key !in s.inflight
  }

  /** How often a call has started its cacheable factory. */
  function FactoryCalls<V>(cfg: CacheTrace.Config, events: seq<Event<V>>, id: nat): nat {
    if events == [] then 0
    else
      var before, e := events[..|events| - 1], events[|events| - 1];
      FactoryCalls(cfg, before, id) +
      match Run(cfg, before)
      case None => 0
      case Some(s) => if StartsFactory(s, e, id) then 1 else 0
  }

  predicate IsOwner<V>(s: Sys<V>, id: nat) {
    id in s.calls && HasOwned(s.calls[id])
  }

  lemma {:induction false} OwnersGrow<V>(cfg: CacheTrace.Config, s: Sys<V>, e: Event<V>, id: nat)
    requires Inv(s) && Enabled(s, e)
    ensures IsOwner(Apply(cfg, s, e), id) <==> IsOwner(s, id) || StartsFactory(s, e, id)
    ensures !(IsOwner(s, id) && StartsFactory(s, e, id))
  {
    if !Acts(e, id) {
      OtherCallsStay(cfg, s, e, id);
    }
  }

  /** An owner calls its factory exactly once; a hit and a joiner never call theirs. */
  lemma {:induction false} FactoryCallsAreOwners<V>(cfg: CacheTrace.Config, events: seq<Event<V>>, id: nat)
    requires Run(cfg, events).Some?
    ensures FactoryCalls(cfg, events, id) == if IsOwner(Run(cfg, events).value, id) then 1 else 0
  {
    if events != [] {
      var before, e := events[..|events| - 1], events[|events| - 1];
      FactoryCallsAreOwners(cfg, before, id);
      ReachableInv(cfg, before);
      OwnersGrow(cfg, Run(cfg, before).value, e, id);
    }
  }

  // ----- where values come from -----

  ghost predicate KnownOutcome<V>(s: Sys<V>, key: string, o: Outcome<V>) {
    o.Value? ==> (key, o.value) in s.sources
  }

  ghost predicate KnownCall<V>(s: Sys<V>, id: nat)
    requires id in s.calls
  {
    var c := s.calls[id];
    && (c.pc.Produced? ==> (c.key, c.pc.value) in s.sources)
    && (c.pc.Settled? ==> KnownOutcome(s, c.key, c.pc.outcome))
    && (c.pc.Done? && c.pc.via != Uncached ==> KnownOutcome(s, c.key, c.pc.result))
  }

  ghost predicate KnownCache<V>(es: seq<Entry<V>>, sources: seq<(string, V)>) {
    forall i :: 0 <= i < |es| ==> (es[i].key, es[i].value) in sources
  }

  ghost predicate Known<V>(s: Sys<V>) {
    && KnownCache(s.cache.entries, s.sources)
    && (forall id :: id in s.calls ==> KnownCall(s, id))
  }

  lemma {:induction false} KnownWithout<V>(es: seq<Entry<V>>, key: string, sources: seq<(string, V)>)
    requires KnownCache(es, sources)
    ensures KnownCache(Remove(es, key), sources)
  {
    if es != [] {
      KnownWithout(es[1..], key, sources);
    }
  }

  lemma {:induction false} LookupKeepsKnown<V>(c: Cache<V>, key: string, now: real, sources: seq<(string, V)>)
    requires KnownCache(c.entries, sources)
    ensures KnownCache(Lookup(c, key, now).0.entries, sources)
    ensures Lookup(c, key, now).1.Some? ==> (key, Lookup(c, key, now).1.value) in sources
  {
    KnownWithout(c.entries, key, sources);
    if HasKey(c.entries, key) {
      var _ := FindPosition(c.entries, key);
    }
  }

  lemma {:induction false} StoreKeepsKnown<V>(c: Cache<V>, n: nat, key: string, value: V, expiresAt: real,
                                                  sources: seq<(string, V)>)
    requires KnownCache(c.entries, sources) && (key, value) in sources
    ensures KnownCache(Store(c, n, key, value, expiresAt).entries, sources)
  {
    KnownWithout(c.entries, key, sources);
  }

  lemma {:induction false} StepKeepsKnownCache<V>(cfg: CacheTrace.Config, s: Sys<V>, e: Event<V>)
    requires Known(s) && Enabled(s, e)
    ensures KnownCache(Apply(cfg, s, e).cache.entries, Apply(cfg, s, e).sources)
  {
    match e
    case LookUp(id, now) => LookupKeepsKnown(s.cache, s.calls[id].key, now, s.sources);
    case StoreAndResolve(id, now) =>
      assert KnownCall(s, id);
      StoreKeepsKnown(s.cache, cfg.maxEntries, s.calls[id].key, s.calls[id].pc.value, now + cfg.ttl, s.sources);
    case OutsideGet(key, now) => LookupKeepsKnown(s.cache, key, now, s.sources);
    case OutsideSet(key, value, expiresAt) =>
      StoreKeepsKnown(s.cache, cfg.maxEntries, key, value, expiresAt, s.sources + [(key, value)]);
    case _ =>
  }

  lemma {:induction false} StepKeepsKnownCalls<V>(cfg: CacheTrace.Config, s: Sys<V>, e: Event<V>)
    requires Inv(s) && Known(s) && Enabled(s, e)
    ensures forall id :: id in Apply(cfg, s, e).calls ==> KnownCall(Apply(cfg, s, e), id)
  {
    var s' := Apply(cfg, s, e);
    assert forall x :: x in s.sources ==> x in s'.sources;
    if e.LookUp? {
      LookupKeepsKnown(s.cache, s.calls[e.id].key, e.now, s.sources);
    }
    if e.Wake? {
      assert JoinOf(s, e.id) && FutureOf(s, s.calls[e.id].pc.flight);
      assert KnownCall(s, s.calls[e.id].pc.flight);
    }
    forall id | id in s'.calls
      ensures KnownCall(s', id)
    {
      if id in s.calls {
        assert KnownCall(s, id);
      }
    }
  }

  lemma {:induction false} ReachableKnown<V>(cfg: CacheTrace.Config, events: seq<Event<V>>)
    requires Run(cfg, events).Some?
    ensures Known(Run(cfg, events).value)
  {
    if events != [] {
      ReachableKnown(cfg, events[..|events| - 1]);
      ReachableInv(cfg, events[..|events| - 1]);
      var before := Run(cfg, events[..|events| - 1]).value;
      StepKeepsKnownCache(cfg, before, events[|events| - 1]);
      StepKeepsKnownCalls(cfg, before, events[|events| - 1]);
    }
  }

  /** Whatever value a cacheable call returns, through the cache, as owner or as joiner, was
      returned by a factory for the same key or set by an outside caller under that key. */
  lemma {:induction false} ReturnedValuesHaveASource<V>(cfg: CacheTrace.Config, events: seq<Event<V>>, id: nat)
    requires Run(cfg, events).Some? && id in Run(cfg, events).value.calls
    requires var pc := Run(cfg, events).value.calls[id].pc;
             pc.Done? && pc.via != Uncached && pc.result.Value?
    ensures var s := Run(cfg, events).value;
            (s.calls[id].key, s.calls[id].pc.result.value) in s.sources
  {
    ReachableKnown(cfg, events);
    assert KnownCall(Run(cfg, events).value, id);
  }
}
