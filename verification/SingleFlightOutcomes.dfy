/** Where the outcome of a call comes from, whether a value or an exception. */
module SingleFlightOutcomes {
  import opened Common
  import opened ResponseCache
  import opened SingleFlight
  import CacheTrace

  /** The factory of call `id` ended like this at some point of the run. */
  ghost predicate FactoryEnded<V>(events: seq<Event<V>>, id: nat, outcome: Outcome<V>) {
    match outcome
    case Value(value) => FactoryReturns(id, value) in events
    case Raised(error) => FactoryRaises(id, error) in events
  }

  /** An owner carries its own factory's outcome, and an uncached call that of its own. */
  ghost predicate Sourced<V>(events: seq<Event<V>>, s: Sys<V>, id: nat)
    requires id in s.calls
  {
    match s.calls[id].pc
    case Produced(value) => FactoryReturns(id, value) in events
    case Settled(outcome) => FactoryEnded(events, id, outcome)
    case Done(outcome, AsOwner) => FactoryEnded(events, id, outcome)
    case Done(outcome, Uncached) => BypassEnds(id, outcome) in events
    case Done(outcome, FromCache) => outcome.Value?
    case _ => true
  }

  lemma {:induction false} StaysSourced<V>(before: seq<Event<V>>, s: Sys<V>, e: Event<V>, s': Sys<V>, id: nat)
    requires id in s.calls && id in s'.calls && s'.calls[id] == s.calls[id] && Sourced(before, s, id)
    ensures Sourced(before + [e], s', id)
  {
  }

  lemma {:induction false} OwnStepIsSourced<V>(cfg: CacheTrace.Config, before: seq<Event<V>>, s: Sys<V>, e: Event<V>, id: nat)
    requires Enabled(s, e) && Acts(e, id) && id in Apply(cfg, s, e).calls
    requires id in s.calls ==> Sourced(before, s, id)
    ensures Sourced(before + [e], Apply(cfg, s, e), id)
  {
    assert (before + [e])[|before|] == e;
  }

  lemma {:induction false} CallsAreSourced<V>(cfg: CacheTrace.Config, events: seq<Event<V>>, id: nat)
    requires Run(cfg, events).Some? && id in Run(cfg, events).value.calls
    ensures Sourced(events, Run(cfg, events).value, id)
  {
    var before, e := events[..|events| - 1], events[|events| - 1];
    var s := Run(cfg, before).value;
    assert events == before + [e];
    if id in s.calls {
      CallsAreSourced(cfg, before, id);
    }
    if Acts(e, id) {
      OwnStepIsSourced(cfg, before, s, e, id);
    } else {
      OtherCallsStay(cfg, s, e, id);
      StaysSourced(before, s, e, Apply(cfg, s, e), id);
    }
  }

  /** A call that is over ends with what a factory did: an owner with the value or exception of
      its own factory, a joiner with that of its owner's, an uncached call with that of its own;
      a call answered by the cache never ends with an exception. */
  lemma {:induction false} OutcomesAreTheFactorys<V>(cfg: CacheTrace.Config, events: seq<Event<V>>, id: nat)
    requires Run(cfg, events).Some? && id in Run(cfg, events).value.calls
    requires Run(cfg, events).value.calls[id].pc.Done?
    ensures var Done(result, via) := Run(cfg, events).value.calls[id].pc;
            match via
            case AsOwner => FactoryEnded(events, id, result)
            case AsJoiner(owner) => FactoryEnded(events, owner, result)
            case Uncached => BypassEnds(id, result) in events
            case FromCache => result.Value?
  {
    CallsAreSourced(cfg, events, id);
    var via := Run(cfg, events).value.calls[id].pc.via;
    if via.AsJoiner? {
      JoinerGetsOwnersOutcome(cfg, events, id);
      CallsAreSourced(cfg, events, via.flight);
    }
  }

  /** A call that looks its key up is over with exactly what the cache answers, if it does, and
      otherwise goes on to the flight table. */
  lemma {:induction false} LookUpAnswersFromTheCache<V>(cfg: CacheTrace.Config, s: Sys<V>, id: nat, now: real)
    requires Enabled(s, LookUp(id, now))
    ensures var answer := Lookup(s.cache, s.calls[id].key, now).1;
            Apply(cfg, s, LookUp(id, now)).calls[id].pc
              == match answer
                 case Some(value) => Done(Value(value), FromCache)
                 case None => Missed
  {
  }

  /** Runs start with an empty cache and no calls; a new call can begin, and the cache can be used
      from outside, at any time. */
  lemma {:induction false} AnyoneMayCall<V>(cfg: CacheTrace.Config, events: seq<Event<V>>, e: Event<V>)
    requires Run(cfg, events).Some?
    requires e.OutsideGet? || e.OutsideSet? || e.OutsideClear?
             || (e.Begin? && e.id !in Run(cfg, events).value.calls)
    ensures Run<V>(cfg, []) == Some(Sys(Cache([], CacheStats(0, 0, 0, 0)), map[], map[], map[], []))
    ensures Run(cfg, events + [e]) == Some(Apply(cfg, Run(cfg, events).value, e))
  {
    assert (events + [e])[..|events|] == events;
  }

  // ----- calls that must not use the cache -----

  predicate Bypasses<V>(pc: Pc<V>) {
    pc.Bypassing? || (pc.Done? && pc.via.Uncached?)
  }

  /** A call keeps the key it began with, and goes round the cache exactly when it was told to. */
  lemma {:induction false} CallsKeepTheirKey<V>(cfg: CacheTrace.Config, events: seq<Event<V>>, id: nat) returns (cacheable: bool)
    requires Run(cfg, events).Some? && id in Run(cfg, events).value.calls
    ensures var call := Run(cfg, events).value.calls[id];
            Begin(id, call.key, cacheable) in events && (Bypasses(call.pc) <==> !cacheable)
  {
    var before, e := events[..|events| - 1], events[|events| - 1];
    var s := Run(cfg, before).value;
    assert events == before + [e];
    if id in s.calls {
      cacheable := CallsKeepTheirKey(cfg, before, id);
      if !Acts(e, id) {
        OtherCallsStay(cfg, s, e, id);
      }
    } else {
      if !Acts(e, id) {
        OtherCallsStay(cfg, s, e, id);
      }
      cacheable := e.cacheable;
    }
  }
}
