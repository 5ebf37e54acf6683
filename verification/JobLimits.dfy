/** When the attempts bounds of the job protocol are reached, and when the bound without the
    stale term holds although claims are split. */
module JobLimits {
  import opened Common
  import opened JobStore
  import opened JobProtocol

  // ----- without retries nothing is stale that matters -----

  /** A worker never holds a ticket for attempt zero; and if that already uses up the attempts,
      no claim ever ends in a retry. */
  ghost predicate NoRetries(maxAttempts: int, s: Sys) {
    && (forall w :: w in s.hands && s.hands[w].Holding? ==> s.hands[w].job.attempts >= 1)
    && (maxAttempts <= 1 ==> forall i :: 0 <= i < |s.history| ==> s.history[i].retried == {})
  }

  lemma {:induction false} StepKeepsNoRetries(maxAttempts: int, s: Sys, e: Event)
    requires |s.history| == |s.rows| && Enabled(s, e) && NoRetries(maxAttempts, s)
    ensures NoRetries(maxAttempts, Apply(maxAttempts, s, e))
  {
  }

  lemma {:induction false} ReachableNoRetries(maxAttempts: int, events: seq<Event>)
    requires Run(maxAttempts, events).Some?
    ensures NoRetries(maxAttempts, Run(maxAttempts, events).value)
  {
    if events != [] {
      ReachableNoRetries(maxAttempts, events[..|events| - 1]);
      StepKeepsNoRetries(maxAttempts, Run(maxAttempts, events[..|events| - 1]).value, events[|events| - 1]);
    }
  }

  // ----- runs that use every way of being queued -----

  /** A run has left one queued row with `attempts`, `recoveries` and as many stale claims as
      given; the workers from `first` to below `beyond` have read the row while it was fresh and
      not yet taken it, and nobody else is at work. */
  ghost predicate Stands(maxAttempts: int, events: seq<Event>, first: nat, beyond: nat,
                         attempts: nat, recoveries: nat, stale: nat) {
    && Run(maxAttempts, events).Some?
    && var s := Run(maxAttempts, events).value;
       && |s.rows| == 1 && s.rows[0].id == 0 && s.rows[0].status.Queued? && s.rows[0].attempts == attempts
       && s.history[0].recoveries == recoveries
       && |s.history[0].stale| == stale && (forall n :: n in s.history[0].stale ==> n <= attempts)
       && (forall w :: w in s.hands <==> first <= w < beyond)
       && (forall w :: w in s.hands ==> s.hands[w].Reading? && s.hands[w].read.id == 0 && s.hands[w].read.attempts == 0)
  }

  lemma {:induction false} Readers(maxAttempts: int, n: nat) returns (events: seq<Event>)
    ensures Stands(maxAttempts, events, 1, n + 1, 0, 0, 0)
  {
    if n == 0 {
      RunOneMore(maxAttempts, [], Enqueue("", ""));
      events := [Enqueue("", "")];
      assert [] + events == events;
    } else {
      var before := Readers(maxAttempts, n - 1);
      RunOneMore(maxAttempts, before, Read(n));
      events := before + [Read(n)];
    }
  }

  /** A reader of the fresh row takes it after other claims, and its handler fails: whatever
      the row's real attempts, the worker holds attempt one and the row is queued again. */
  lemma {:induction false} StaleRetry(maxAttempts: int, before: seq<Event>, first: nat, beyond: nat, a: nat, r: nat, s: nat)
    returns (events: seq<Event>)
    requires Stands(maxAttempts, before, first, beyond, a, r, s)
    requires 1 <= first < beyond && a >= 1 && maxAttempts >= 2
    ensures Stands(maxAttempts, events, first + 1, beyond, a + 1, r, s + 1)
  {
    RunOneMore(maxAttempts, before, Take(first, 0.0));
    var taken := before + [Take(first, 0.0)];
    RunOneMore(maxAttempts, taken, HandlerFails(first, ""));
    events := taken + [HandlerFails(first, "")];
    var h := Run(maxAttempts, before).value.history[0].stale;
    assert a + 1 !in h;
  }

  lemma {:induction false} TakenAfresh(maxAttempts: int, before: seq<Event>, first: nat, beyond: nat, a: nat, r: nat, s: nat)
    returns (events: seq<Event>)
    requires Stands(maxAttempts, before, first, beyond, a, r, s) && 1 <= first
    ensures Run(maxAttempts, events).Some?
    ensures var s0, s1 := Run(maxAttempts, before).value, Run(maxAttempts, events).value;
            && s1.rows == Leased(s0.rows, 0, 0.0)
            && s1.history == s0.history
            && s1.hands == s0.hands[0 := Holding(Ticket(s0.rows[0], 0.0), a + 1)]
  {
    RunOneMore(maxAttempts, before, Read(0));
    var reading := before + [Read(0)];
    RunOneMore(maxAttempts, reading, Take(0, 0.0));
    events := reading + [Take(0, 0.0)];
  }

  /** An uninterrupted claim whose handler fails with attempts left. */
  lemma {:induction false} FreshRetry(maxAttempts: int, before: seq<Event>, first: nat, beyond: nat, a: nat, r: nat, s: nat)
    returns (events: seq<Event>)
    requires Stands(maxAttempts, before, first, beyond, a, r, s)
    requires 1 <= first && a + 1 < maxAttempts
    ensures Stands(maxAttempts, events, first, beyond, a + 1, r, s)
  {
    var taken := TakenAfresh(maxAttempts, before, first, beyond, a, r, s);
    RunOneMore(maxAttempts, taken, HandlerFails(0, ""));
    events := taken + [HandlerFails(0, "")];
  }

  /** An uninterrupted claim whose worker crashes, and whose lease is then recovered. */
  lemma {:induction false} LostLease(maxAttempts: int, before: seq<Event>, first: nat, beyond: nat, a: nat, r: nat, s: nat)
    returns (events: seq<Event>)
    requires Stands(maxAttempts, before, first, beyond, a, r, s) && 1 <= first
    ensures Stands(maxAttempts, events, first, beyond, a + 1, r + 1, s)
  {
    var taken := TakenAfresh(maxAttempts, before, first, beyond, a, r, s);
    RunOneMore(maxAttempts, taken, Crash(0));
    var crashed := taken + [Crash(0)];
    RunOneMore(maxAttempts, crashed, Recover(1.0));
    events := crashed + [Recover(1.0)];
  }

  lemma {:induction false} FreshRetries(maxAttempts: int, beyond: nat, n: nat) returns (events: seq<Event>)
    requires beyond >= 1 && n < maxAttempts
    ensures Stands(maxAttempts, events, 1, beyond, n, 0, 0)
  {
    if n == 0 {
      events := Readers(maxAttempts, beyond - 1);
    } else {
      var before := FreshRetries(maxAttempts, beyond, n - 1);
      events := FreshRetry(maxAttempts, before, 1, beyond, n - 1, 0, 0);
    }
  }

  lemma {:induction false} StaleRetries(maxAttempts: int, beyond: nat, n: nat) returns (events: seq<Event>)
    requires maxAttempts >= 2 && n < beyond
    ensures Stands(maxAttempts, events, n + 1, beyond, maxAttempts - 1 + n, 0, n)
  {
    if n == 0 {
      events := FreshRetries(maxAttempts, beyond, maxAttempts - 1);
    } else {
      var before := StaleRetries(maxAttempts, beyond, n - 1);
      events := StaleRetry(maxAttempts, before, n, beyond, maxAttempts - 2 + n, 0, n - 1);
    }
  }

  lemma {:induction false} LostLeases(maxAttempts: int, s: nat, n: nat) returns (events: seq<Event>)
    requires maxAttempts >= 2
    ensures Stands(maxAttempts, events, s + 1, s + 1, maxAttempts - 1 + s + n, n, s)
  {
    if n == 0 {
      events := StaleRetries(maxAttempts, s + 1, s);
    } else {
      var before := LostLeases(maxAttempts, s, n - 1);
      events := LostLease(maxAttempts, before, s + 1, s + 1, maxAttempts - 2 + s + n, n - 1, s);
    }
  }

  /** The attempts bound is exact: with retries allowed at all, for any number of recoveries
      and of stale claims some run makes every attempt the bound admits. */
  lemma {:induction false} AttemptsBoundIsReached(maxAttempts: int, recoveries: nat, stale: nat) returns (events: seq<Event>)
    requires maxAttempts >= 2
    ensures Run(maxAttempts, events).Some?
    ensures var s := Run(maxAttempts, events).value;
            && |s.rows| == |s.history| == 1
            && s.history[0].recoveries == recoveries && |s.history[0].stale| == stale
            && s.rows[0].attempts == Bound(maxAttempts, s.history[0]) == maxAttempts + recoveries + stale
  {
    var before := LostLeases(maxAttempts, stale, recoveries);
    var attempts := maxAttempts - 1 + stale + recoveries;
    events := TakenAfresh(maxAttempts, before, stale + 1, stale + 1, attempts, recoveries, stale);
  }

  // ----- exactly when the documented bound survives split claims -----

  /** In every run, with claims split as in the code, no job passes its attempts by more than
      its recoveries. */
  ghost predicate LimitHolds(maxAttempts: int) {
    forall events, i ::
      Run(maxAttempts, events).Some? && 0 <= i < |Run(maxAttempts, events).value.rows| ==>
        Run(maxAttempts, events).value.rows[i].attempts
          <= Max(maxAttempts, 1) + Run(maxAttempts, events).value.history[i].recoveries
  }

  lemma {:induction false} OneAttemptIsKept(maxAttempts: int, events: seq<Event>, i: nat)
    requires maxAttempts <= 1
    requires Run(maxAttempts, events).Some? && i < |Run(maxAttempts, events).value.rows|
    ensures Run(maxAttempts, events).value.rows[i].attempts
              <= 1 + Run(maxAttempts, events).value.history[i].recoveries
  {
    ReachableNoRetries(maxAttempts, events);
    ReachableInv(maxAttempts, events);
    var s := Run(maxAttempts, events).value;
    assert RowCounts(maxAttempts, s.rows[i], s.history[i]);
  }

  /** Split claims keep max_attempts plus recoveries exactly when nothing is ever retried. */
  lemma {:induction false} LimitHoldsIffNoRetries(maxAttempts: int)
    ensures LimitHolds(maxAttempts) <==> maxAttempts <= 1
  {
    if maxAttempts <= 1 {
      forall events, i | Run(maxAttempts, events).Some? && 0 <= i < |Run(maxAttempts, events).value.rows|
        ensures Run(maxAttempts, events).value.rows[i].attempts
                  <= Max(maxAttempts, 1) + Run(maxAttempts, events).value.history[i].recoveries
      {
        OneAttemptIsKept(maxAttempts, events, i);
      }
    } else {
      var events := AttemptsBoundIsReached(maxAttempts, 0, 1);
      var s := Run(maxAttempts, events).value;
      assert s.rows[0].attempts > Max(maxAttempts, 1) + s.history[0].recoveries;
    }
  }
}
