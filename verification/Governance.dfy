/** The action budget: GovernanceGuard.check and commit.

    Time, cost and seconds are reals; the clock is an argument. */
module Governance {
  import opened Common

  datatype Limits = Limits(maxActions: int, window: real, maxCost: real, maxSeconds: real)

  datatype Estimate = Estimate(cost: real, seconds: real)

  datatype LimitError = RateExceeded | CostExceeded | ExecutionExceeded | NegativeUsage

  datatype Guard = Guard(actions: seq<real>, cost: real, seconds: real)

  function NewGuard(): Guard {
    Guard([], 0.0, 0.0)
  }

  /** The stamps not older than `window` at `now`, in order. */
  function Recent(stamps: seq<real>, now: real, window: real): seq<real> {
    if stamps == [] then []
    else
      var last := stamps[|stamps| - 1];
      Recent(stamps[..|stamps| - 1], now, window) + if now - last <= window then [last] else []
  }

  function Checked(l: Limits, g: Guard, e: Estimate, now: real): (Guard, Option<LimitError>) {
    var g' := g.(actions := Recent(g.actions, now, l.window));
    (g',
     if |g'.actions| >= l.maxActions then Some(RateExceeded)
     else if e.cost < 0.0 || g.cost + e.cost > l.maxCost then Some(CostExceeded)
     else if e.seconds < 0.0 || g.seconds + e.seconds > l.maxSeconds then Some(ExecutionExceeded)
     else None)
  }

  function Committed(g: Guard, cost: real, seconds: real, now: real): (Guard, Option<LimitError>) {
    if cost < 0.0 || seconds < 0.0 then (g, Some(NegativeUsage))
    else (Guard(g.actions + [now], g.cost + cost, g.seconds + seconds), None)
  }

  class GovernanceGuard {
    const limits: Limits
    var actions: seq<real>
    var cost: real
    var seconds: real

    ghost function State(): Guard
      reads this
    {
      Guard(actions, cost, seconds)
    }

    constructor (limits: Limits)
      ensures this.limits == limits && State() == NewGuard()
    {
      this.limits := limits;
      actions, cost, seconds := [], 0.0, 0.0;
    }

    /** Forgets old actions first, also when it then refuses. */
    method Check(e: Estimate, now: real) returns (refused: Option<LimitError>)
      modifies this
      ensures (State(), refused) == Checked(limits, old(State()), e, now)
      ensures actions == Recent(old(actions), now, limits.window) && cost == old(cost) && seconds == old(seconds)
      ensures var rate := |actions| >= limits.maxActions;
              var dear := e.cost < 0.0 || cost + e.cost > limits.maxCost;
              var long := e.seconds < 0.0 || seconds + e.seconds > limits.maxSeconds;
              && (refused == Some(RateExceeded) <==> rate)
              && (refused == Some(CostExceeded) <==> !rate && dear)
              && (refused == Some(ExecutionExceeded) <==> !rate && !dear && long)
              && (refused.None? <==> !rate && !dear && !long)
    {
      actions := Recent(actions, now, limits.window);
      if |actions| >= limits.maxActions {
        return Some(RateExceeded);
      }
      if e.cost < 0.0 || cost + e.cost > limits.maxCost {
        return Some(CostExceeded);
      }
      if e.seconds < 0.0 || seconds + e.seconds > limits.maxSeconds {
        return Some(ExecutionExceeded);
      }
      return None;
    }

    method Commit(actualCost: real, actualSeconds: real, now: real) returns (refused: Option<LimitError>)
      modifies this
      ensures (State(), refused) == Committed(old(State()), actualCost, actualSeconds, now)
      ensures refused == if actualCost < 0.0 || actualSeconds < 0.0 then Some(NegativeUsage) else None
      ensures refused.Some? ==> State() == old(State())
      ensures refused.None? ==>
                actions == old(actions) + [now] && cost == old(cost) + actualCost && seconds == old(seconds) + actualSeconds
    {
      if actualCost < 0.0 || actualSeconds < 0.0 {
        return Some(NegativeUsage);
      }
      actions := actions + [now];
      cost := cost + actualCost;
      seconds := seconds + actualSeconds;
      return None;
    }
  }

  // ----- runs with overlapping actions -----

  /** An action is admitted by a successful check and is pending until it commits or is
      abandoned; several may be pending at once. */
  datatype Event =
    | Check(estimate: Estimate, now: real)
    | Commit(which: nat, cost: real, seconds: real, now: real)
    | Abandon(which: nat)

  /** `history` holds the stamp of every commit ever made, which the guard itself forgets. */
  datatype Sys = Sys(guard: Guard, pending: seq<Estimate>, history: seq<real>, clock: real)

  function Init(): Sys {
    Sys(NewGuard(), [], [], 0.0)
  }

  function Without<T>(xs: seq<T>, i: nat): seq<T>
    requires i < |xs|
  {
    xs[..i] + xs[i + 1..]
  }

  /** At most c actions are pending at once, the clock does not go back, and usage is
      reported for pending actions only. */
  predicate Enabled(c: nat, s: Sys, e: Event) {
    match e
    case Check(_, now) => s.clock <= now && |s.pending| < c
    case Commit(which, _, _, now) => s.clock <= now && which < |s.pending|
    case Abandon(which) => which < |s.pending|
  }

  function Apply(l: Limits, c: nat, s: Sys, e: Event): Sys
    requires Enabled(c, s, e)
  {
    match e
    case Check(estimate, now) =>
      var (g, refused) := Checked(l, s.guard, estimate, now);
      s.(guard := g, clock := now, pending := if refused.None? then s.pending + [estimate] else s.pending)
    case Commit(which, cost, seconds, now) =>
      var (g, refused) := Committed(s.guard, cost, seconds, now);
      s.(guard := g, clock := now, pending := Without(s.pending, which),
         history := if refused.None? then s.history + [now] else s.history)
    case Abandon(which) => s.(pending := Without(s.pending, which))
  }

  function Run(l: Limits, c: nat, events: seq<Event>): Option<Sys> {
    if events == [] then Some(Init())
    else
      match Run(l, c, events[..|events| - 1])
      case None => None
      case Some(s) =>
        if Enabled(c, s, events[|events| - 1]) then Some(Apply(l, c, s, events[|events| - 1])) else None
  }

  /** The checks that admitted an action, and the actions that ended since. */
  function Admissions(l: Limits, c: nat, events: seq<Event>): nat {
    if events == [] then 0
    else
      var before, e := events[..|events| - 1], events[|events| - 1];
      Admissions(l, c, before) +
      if e.Check? && Run(l, c, before).Some? && Checked(l, Run(l, c, before).value.guard, e.estimate, e.now).1.None?
      then 1 else 0
  }

  function Endings(events: seq<Event>): nat {
    if events == [] then 0
    else Endings(events[..|events| - 1]) + if events[|events| - 1].Check? then 0 else 1
  }

  /** Every action that was admitted is pending until it commits or is abandoned. */
  lemma {:induction false} PendingAreTheUnended(l: Limits, c: nat, events: seq<Event>)
    requires Run(l, c, events).Some?
    ensures |Run(l, c, events).value.pending| + Endings(events) == Admissions(l, c, events)
    ensures |Run(l, c, events).value.pending| <= c
  {
    if events != [] {
      PendingAreTheUnended(l, c, events[..|events| - 1]);
    }
  }

  // ----- pruning loses nothing -----

  lemma {:induction false} RecentAppend(stamps: seq<real>, x: real, now: real, window: real)
    ensures Recent(stamps + [x], now, window)
              == Recent(stamps, now, window) + if now - x <= window then [x] else []
  {
    assert (stamps + [x])[..|stamps + [x]| - 1] == stamps;
  }

  /** Pruning at an earlier time first makes no difference. */
  lemma {:induction false} RecentTwice(stamps: seq<real>, earlier: real, now: real, window: real)
    requires earlier <= now
    ensures Recent(Recent(stamps, earlier, window), now, window) == Recent(stamps, now, window)
  {
    if stamps != [] {
      var init, last := stamps[..|stamps| - 1], stamps[|stamps| - 1];
      RecentTwice(init, earlier, now, window);
      if earlier - last <= window {
        RecentAppend(Recent(init, earlier, window), last, now, window);
      } else {
        assert Recent(stamps, earlier, window) == Recent(init, earlier, window);
      }
    }
  }

  /** The guard's list and the full history look the same from now on. */
  ghost predicate SameRecent(l: Limits, s: Sys) {
    forall now :: s.clock <= now ==>
      Recent(s.guard.actions, now, l.window) == Recent(s.history, now, l.window)
  }

  lemma {:induction false} StepKeepsSameRecent(l: Limits, c: nat, s: Sys, e: Event)
    requires Enabled(c, s, e) && SameRecent(l, s)
    ensures SameRecent(l, Apply(l, c, s, e))
  {
    var s' := Apply(l, c, s, e);
    forall now | s'.clock <= now
      ensures Recent(s'.guard.actions, now, l.window) == Recent(s'.history, now, l.window)
    {
      match e
      case Check(_, t) => RecentTwice(s.guard.actions, t, now, l.window);
      case Commit(_, cost, seconds, t) =>
        RecentAppend(s.guard.actions, t, now, l.window);
        RecentAppend(s.history, t, now, l.window);
      case Abandon(_) =>
    }
  }

  lemma {:induction false} ReachableSameRecent(l: Limits, c: nat, events: seq<Event>)
    requires Run(l, c, events).Some?
    ensures SameRecent(l, Run(l, c, events).value)
  {
    if events != [] {
      ReachableSameRecent(l, c, events[..|events| - 1]);
      StepKeepsSameRecent(l, c, Run(l, c, events[..|events| - 1]).value, events[|events| - 1]);
    }
  }

  /** The commits at most `window` old. */
  function YoungOnes(stamps: seq<real>, now: real, window: real): set<nat> {
    set i: nat | i < |stamps| && now - stamps[i] <= window
  }

  lemma {:induction false} RecentAreTheYoung(stamps: seq<real>, now: real, window: real)
    ensures |Recent(stamps, now, window)| == |YoungOnes(stamps, now, window)|
    ensures forall x :: x in Recent(stamps, now, window) ==> now - x <= window
  {
    if stamps != [] {
      var n := |stamps| - 1;
      RecentAreTheYoung(stamps[..n], now, window);
      var last := if now - stamps[n] <= window then {n} else {};
      assert YoungOnes(stamps, now, window) == YoungOnes(stamps[..n], now, window) + last;
    }
  }

  /** A check counts exactly the commits of the full history that are at most `window` old, and
      refuses for the rate exactly when these are too many already. */
  lemma {:induction false} CheckSeesFullHistory(l: Limits, c: nat, events: seq<Event>, e: Estimate, now: real)
    requires Run(l, c, events).Some? && Run(l, c, events).value.clock <= now
    ensures var s := Run(l, c, events).value;
            && Checked(l, s.guard, e, now).0.actions == Recent(s.history, now, l.window)
            && (Checked(l, s.guard, e, now).1 == Some(RateExceeded)
                <==> |YoungOnes(s.history, now, l.window)| >= l.maxActions)
  {
    ReachableSameRecent(l, c, events);
    RecentAreTheYoung(Run(l, c, events).value.history, now, l.window);
  }

  // ----- the rate bound -----

  /** Commits in the closed interval from `from` to `to`. */
  function CountIn(stamps: seq<real>, from: real, to: real): nat {
    if stamps == [] then 0
    else
      var last := stamps[|stamps| - 1];
      CountIn(stamps[..|stamps| - 1], from, to) + if from <= last <= to then 1 else 0
  }

  /** The commits made in that interval, as a set. */
  lemma {:induction false} CountInIsSize(stamps: seq<real>, from: real, to: real)
    ensures CountIn(stamps, from, to) == |set i: nat | i < |stamps| && from <= stamps[i] <= to|
  {
    if stamps != [] {
      var n := |stamps| - 1;
      CountInIsSize(stamps[..n], from, to);
      var last := if from <= stamps[n] <= to then {n} else {};
      assert (set i: nat | i < |stamps| && from <= stamps[i] <= to)
             == (set i: nat | i < |stamps[..n]| && from <= stamps[..n][i] <= to) + last;
    }
  }

  lemma {:induction false} RecentCountsInterval(stamps: seq<real>, now: real, window: real, from: real, to: real)
    requires now - window <= from
    ensures CountIn(stamps, from, to) <= |Recent(stamps, now, window)|
  {
    if stamps != [] {
      RecentCountsInterval(stamps[..|stamps| - 1], now, window, from, to);
    }
  }

  lemma {:induction false} RecentShrinks(stamps: seq<real>, earlier: real, now: real, window: real)
    requires earlier <= now
    ensures |Recent(stamps, now, window)| <= |Recent(stamps, earlier, window)|
  {
    if stamps != [] {
      RecentShrinks(stamps[..|stamps| - 1], earlier, now, window);
    }
  }

  /** A limit below one admits nothing. */
  function RateBound(l: Limits, c: nat): int {
    if l.maxActions >= 1 then l.maxActions + c - 1 else 0
  }

  ghost predicate RateInv(l: Limits, c: nat, s: Sys) {
    |Recent(s.history, s.clock, l.window)| + |s.pending| <= RateBound(l, c)
  }

  lemma {:induction false} StepKeepsRate(l: Limits, c: nat, s: Sys, e: Event)
    requires c >= 1
    requires Enabled(c, s, e) && SameRecent(l, s) && RateInv(l, c, s)
    ensures RateInv(l, c, Apply(l, c, s, e))
  {
    match e
    case Check(_, now) => RecentShrinks(s.history, s.clock, now, l.window);
    case Commit(_, _, _, now) =>
      RecentShrinks(s.history, s.clock, now, l.window);
      RecentAppend(s.history, now, now, l.window);
    case Abandon(_) =>
  }

  lemma {:induction false} ReachableRate(l: Limits, c: nat, events: seq<Event>)
    requires c >= 1 && Run(l, c, events).Some?
    ensures RateInv(l, c, Run(l, c, events).value)
  {
    if events != [] {
      ReachableRate(l, c, events[..|events| - 1]);
      ReachableSameRecent(l, c, events[..|events| - 1]);
      StepKeepsRate(l, c, Run(l, c, events[..|events| - 1]).value, events[|events| - 1]);
    }
  }

  /** A commit can only add to intervals that hold the present. */
  lemma {:induction false} CountAfterStep(l: Limits, c: nat, s: Sys, e: Event, from: real, to: real)
    requires Enabled(c, s, e)
    ensures var s' := Apply(l, c, s, e);
            CountIn(s'.history, from, to) == CountIn(s.history, from, to) || from <= s'.clock <= to
  {
    var s' := Apply(l, c, s, e);
    if s'.history != s.history {
      assert s'.history == s.history + [s'.clock];
      assert s'.history[..|s.history|] == s.history;
    }
  }

  /** The sliding-window bound: with at most c actions pending at a time, no closed interval
      of length `window`, wherever it starts, holds more than maxActions + c - 1 commits (and
      none at all under a limit below one). */
  lemma {:induction false} SlidingWindowBound(l: Limits, c: nat, events: seq<Event>, from: real)
    requires c >= 1 && Run(l, c, events).Some?
    ensures CountIn(Run(l, c, events).value.history, from, from + l.window)
              <= if l.maxActions >= 1 then l.maxActions + c - 1 else 0
  {
    if events != [] {
      var before, e := events[..|events| - 1], events[|events| - 1];
      SlidingWindowBound(l, c, before, from);
      CountAfterStep(l, c, Run(l, c, before).value, e, from, from + l.window);
      var s := Run(l, c, events).value;
      if from <= s.clock <= from + l.window {
        ReachableRate(l, c, events);
        RecentCountsInterval(s.history, s.clock, l.window, from, from + l.window);
      }
    }
  }

  lemma {:induction false} RunOneMore(l: Limits, c: nat, events: seq<Event>, e: Event)
    requires Run(l, c, events).Some? && Enabled(c, Run(l, c, events).value, e)
    ensures Run(l, c, events + [e]) == Some(Apply(l, c, Run(l, c, events).value, e))
  {
    assert (events + [e])[..|events + [e]| - 1] == events;
  }

  // ----- the cost and time budgets -----

  function SumCost(es: seq<Estimate>): real {
    if es == [] then 0.0 else SumCost(es[..|es| - 1]) + es[|es| - 1].cost
  }

  function SumSeconds(es: seq<Estimate>): real {
    if es == [] then 0.0 else SumSeconds(es[..|es| - 1]) + es[|es| - 1].seconds
  }

  lemma {:induction false} SumsWithout(es: seq<Estimate>, i: nat)
    requires i < |es|
    ensures SumCost(Without(es, i)) == SumCost(es) - es[i].cost
    ensures SumSeconds(Without(es, i)) == SumSeconds(es) - es[i].seconds
    decreases |es|
  {
    var n := |es| - 1;
    if i == n {
      assert Without(es, i) == es[..n];
    } else {
      SumsWithout(es[..n], i);
      assert Without(es, i)[..n - 1] == Without(es[..n], i);
      assert Without(es, i)[n - 1] == es[n];
    }
  }

  /** Every estimate is at most `top`, and no action reports more than it estimated. */
  ghost predicate Honest(top: Estimate, s: Sys, e: Event) {
    match e
    case Check(estimate, _) => estimate.cost <= top.cost && estimate.seconds <= top.seconds
    case Commit(which, cost, seconds, _) =>
      which < |s.pending| ==> cost <= s.pending[which].cost && seconds <= s.pending[which].seconds
    case Abandon(_) => true
  }

  ghost predicate HonestRun(l: Limits, c: nat, top: Estimate, events: seq<Event>) {
    if events == [] then true
    else
      var before := events[..|events| - 1];
      && HonestRun(l, c, top, before)
      && (Run(l, c, before).Some? ==> Honest(top, Run(l, c, before).value, events[|events| - 1]))
  }

  /** Nothing is ever spent under a negative limit; usage then stays at zero. */
  function AtLeastZero(limit: real): (bound: real)
    ensures 0.0 <= bound && limit <= bound && (bound == 0.0 || bound == limit)
  {
    if limit < 0.0 then 0.0 else limit
  }

  /** What c - 1 actions can use at most. */
  function Slack(c: nat, top: Estimate): Estimate
    requires c >= 1
  {
    Estimate(Times(c - 1, top.cost), Times(c - 1, top.seconds))
  }

  ghost predicate WithinBudget(l: Limits, slack: Estimate, top: Estimate, s: Sys) {
    && (forall i :: 0 <= i < |s.pending| ==>
          && 0.0 <= s.pending[i].cost <= top.cost
          && 0.0 <= s.pending[i].seconds <= top.seconds)
    && s.guard.cost + SumCost(s.pending) <= AtLeastZero(l.maxCost) + slack.cost
    && s.guard.seconds + SumSeconds(s.pending) <= AtLeastZero(l.maxSeconds) + slack.seconds
  }

  lemma {:induction false} SumsBounded(es: seq<Estimate>, top: Estimate)
    requires forall i :: 0 <= i < |es| ==> 0.0 <= es[i].cost <= top.cost && 0.0 <= es[i].seconds <= top.seconds
    ensures 0.0 <= SumCost(es) <= Times(|es|, top.cost)
    ensures 0.0 <= SumSeconds(es) <= Times(|es|, top.seconds)
  {
    if es != [] {
      SumsBounded(es[..|es| - 1], top);
    }
  }

  /** The estimates already pending leave a slack; an admitted one fits under the limit. */
  lemma {:induction false} AdmissionFits(l: Limits, g: Guard, pending: seq<Estimate>, e: Estimate, now: real,
                      slack: Estimate)
    requires SumCost(pending) <= slack.cost && SumSeconds(pending) <= slack.seconds
    requires Checked(l, g, e, now).1.None?
    ensures g.cost + SumCost(pending + [e]) <= l.maxCost + slack.cost
    ensures g.seconds + SumSeconds(pending + [e]) <= l.maxSeconds + slack.seconds
    ensures 0.0 <= e.cost && 0.0 <= e.seconds
  {
    assert (pending + [e])[..|pending + [e]| - 1] == pending;
  }

  lemma {:induction false} AdmissionKeepsBudget(l: Limits, slack: Estimate, top: Estimate, s: Sys, e: Estimate, now: real)
    requires WithinBudget(l, slack, top, s)
    requires SumCost(s.pending) <= slack.cost && SumSeconds(s.pending) <= slack.seconds
    requires e.cost <= top.cost && e.seconds <= top.seconds
    requires Checked(l, s.guard, e, now).1.None?
    ensures WithinBudget(l, slack, top, s.(guard := Checked(l, s.guard, e, now).0, clock := now,
                                 pending := s.pending + [e]))
  {
    AdmissionFits(l, s.guard, s.pending, e, now, slack);
  }

  lemma {:induction false} CommitKeepsBudget(l: Limits, slack: Estimate, top: Estimate, s: Sys, which: nat,
                          cost: real, seconds: real, now: real)
    requires WithinBudget(l, slack, top, s) && which < |s.pending|
    requires cost <= s.pending[which].cost && seconds <= s.pending[which].seconds
    ensures WithinBudget(l, slack, top, Sys(Committed(s.guard, cost, seconds, now).0,
                                  Without(s.pending, which), s.history, now))
  {
    SumsWithout(s.pending, which);
  }

  lemma {:induction false} BudgetIgnoresHistory(l: Limits, slack: Estimate, top: Estimate, s: Sys, s': Sys)
    requires WithinBudget(l, slack, top, s) && s'.pending == s.pending
    requires s'.guard.cost == s.guard.cost && s'.guard.seconds == s.guard.seconds
    ensures WithinBudget(l, slack, top, s')
  {
  }

  lemma {:induction false} PendingWithinSlack(c: nat, top: Estimate, pending: seq<Estimate>)
    requires |pending| < c && top.cost >= 0.0 && top.seconds >= 0.0
    requires forall i :: 0 <= i < |pending| ==>
               0.0 <= pending[i].cost <= top.cost && 0.0 <= pending[i].seconds <= top.seconds
    ensures SumCost(pending) <= Slack(c, top).cost && SumSeconds(pending) <= Slack(c, top).seconds
  {
    SumsBounded(pending, top);
    TimesGrows(|pending|, c - 1, top.cost);
    TimesGrows(|pending|, c - 1, top.seconds);
  }

  lemma {:induction false} StepKeepsBudget(l: Limits, c: nat, slack: Estimate, top: Estimate, s: Sys, e: Event)
    requires Enabled(c, s, e) && Honest(top, s, e) && WithinBudget(l, slack, top, s)
    requires |s.pending| < c ==> SumCost(s.pending) <= slack.cost && SumSeconds(s.pending) <= slack.seconds
    ensures WithinBudget(l, slack, top, Apply(l, c, s, e))
  {
    var s' := Apply(l, c, s, e);
    match e
    case Check(estimate, now) =>
      if Checked(l, s.guard, estimate, now).1.None? {
        AdmissionKeepsBudget(l, slack, top, s, estimate, now);
      } else {
        BudgetIgnoresHistory(l, slack, top, s, s');
      }
    case Commit(which, cost, seconds, now) =>
      CommitKeepsBudget(l, slack, top, s, which, cost, seconds, now);
      BudgetIgnoresHistory(l, slack, top, s'.(history := s.history), s');
    case Abandon(which) => SumsWithout(s.pending, which);
  }

  lemma {:induction false} ReachableBudget(l: Limits, c: nat, top: Estimate, events: seq<Event>)
    requires c >= 1 && top.cost >= 0.0 && top.seconds >= 0.0
    requires Run(l, c, events).Some? && HonestRun(l, c, top, events)
    ensures WithinBudget(l, Slack(c, top), top, Run(l, c, events).value)
  {
    if events == [] {
      PendingWithinSlack(c, top, []);
    } else {
      var before := events[..|events| - 1];
      ReachableBudget(l, c, top, before);
      var s := Run(l, c, before).value;
      if |s.pending| < c {
        PendingWithinSlack(c, top, s.pending);
      }
      StepKeepsBudget(l, c, Slack(c, top), top, s, events[|events| - 1]);
    }
  }

  /** If no action uses more than it estimated, and none estimates more than `top`, then
      total cost and time exceed their limits by at most c - 1 estimates. */
  lemma {:induction false} UsageStaysWithinLimits(l: Limits, c: nat, top: Estimate, events: seq<Event>)
    requires c >= 1 && top.cost >= 0.0 && top.seconds >= 0.0
    requires Run(l, c, events).Some? && HonestRun(l, c, top, events)
    ensures var g := Run(l, c, events).value.guard;
            && g.cost <= AtLeastZero(l.maxCost) + Slack(c, top).cost
            && g.seconds <= AtLeastZero(l.maxSeconds) + Slack(c, top).seconds
  {
    ReachableBudget(l, c, top, events);
    SumsBounded(Run(l, c, events).value.pending, top);
  }

  /** With one action at a time the limits themselves are never passed. */
  lemma {:induction false} OneAtATimeNeverPassesLimits(l: Limits, top: Estimate, events: seq<Event>)
    requires top.cost >= 0.0 && top.seconds >= 0.0
    requires Run(l, 1, events).Some? && HonestRun(l, 1, top, events)
    ensures var s := Run(l, 1, events).value;
            s.guard.cost <= AtLeastZero(l.maxCost) && s.guard.seconds <= AtLeastZero(l.maxSeconds)
  {
    UsageStaysWithinLimits(l, 1, top, events);
  }
}
