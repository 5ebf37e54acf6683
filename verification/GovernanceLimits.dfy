/** How far the action budget can be passed, exactly. */
module GovernanceLimits {
  import opened Common
  import opened Governance

  function Zeros(n: nat): seq<real> {
    if n == 0 then [] else Zeros(n - 1) + [0.0]
  }

  function Copies(e: Estimate, n: nat): seq<Estimate> {
    if n == 0 then [] else Copies(e, n - 1) + [e]
  }

  lemma {:induction false} ZerosCount(n: nat, window: real)
    requires window >= 0.0
    ensures |Zeros(n)| == n
    ensures Recent(Zeros(n), 0.0, window) == Zeros(n)
    ensures CountIn(Zeros(n), 0.0, window) == n
  {
    if n > 0 {
      ZerosCount(n - 1, window);
    }
  }

  lemma {:induction false} CopiesCount(e: Estimate, n: nat)
    ensures |Copies(e, n)| == n
    ensures forall i :: 0 <= i < n ==> Copies(e, n)[i] == e
    ensures n > 0 ==> Without(Copies(e, n), n - 1) == Copies(e, n - 1)
  {
    if n > 0 {
      CopiesCount(e, n - 1);
    }
  }

  // ----- runs at time zero -----

  /** A run that no action of which used more than `top` or its own estimate has led to `s`. */
  ghost predicate Leads(l: Limits, c: nat, top: Estimate, events: seq<Event>, s: Sys) {
    Run(l, c, events) == Some(s) && HonestRun(l, c, top, events)
  }

  lemma {:induction false} LeadsOn(l: Limits, c: nat, top: Estimate, events: seq<Event>, s: Sys, e: Event)
    requires Leads(l, c, top, events, s) && Enabled(c, s, e) && Honest(top, s, e)
    ensures Leads(l, c, top, events + [e], Apply(l, c, s, e))
  {
    RunOneMore(l, c, events, e);
    assert (events + [e])[..|events|] == events;
  }

  /** k commits so far, and n copies of one estimate pending. */
  function At(k: nat, used: Estimate, e: Estimate, n: nat): Sys {
    Sys(Guard(Zeros(k), used.cost, used.seconds), Copies(e, n), Zeros(k), 0.0)
  }

  ghost predicate Fits(l: Limits, used: Estimate, e: Estimate) {
    && e.cost >= 0.0 && used.cost + e.cost <= l.maxCost
    && e.seconds >= 0.0 && used.seconds + e.seconds <= l.maxSeconds
  }

  lemma {:induction false} CheckStep(l: Limits, c: nat, k: nat, used: Estimate, e: Estimate, n: nat)
    requires (k == 0 || l.window >= 0.0) && k < l.maxActions && n < c && Fits(l, used, e)
    ensures Enabled(c, At(k, used, e, n), Check(e, 0.0))
    ensures Apply(l, c, At(k, used, e, n), Check(e, 0.0)) == At(k, used, e, n + 1)
  {
    if k > 0 {
      ZerosCount(k, l.window);
    }
    CopiesCount(e, n);
  }

  lemma {:induction false} CommitStep(l: Limits, c: nat, k: nat, used: Estimate, e: Estimate, n: nat)
    requires e.cost >= 0.0 && e.seconds >= 0.0
    ensures var s, last := At(k, used, e, n + 1), Commit(n, e.cost, e.seconds, 0.0);
            && Enabled(c, s, last) && Honest(e, s, last)
            && Apply(l, c, s, last) == At(k + 1, Estimate(used.cost + e.cost, used.seconds + e.seconds), e, n)
  {
    CopiesCount(e, n + 1);
  }

  lemma {:induction false} ChecksInARow(l: Limits, c: nat, before: seq<Event>, k: nat, used: Estimate, e: Estimate, n: nat)
    returns (events: seq<Event>)
    requires Leads(l, c, e, before, At(k, used, e, 0))
    requires (k == 0 || l.window >= 0.0) && k < l.maxActions && n <= c && Fits(l, used, e)
    ensures Leads(l, c, e, events, At(k, used, e, n))
  {
    if n == 0 {
      events := before;
    } else {
      var most := ChecksInARow(l, c, before, k, used, e, n - 1);
      CheckStep(l, c, k, used, e, n - 1);
      LeadsOn(l, c, e, most, At(k, used, e, n - 1), Check(e, 0.0));
      events := most + [Check(e, 0.0)];
    }
  }

  function Plus(used: Estimate, e: Estimate, n: nat): Estimate {
    Estimate(used.cost + Times(n, e.cost), used.seconds + Times(n, e.seconds))
  }

  lemma {:induction false} PlusOneMore(used: Estimate, e: Estimate, n: nat)
    ensures var less := Plus(used, e, n);
            Estimate(less.cost + e.cost, less.seconds + e.seconds) == Plus(used, e, n + 1)
  {
    assert Times(n + 1, e.cost) == Times(n, e.cost) + e.cost;
    assert Times(n + 1, e.seconds) == Times(n, e.seconds) + e.seconds;
  }

  /** The n-th of the pending actions commits. */
  lemma {:induction false} CommitLeads(l: Limits, c: nat, before: seq<Event>, k: nat, used: Estimate, e: Estimate,
                                       n: nat, left: nat)
    requires Leads(l, c, e, before, At(k, Plus(used, e, n), e, left + 1))
    requires e.cost >= 0.0 && e.seconds >= 0.0
    ensures Leads(l, c, e, before + [Commit(left, e.cost, e.seconds, 0.0)], At(k + 1, Plus(used, e, n + 1), e, left))
  {
    CommitStep(l, c, k, Plus(used, e, n), e, left);
    LeadsOn(l, c, e, before, At(k, Plus(used, e, n), e, left + 1), Commit(left, e.cost, e.seconds, 0.0));
    PlusOneMore(used, e, n);
  }

  lemma {:induction false} CommitsInARow(l: Limits, c: nat, before: seq<Event>, k: nat, used: Estimate, e: Estimate,
                                         pending: nat, n: nat) returns (events: seq<Event>)
    requires Leads(l, c, e, before, At(k, used, e, pending))
    requires n <= pending && e.cost >= 0.0 && e.seconds >= 0.0
    ensures Leads(l, c, e, events, At(k + n, Plus(used, e, n), e, pending - n))
  {
    if n == 0 {
      events := before;
    } else {
      var most := CommitsInARow(l, c, before, k, used, e, pending, n - 1);
      var left := pending - n;
      CommitLeads(l, c, most, k + n - 1, used, e, n - 1, left);
      events := most + [Commit(left, e.cost, e.seconds, 0.0)];
    }
  }

  const FREE := Estimate(0.0, 0.0)

  lemma {:induction false} NothingYet(l: Limits, c: nat, e: Estimate)
    ensures Leads(l, c, e, [], At(0, FREE, e, 0))
  {
  }

  lemma {:induction false} OneFreeAction(l: Limits, c: nat, before: seq<Event>, k: nat) returns (events: seq<Event>)
    requires Leads(l, c, FREE, before, At(k, FREE, FREE, 0))
    requires Fits(l, FREE, FREE) && l.window >= 0.0 && k < l.maxActions && c >= 1
    ensures Leads(l, c, FREE, events, At(k + 1, FREE, FREE, 0))
  {
    var check, commit := Check(FREE, 0.0), Commit(0, 0.0, 0.0, 0.0);
    CheckStep(l, c, k, FREE, FREE, 0);
    LeadsOn(l, c, FREE, before, At(k, FREE, FREE, 0), check);
    CommitStep(l, c, k, FREE, FREE, 0);
    LeadsOn(l, c, FREE, before + [check], At(k, FREE, FREE, 1), commit);
    events := before + [check] + [commit];
  }

  /** Free actions one after the other. */
  lemma {:induction false} Serial(l: Limits, c: nat, n: nat) returns (events: seq<Event>)
    requires Admits(l) && c >= 1 && n < l.maxActions
    ensures Leads(l, c, FREE, events, At(n, FREE, FREE, 0))
  {
    if n == 0 {
      NothingYet(l, c, FREE);
      events := [];
    } else {
      var before := Serial(l, c, n - 1);
      events := OneFreeAction(l, c, before, n - 1);
    }
  }

  // ----- the rate -----

  /** The limits let a first action through. */
  predicate AdmitsOne(l: Limits) {
    l.maxActions >= 1 && l.maxCost >= 0.0 && l.maxSeconds >= 0.0
  }

  /** A first action is let through, and then counts as recent. */
  predicate Admits(l: Limits) {
    AdmitsOne(l) && l.window >= 0.0
  }

  /** The rate bound is exact: some run puts that many commits into one window. The actions but
      one go one after the other; then c are admitted before any of them commits. */
  lemma {:induction false} RateBoundIsReached(l: Limits, c: nat) returns (events: seq<Event>)
    requires Admits(l) && c >= 1
    ensures Run(l, c, events).Some?
    ensures CountIn(Run(l, c, events).value.history, 0.0, 0.0 + l.window) == RateBound(l, c) == l.maxActions + c - 1
  {
    var k := l.maxActions - 1;
    var before := Serial(l, c, k);
    var checked := ChecksInARow(l, c, before, k, FREE, FREE, c);
    events := CommitsInARow(l, c, checked, k, FREE, FREE, c, c);
    ZerosCount(k + c, l.window);
  }

  ghost predicate WindowKept(l: Limits, history: seq<real>, from: real) {
    CountIn(history, from, from + l.window) <= Max(l.maxActions, 0)
  }

  /** No run puts more commits than the limit says into any closed window. */
  ghost predicate LimitHolds(l: Limits, c: nat) {
    forall events, from: real :: Run(l, c, events).Some? ==> WindowKept(l, Run(l, c, events).value.history, from)
  }

  /** Nothing is admitted, so nothing is committed. */
  ghost predicate Idle(s: Sys) {
    s.pending == [] && s.history == [] && s.guard.cost == 0.0 && s.guard.seconds == 0.0
  }

  lemma {:induction false} NothingHappens(l: Limits, c: nat, events: seq<Event>)
    requires c == 0 || !AdmitsOne(l)
    requires Run(l, c, events).Some?
    ensures Idle(Run(l, c, events).value)
  {
    if events != [] {
      NothingHappens(l, c, events[..|events| - 1]);
    }
  }

  lemma {:induction false} EmptyWindow(stamps: seq<real>, from: real, to: real)
    requires to < from
    ensures CountIn(stamps, from, to) == 0
  {
    if stamps != [] {
      EmptyWindow(stamps[..|stamps| - 1], from, to);
    }
  }

  lemma {:induction false} LimitKept(l: Limits, c: nat, events: seq<Event>, from: real)
    requires c <= 1 || !Admits(l)
    requires Run(l, c, events).Some?
    ensures WindowKept(l, Run(l, c, events).value.history, from)
  {
    if c == 0 || !AdmitsOne(l) {
      NothingHappens(l, c, events);
    } else if l.window < 0.0 {
      EmptyWindow(Run(l, c, events).value.history, from, from + l.window);
    } else {
      SlidingWindowBound(l, c, events, from);
    }
  }

  /** The configured limit itself holds exactly when actions do not overlap, or when the limits
      let nothing through anyway. */
  lemma {:induction false} LimitHoldsIffNoOverlap(l: Limits, c: nat)
    ensures LimitHolds(l, c) <==> c <= 1 || !Admits(l)
  {
    if c <= 1 || !Admits(l) {
      forall events, from: real | Run(l, c, events).Some?
        ensures WindowKept(l, Run(l, c, events).value.history, from)
      {
        LimitKept(l, c, events, from);
      }
    } else {
      var events := RateBoundIsReached(l, c);
      assert !WindowKept(l, Run(l, c, events).value.history, 0.0);
    }
  }

  // ----- cost and time -----

  /** The slack of c - 1 estimates is exact: c actions that each estimate the whole budget are
      all admitted, and use it c times, honestly. */
  lemma {:induction false} BudgetSlackIsReached(l: Limits, c: nat) returns (events: seq<Event>)
    requires AdmitsOne(l) && c >= 1
    ensures var top := Estimate(l.maxCost, l.maxSeconds);
            && Run(l, c, events).Some? && HonestRun(l, c, top, events)
            && Run(l, c, events).value.guard.cost == l.maxCost + Slack(c, top).cost
            && Run(l, c, events).value.guard.seconds == l.maxSeconds + Slack(c, top).seconds
  {
    var top := Estimate(l.maxCost, l.maxSeconds);
    NothingYet(l, c, top);
    var checked := ChecksInARow(l, c, [], 0, FREE, top, c);
    events := CommitsInARow(l, c, checked, 0, FREE, top, c, c);
  }

  /** A budget of nothing admits only what costs nothing. */
  ghost predicate Unspent(l: Limits, s: Sys) {
    && (l.maxCost <= 0.0 ==>
          s.guard.cost == 0.0 && forall i :: 0 <= i < |s.pending| ==> s.pending[i].cost == 0.0)
    && (l.maxSeconds <= 0.0 ==>
          s.guard.seconds == 0.0 && forall i :: 0 <= i < |s.pending| ==> s.pending[i].seconds == 0.0)
  }

  lemma {:induction false} NothingIsSpent(l: Limits, c: nat, top: Estimate, events: seq<Event>)
    requires AdmitsOne(l) && Run(l, c, events).Some? && HonestRun(l, c, top, events)
    ensures Unspent(l, Run(l, c, events).value)
  {
    if events != [] {
      NothingIsSpent(l, c, top, events[..|events| - 1]);
    }
  }

  function Most(top: Estimate): Estimate {
    Estimate(AtLeastZero(top.cost), AtLeastZero(top.seconds))
  }

  lemma {:induction false} HonestUnderMore(l: Limits, c: nat, top: Estimate, events: seq<Event>)
    requires HonestRun(l, c, top, events)
    ensures HonestRun(l, c, Most(top), events)
  {
    if events != [] {
      HonestUnderMore(l, c, top, events[..|events| - 1]);
    }
  }

  ghost predicate CostKept(l: Limits, s: Sys) {
    s.guard.cost <= AtLeastZero(l.maxCost)
  }

  ghost predicate TimeKept(l: Limits, s: Sys) {
    s.guard.seconds <= AtLeastZero(l.maxSeconds)
  }

  /** No honest run, whatever its largest estimate, uses more than the cost limit says. */
  ghost predicate CostHolds(l: Limits, c: nat) {
    forall top, events :: HonestRun(l, c, top, events) && Run(l, c, events).Some? ==>
      CostKept(l, Run(l, c, events).value)
  }

  ghost predicate TimeHolds(l: Limits, c: nat) {
    forall top, events :: HonestRun(l, c, top, events) && Run(l, c, events).Some? ==>
      TimeKept(l, Run(l, c, events).value)
  }

  /** Overlapping actions that cost something are admitted. */
  predicate CostOverlaps(l: Limits, c: nat) {
    c > 1 && l.maxActions >= 1 && l.maxCost > 0.0 && l.maxSeconds >= 0.0
  }

  predicate TimeOverlaps(l: Limits, c: nat) {
    c > 1 && l.maxActions >= 1 && l.maxSeconds > 0.0 && l.maxCost >= 0.0
  }

  lemma {:induction false} BudgetKept(l: Limits, c: nat, top: Estimate, events: seq<Event>)
    requires Run(l, c, events).Some? && HonestRun(l, c, top, events)
    ensures CostOverlaps(l, c) || CostKept(l, Run(l, c, events).value)
    ensures TimeOverlaps(l, c) || TimeKept(l, Run(l, c, events).value)
  {
    if c == 0 || !AdmitsOne(l) {
      NothingHappens(l, c, events);
    } else if c == 1 {
      HonestUnderMore(l, c, top, events);
      OneAtATimeNeverPassesLimits(l, Most(top), events);
    } else {
      NothingIsSpent(l, c, top, events);
    }
  }

  lemma {:induction false} SlackIsPositive(c: nat, x: real)
    requires c > 1 && x > 0.0
    ensures Times(c - 1, x) > 0.0
  {
    TimesGrows(1, c - 1, x);
    assert Times(1, x) == Times(0, x) + x;
  }

  /** The cost limit holds for honest actions exactly when they do not overlap, or none that
      costs anything is admitted. */
  lemma {:induction false} CostHoldsIffNoOverlap(l: Limits, c: nat)
    ensures CostHolds(l, c) <==> c <= 1 || l.maxActions < 1 || l.maxCost <= 0.0 || l.maxSeconds < 0.0
  {
    if CostOverlaps(l, c) {
      var events := BudgetSlackIsReached(l, c);
      SlackIsPositive(c, l.maxCost);
      assert HonestRun(l, c, Estimate(l.maxCost, l.maxSeconds), events) && !CostKept(l, Run(l, c, events).value);
    } else {
      forall top, events | HonestRun(l, c, top, events) && Run(l, c, events).Some?
        ensures CostKept(l, Run(l, c, events).value)
      {
        BudgetKept(l, c, top, events);
      }
    }
  }

  /** And the time limit likewise. */
  lemma {:induction false} TimeHoldsIffNoOverlap(l: Limits, c: nat)
    ensures TimeHolds(l, c) <==> c <= 1 || l.maxActions < 1 || l.maxSeconds <= 0.0 || l.maxCost < 0.0
  {
    if TimeOverlaps(l, c) {
      var events := BudgetSlackIsReached(l, c);
      SlackIsPositive(c, l.maxSeconds);
      assert HonestRun(l, c, Estimate(l.maxCost, l.maxSeconds), events) && !TimeKept(l, Run(l, c, events).value);
    } else {
      forall top, events | HonestRun(l, c, top, events) && Run(l, c, events).Some?
        ensures TimeKept(l, Run(l, c, events).value)
      {
        BudgetKept(l, c, top, events);
      }
    }
  }
}
