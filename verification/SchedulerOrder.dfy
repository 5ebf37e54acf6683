/** The order in which the scheduler starts what is queued. */
module SchedulerOrder {
  import opened Common
  import opened Scheduler

  /** The smaller number of `priority` goes first, and equal ones in the order submitted. */
  predicate MoreUrgent(s: Sys, m: nat, n: nat)
    requires m < |s.subs| && n < |s.subs|
  {
    if s.subs[m].priority == s.subs[n].priority then m < n else s.subs[m].priority < s.subs[n].priority
  }

  lemma {:induction false} PrefixRuns(l: Limits, events: seq<Event>, j: nat)
    requires j < |events| && Run(l, events).Some?
    ensures Run(l, events[..j]).Some? && Enabled(l, Run(l, events[..j]).value, events[j])
  {
    var n := |events| - 1;
    if j < n {
      PrefixRuns(l, events[..n], j);
      assert events[..n][..j] == events[..j];
    }
  }

  /** Whenever a worker takes an operation, it is queued and nothing else that is queued has a
      smaller priority, or the same one and an earlier number. */
  lemma {:induction false} TakesTheMostUrgent(l: Limits, events: seq<Event>, j: nat)
    requires Run(l, events).Some? && j < |events| && events[j].Take?
    ensures Run(l, events[..j]).Some?
    ensures var s, n := Run(l, events[..j]).value, events[j].n;
            && n < |s.subs| && s.subs[n].stage.Queued?
            && forall m :: 0 <= m < |s.subs| && s.subs[m].stage.Queued? && m != n ==> MoreUrgent(s, n, m)
  {
    PrefixRuns(l, events, j);
    ReachableInv(l, events[..j]);
    var s, n := Run(l, events[..j]).value, events[j].n;
    assert StageOk(s, n);
    forall m | 0 <= m < |s.subs| && s.subs[m].stage.Queued? && m != n
      ensures MoreUrgent(s, n, m)
    {
      assert StageOk(s, m);
    }
  }

  /** There is always one to take: a queue with anything in it has a most urgent operation. */
  lemma {:induction false} SomethingIsFirst(s: Sys, queue: set<nat>) returns (n: nat)
    requires queue != {} && forall m :: m in queue ==> m < |s.subs|
    ensures n in queue && forall m :: m in queue && m != n ==> MoreUrgent(s, n, m)
  {
    var x :| x in queue;
    n := x;
    if queue - {x} != {} {
      var first := SomethingIsFirst(s, queue - {x});
      n := if MoreUrgent(s, x, first) then x else first;
      forall m | m in queue && m != n
        ensures MoreUrgent(s, n, m)
      {
        assert m != x && m != first ==> MoreUrgent(s, first, m);
      }
    } else {
      assert forall m :: m in queue && m != x ==> m in queue - {x};
    }
  }

  lemma {:induction false} FreeWorkerCanTake(l: Limits, events: seq<Event>, w: nat) returns (n: nat)
    requires Run(l, events).Some? && Run(l, events).value.queue != {}
    requires w < l.workers && w !in Run(l, events).value.running
    ensures Enabled(l, Run(l, events).value, Take(w, n))
  {
    ReachableInv(l, events);
    n := SomethingIsFirst(Run(l, events).value, Run(l, events).value.queue);
  }

  lemma {:induction false} Waiting(l: Limits, s: Sys, e: Event, m: nat, n: nat)
    requires Inv(l, s) && Enabled(l, s, e) && m < |s.subs| && n < |s.subs| && MoreUrgent(s, m, n)
    requires s.subs[m].stage.Queued? && s.subs[n].stage.Queued?
    ensures var s' := Apply(l, s, e);
            && m < |s'.subs| && n < |s'.subs| && MoreUrgent(s', m, n)
            && s'.subs[n].stage.Queued?
            && (s'.subs[m].stage.Queued? || s'.started == s.started + [m])
  {
    assert StageOk(s, m) && StageOk(s, n);
    SubmissionStays(l, s, e, m);
    SubmissionStays(l, s, e, n);
  }

  /** Once the more urgent one of two was started, it stays so whatever happens. */
  ghost predicate StartedFirst(s: Sys, m: nat, n: nat) {
    && n < |s.subs|
    && (s.subs[n].awaits > 0 ==>
          exists a, b :: 0 <= a < b < |s.started| && s.started[a] == m && s.started[b] == n)
    && m in s.started
  }

  lemma {:induction false} StepKeepsStartedFirst(l: Limits, s: Sys, e: Event, m: nat, n: nat)
    requires Inv(l, s) && Enabled(l, s, e) && StartedFirst(s, m, n)
    ensures StartedFirst(Apply(l, s, e), m, n)
  {
    var s' := Apply(l, s, e);
    StartedGrows(l, s, e);
    var a :| 0 <= a < |s.started| && s.started[a] == m;
    assert s'.started[a] == m;
    if !Concerns(s, e, n) {
      OthersStay(l, s, e, n);
    }
    if s.subs[n].awaits > 0 {
      var b, c :| 0 <= b < c < |s.started| && s.started[b] == m && s.started[c] == n;
      assert s'.started[b] == m && s'.started[c] == n;
    } else if e.Take? && e.n == n {
      assert s'.started[|s.started|] == n;
    } else {
      assert StageOk(s, n);
    }
  }

  function Continue(l: Limits, s: Sys, events: seq<Event>): Option<Sys>
    decreases |events|
  {
    if events == [] then Some(s)
    else if Enabled(l, s, events[0]) then Continue(l, Apply(l, s, events[0]), events[1..])
    else None
  }

  lemma {:induction false} ContinuesStartedFirst(l: Limits, s: Sys, more: seq<Event>, m: nat, n: nat)
    requires Inv(l, s) && Continue(l, s, more).Some? && StartedFirst(s, m, n)
    ensures StartedFirst(Continue(l, s, more).value, m, n)
    decreases |more|
  {
    if more != [] {
      StepKeepsStartedFirst(l, s, more[0], m, n);
      StepKeepsInv(l, s, more[0]);
      ContinuesStartedFirst(l, Apply(l, s, more[0]), more[1..], m, n);
    }
  }

  /** Of two queued operations the more urgent one is always started first: whatever happens
      next, the other waits until it is. */
  lemma {:induction false} MoreUrgentIsStartedFirst(l: Limits, s: Sys, more: seq<Event>, m: nat, n: nat)
    requires Inv(l, s) && Continue(l, s, more).Some?
    requires m < |s.subs| && s.subs[m].stage.Queued? && n < |s.subs| && s.subs[n].stage.Queued?
    requires MoreUrgent(s, m, n)
    ensures var s' := Continue(l, s, more).value;
            || StartedFirst(s', m, n)
            || (n < |s'.subs| && m < |s'.subs| && s'.subs[m].stage.Queued? && s'.subs[n].stage.Queued?)
    decreases |more|
  {
    if more != [] {
      var s1 := Apply(l, s, more[0]);
      Waiting(l, s, more[0], m, n);
      StepKeepsInv(l, s, more[0]);
      if s1.subs[m].stage.Queued? {
        MoreUrgentIsStartedFirst(l, s1, more[1..], m, n);
      } else {
        assert s1.started[|s.started|] == m;
        assert StageOk(s1, n);
        ContinuesStartedFirst(l, s1, more[1..], m, n);
      }
    }
  }

  // ----- submissions as they were made -----

  function Submits(events: seq<Event>): seq<int> {
    if events == [] then []
    else
      var e := events[|events| - 1];
      Submits(events[..|events| - 1]) + if e.Submit? then [e.priority] else []
  }

  /** Submissions are numbered in the order they are made, and each keeps its priority. */
  lemma {:induction false} PrioritiesAreAsSubmitted(l: Limits, events: seq<Event>)
    requires Run(l, events).Some?
    ensures var s := Run(l, events).value;
            && |s.subs| == |Submits(events)|
            && forall n :: 0 <= n < |s.subs| ==> s.subs[n].priority == Submits(events)[n]
  {
    if events != [] {
      var before, e := events[..|events| - 1], events[|events| - 1];
      PrioritiesAreAsSubmitted(l, before);
      var s := Run(l, before).value;
      forall n | 0 <= n < |s.subs|
        ensures n < |Apply(l, s, e).subs| && Apply(l, s, e).subs[n].priority == s.subs[n].priority
      {
        SubmissionStays(l, s, e, n);
      }
    }
  }

  /** A submission enters the queue at once if there is room, and otherwise waits for it. */
  lemma SubmitEntersIfThereIsRoom(l: Limits, s: Sys, priority: int)
    requires Inv(l, s)
    ensures var s' := Apply(l, s, Submit(priority));
            var n := |s.subs|;
            && |s'.subs| == n + 1 && s'.subs[..n] == s.subs
            && (|s.queue| < l.maxQueue ==> s'.subs[n].stage.Queued? && s'.queue == s.queue + {n})
            && (|s.queue| >= l.maxQueue ==> s'.subs[n].stage.Blocked? && s'.queue == s.queue)
  {
  }

  // ----- drain, in terms of the run -----

  lemma {:induction false} DrainRemembers(l: Limits, events: seq<Event>, j: nat, d: nat)
    requires Run(l, events).Some? && j < |events| && events[j] == CallDrain(d)
    ensures Run(l, events[..j]).Some? && d in Run(l, events).value.drains
    ensures Run(l, events).value.drains[d].before == Enqueued(Run(l, events[..j]).value)
  {
    PrefixRuns(l, events, j);
    var n := |events| - 1;
    if j < n {
      DrainRemembers(l, events[..n], j, d);
      assert events[..n][..j] == events[..j];
      DrainStays(l, Run(l, events[..n]).value, events[n], d);
    }
  }

  lemma {:induction false} DrainStays(l: Limits, s: Sys, e: Event, d: nat)
    requires Enabled(l, s, e) && d in s.drains
    ensures d in Apply(l, s, e).drains && Apply(l, s, e).drains[d].before == s.drains[d].before
  {
  }

  /** Whatever was enqueued when a drain was called has its outcome once the drain returns. */
  lemma {:induction false} DrainCoversWhatWasEnqueued(l: Limits, events: seq<Event>, j: nat, d: nat, n: nat)
    requires Run(l, events).Some? && j < |events| && events[j] == CallDrain(d)
    requires d in Run(l, events).value.drains && Run(l, events).value.drains[d].released
    requires Run(l, events[..j]).Some? && n < |Run(l, events[..j]).value.subs|
    requires !Run(l, events[..j]).value.subs[n].stage.Blocked?
    ensures n < |Run(l, events).value.subs| && Run(l, events).value.subs[n].future.Some?
  {
    DrainRemembers(l, events, j, d);
    DrainWaitsForAll(l, events, d);
    assert n in Run(l, events).value.drains[d].before;
  }

  // ----- everything can finish -----

  /** Steps a submission still has before it. */
  function Ahead(stage: Stage): nat {
    match stage
    case Blocked => 3
    case Queued => 2
    case RunningOn(_) => 1
    case Finished => 0
  }

  function AllAhead(subs: seq<Submission>): nat {
    if subs == [] then 0 else AllAhead(subs[..|subs| - 1]) + Ahead(subs[|subs| - 1].stage)
  }

  lemma {:induction false} AllAheadAfterUpdate(subs: seq<Submission>, n: nat, sub: Submission)
    requires n < |subs|
    ensures AllAhead(subs[n := sub]) == AllAhead(subs) - Ahead(subs[n].stage) + Ahead(sub.stage)
    decreases |subs|
  {
    var last := |subs| - 1;
    if n < last {
      assert subs[n := sub][..last] == subs[..last][n := sub];
      AllAheadAfterUpdate(subs[..last], n, sub);
    } else {
      assert subs[n := sub][..last] == subs[..last];
    }
  }

  lemma {:induction false} NothingAhead(subs: seq<Submission>)
    ensures AllAhead(subs) == 0 <==> forall n :: 0 <= n < |subs| ==> subs[n].stage.Finished?
  {
    if subs != [] {
      NothingAhead(subs[..|subs| - 1]);
      assert subs == subs[..|subs| - 1] + [subs[|subs| - 1]];
    }
  }

  /** While a submission is unfinished, some worker can finish or take an operation, or one that
      is blocked can enter the queue. */
  lemma {:induction false} SomethingCanHappen(l: Limits, s: Sys, n: nat) returns (e: Event)
    requires Inv(l, s) && l.workers >= 1 && l.maxQueue >= 1
    requires n < |s.subs| && !s.subs[n].stage.Finished?
    ensures Enabled(l, s, e) && (e.Finish? || e.Take? || e.Unblock?)
  {
    assert StageOk(s, n);
    if s.running != map[] {
      var w :| w in s.running;
      e := Finish(w, Returned(0));
    } else if s.queue != {} {
      var first := SomethingIsFirst(s, s.queue);
      e := Take(0, first);
    } else {
      e := Unblock(n);
    }
  }

  lemma {:induction false} StepIsProgress(l: Limits, s: Sys, e: Event)
    requires Inv(l, s) && Enabled(l, s, e) && (e.Finish? || e.Take? || e.Unblock?)
    ensures |Apply(l, s, e).subs| == |s.subs| && AllAhead(Apply(l, s, e).subs) < AllAhead(s.subs)
  {
    var n := if e.Finish? then s.running[e.worker] else e.n;
    assert StageOk(s, n);
    AllAheadAfterUpdate(s.subs, n, Apply(l, s, e).subs[n]);
    assert Apply(l, s, e).subs == s.subs[n := Apply(l, s, e).subs[n]];
  }

  /** The same submissions, and at least the same drains. */
  ghost predicate Continues(s: Sys, s': Sys) {
    |s'.subs| == |s.subs| && s.drains.Keys <= s'.drains.Keys
  }

  /** Every operation has its outcome and every drain is released. */
  ghost predicate AllDone(s: Sys) {
    && (forall n :: 0 <= n < |s.subs| ==> s.subs[n].future.Some?)
    && (forall d :: d in s.drains ==> s.drains[d].released)
  }

  lemma {:induction false} OneStepNearer(l: Limits, events: seq<Event>, n: nat) returns (e: Event)
    requires Run(l, events).Some? && l.workers >= 1 && l.maxQueue >= 1
    requires n < |Run(l, events).value.subs| && !Run(l, events).value.subs[n].stage.Finished?
    ensures Run(l, events + [e]).Some?
    ensures AllAhead(Run(l, events + [e]).value.subs) < AllAhead(Run(l, events).value.subs)
    ensures Continues(Run(l, events).value, Run(l, events + [e]).value)
  {
    ReachableInv(l, events);
    e := SomethingCanHappen(l, Run(l, events).value, n);
    StepIsProgress(l, Run(l, events).value, e);
    assert (events + [e])[..|events|] == events;
  }

  lemma {:induction false} Unfinished(s: Sys) returns (n: nat)
    requires exists n :: 0 <= n < |s.subs| && !s.subs[n].stage.Finished?
    ensures n < |s.subs| && !s.subs[n].stage.Finished?
  {
    n :| 0 <= n < |s.subs| && !s.subs[n].stage.Finished?;
  }

  /** The run can go on like this until everything is done. */
  ghost predicate FinishesBy(l: Limits, events: seq<Event>, more: seq<Event>) {
    && Run(l, events).Some? && Run(l, events + more).Some?
    && Continues(Run(l, events).value, Run(l, events + more).value)
    && AllDone(Run(l, events + more).value)
  }

  lemma {:induction false} FinishesOneLater(l: Limits, events: seq<Event>, e: Event, rest: seq<Event>)
    requires Run(l, events).Some? && FinishesBy(l, events + [e], rest)
    requires Continues(Run(l, events).value, Run(l, events + [e]).value)
    ensures FinishesBy(l, events, [e] + rest)
  {
    assert events + [e] + rest == events + ([e] + rest);
  }

  /** No deadlock: from every state the scheduler can get into, it can go on until each operation
      submitted so far has its outcome and every drain is released. */
  lemma {:induction false} EverythingCanFinish(l: Limits, events: seq<Event>) returns (more: seq<Event>)
    requires Run(l, events).Some? && l.workers >= 1 && l.maxQueue >= 1
    ensures FinishesBy(l, events, more)
    decreases AllAhead(Run(l, events).value.subs)
  {
    NothingAhead(Run(l, events).value.subs);
    if AllAhead(Run(l, events).value.subs) == 0 {
      more := [];
      assert events + more == events;
      AllFinished(l, events);
    } else {
      var n := Unfinished(Run(l, events).value);
      var e := OneStepNearer(l, events, n);
      var rest := EverythingCanFinish(l, events + [e]);
      FinishesOneLater(l, events, e, rest);
      more := [e] + rest;
    }
  }

  lemma {:induction false} AllFinished(l: Limits, events: seq<Event>)
    requires Run(l, events).Some?
    requires forall n :: 0 <= n < |Run(l, events).value.subs| ==> Run(l, events).value.subs[n].stage.Finished?
    ensures AllDone(Run(l, events).value)
  {
    var s := Run(l, events).value;
    ReachableInv(l, events);
    forall n | 0 <= n < |s.subs|
      ensures s.subs[n].future.Some? && n !in s.queue
    {
      assert StageOk(s, n);
    }
    assert s.queue == {};
    assert forall w :: w !in s.running;
    assert s.running == map[];
    forall d | d in s.drains
      ensures s.drains[d].released
    {
      DrainWaitsForAll(l, events, d);
    }
  }

  /** A run starts with nothing submitted, and goes on with any step that is possible. */
  lemma RunsStartAndGoOn(l: Limits, events: seq<Event>, e: Event)
    ensures Run(l, []) == Some(Sys([], {}, map[], 0, [], map[]))
    ensures Run(l, events).Some? && Enabled(l, Run(l, events).value, e) ==>
              Run(l, events + [e]) == Some(Apply(l, Run(l, events).value, e))
  {
    assert (events + [e])[..|events|] == events;
  }
}
