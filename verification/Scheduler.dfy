/** The bounded priority scheduler as a step machine.

    Submitters put an operation with its future into a bounded priority queue and wait for
    the future; workers take the smallest (priority, sequence) pair and await the operation,
    which may end in any way; drain waits for the queue's count of unfinished operations to
    reach zero. Each event is a region between awaits. Cancellation is left out. */
module Scheduler {
  import opened Common

  datatype Outcome = Returned(value: int) | Raised(error: string)

  /** Where a submission is: waiting for room, in the queue, with a worker, or done. */
  datatype Stage = Blocked | Queued | RunningOn(worker: nat) | Finished

  /** A submission; its sequence number is its position. `awaits` counts how often its
      operation was awaited, `future` is its future, `putAt` how many operations had been
      started when it entered the queue. */
  datatype Submission = Submission(
    priority: int, stage: Stage, awaits: nat, future: Option<Outcome>, putAt: nat)

  /** A drain call, and how many submissions had been made when it was called. */
  datatype Drain = Drain(before: set<nat>, released: bool)

  datatype Limits = Limits(workers: nat, maxQueue: nat)

  /** `queue` and `running` are the scheduler's own, `unfinished` is the queue's counter. */
  datatype Sys = Sys(
    subs: seq<Submission>,
    queue: set<nat>,
    running: map<nat, nat>,
    unfinished: int,
    started: seq<nat>,
    drains: map<nat, Drain>)

  datatype Event =
    | Submit(priority: int)
    | Unblock(n: nat)
    | Take(worker: nat, n: nat)
    | Finish(worker: nat, outcome: Outcome)
    | CallDrain(caller: nat)

  function Init(): Sys {
    Sys([], {}, map[], 0, [], map[])
  }

  /** The order of the (priority, sequence) pairs. */
  predicate Before(subs: seq<Submission>, a: nat, b: nat)
    requires a < |subs| && b < |subs|
  {
    subs[a].priority < subs[b].priority || (subs[a].priority == subs[b].priority && a < b)
  }

  /** What the heap yields: nothing in the queue comes before it. */
  predicate IsFirst(s: Sys, n: nat) {
    && n in s.queue && n < |s.subs|
    && forall m :: m in s.queue && m < |s.subs| && m != n ==> Before(s.subs, n, m)
  }

  predicate Enabled(l: Limits, s: Sys, e: Event) {
    match e
    case Submit(_) => true
    case Unblock(n) => n < |s.subs| && s.subs[n].stage.Blocked? && |s.queue| < l.maxQueue
    case Take(w, n) => w < l.workers && w !in s.running && IsFirst(s, n)
    case Finish(w, _) => w in s.running && s.running[w] < |s.subs|
    case CallDrain(caller) => caller !in s.drains
  }

  function Put(s: Sys, n: nat): Sys
    requires n < |s.subs|
  {
    s.(subs := s.subs[n := s.subs[n].(stage := Queued, putAt := |s.started|)],
       queue := s.queue + {n}, unfinished := s.unfinished + 1)
  }

  /** task_done: when the count reaches zero every waiting drain is released. */
  function TaskDone(s: Sys): Sys {
    var left := s.unfinished - 1;
    s.(unfinished := left,
       drains := if left == 0 then map d | d in s.drains :: s.drains[d].(released := true) else s.drains)
  }

  /** The submissions whose put has completed. */
  function Enqueued(s: Sys): set<nat> {
    set n | 0 <= n < |s.subs| && !s.subs[n].stage.Blocked?
  }

  function Apply(l: Limits, s: Sys, e: Event): Sys
    requires Enabled(l, s, e)
  {
    match e
    case Submit(priority) =>
      var s1 := s.(subs := s.subs + [Submission(priority, Blocked, 0, None, 0)]);
      if |s.queue| < l.maxQueue then Put(s1, |s.subs|) else s1
    case Unblock(n) => Put(s, n)
    case Take(w, n) =>
      var sub := s.subs[n];
      s.(subs := s.subs[n := sub.(stage := RunningOn(w), awaits := sub.awaits + 1)],
         queue := s.queue - {n}, running := s.running[w := n], started := s.started + [n])
    case Finish(w, outcome) =>
      var n := s.running[w];
      TaskDone(s.(subs := s.subs[n := s.subs[n].(stage := Finished, future := Some(outcome))],
                  running := s.running - {w}))
    case CallDrain(caller) =>
      s.(drains := s.drains[caller := Drain(Enqueued(s), s.unfinished == 0)])
  }

  function Run(l: Limits, events: seq<Event>): Option<Sys> {
    if events == [] then Some(Init())
    else
      match Run(l, events[..|events| - 1])
      case None => None
      case Some(s) =>
        if Enabled(l, s, events[|events| - 1]) then Some(Apply(l, s, events[|events| - 1])) else None
  }

  // ----- the invariant -----

  /** Queue and workers agree with the stage, and operation and future with both. */
  ghost predicate StageOk(s: Sys, n: nat)
    requires n < |s.subs|
  {
    var sub := s.subs[n];
    && (n in s.queue <==> sub.stage.Queued?)
    && (sub.stage.RunningOn? ==> sub.stage.worker in s.running && s.running[sub.stage.worker] == n)
    && sub.awaits == (if sub.stage.Blocked? || sub.stage.Queued? then 0 else 1)
    && (sub.future.Some? <==> sub.stage.Finished?)
  }

  ghost predicate WorkersOk(l: Limits, s: Sys) {
    forall w :: w in s.running ==>
      && w < l.workers
      && s.running[w] < |s.subs|
      && s.subs[s.running[w]].stage == RunningOn(w)
  }

  ghost predicate Counted(l: Limits, s: Sys) {
    && |s.queue| <= l.maxQueue
    && (forall n :: n in s.queue ==> n < |s.subs|)
    && s.unfinished == |s.queue| + |s.running|
  }

  ghost predicate Inv(l: Limits, s: Sys) {
    && (forall n :: 0 <= n < |s.subs| ==> StageOk(s, n))
    && WorkersOk(l, s)
    && Counted(l, s)
  }

  /** The submission an event is about. */
  predicate Concerns(s: Sys, e: Event, n: nat) {
    match e
    case Submit(_) => n == |s.subs|
    case Unblock(m) => m == n
    case Take(_, m) => m == n
    case Finish(w, _) => w in s.running && s.running[w] == n
    case CallDrain(_) => false
  }

  lemma {:induction false} OthersStay(l: Limits, s: Sys, e: Event, n: nat)
    requires Enabled(l, s, e) && n < |s.subs| && !Concerns(s, e, n)
    ensures n < |Apply(l, s, e).subs| && Apply(l, s, e).subs[n] == s.subs[n]
    ensures n in Apply(l, s, e).queue <==> n in s.queue
    ensures forall w :: w in s.running && s.running[w] == n ==>
              w in Apply(l, s, e).running && Apply(l, s, e).running[w] == n
  {
  }

  lemma {:induction false} PutKeepsStage(s: Sys, n: nat)
    requires n < |s.subs| && s.subs[n].stage.Blocked? && StageOk(s, n)
    ensures StageOk(Put(s, n), n)
  {
  }

  lemma {:induction false} OwnStage(l: Limits, s: Sys, e: Event, n: nat)
    requires Inv(l, s) && Enabled(l, s, e) && n < |Apply(l, s, e).subs| && Concerns(s, e, n)
    ensures StageOk(Apply(l, s, e), n)
  {
    assert n < |s.subs| ==> StageOk(s, n);
    match e
    case Submit(priority) =>
      var s1 := s.(subs := s.subs + [Submission(priority, Blocked, 0, None, 0)]);
      assert StageOk(s1, n);
      PutKeepsStage(s1, n);
    case Unblock(_) => PutKeepsStage(s, n);
    case Take(_, _) =>
    case Finish(_, _) =>
    case CallDrain(_) =>
  }

  lemma {:induction false} StepKeepsStage(l: Limits, s: Sys, e: Event, n: nat)
    requires Inv(l, s) && Enabled(l, s, e) && n < |Apply(l, s, e).subs|
    ensures StageOk(Apply(l, s, e), n)
  {
    if Concerns(s, e, n) {
      OwnStage(l, s, e, n);
    } else {
      OthersStay(l, s, e, n);
      assert StageOk(s, n);
    }
  }

  lemma {:induction false} StepKeepsWorkers(l: Limits, s: Sys, e: Event)
    requires Inv(l, s) && Enabled(l, s, e)
    ensures WorkersOk(l, Apply(l, s, e))
  {
    var s' := Apply(l, s, e);
    forall w | w in s'.running
      ensures w < l.workers && s'.running[w] < |s'.subs| && s'.subs[s'.running[w]].stage == RunningOn(w)
    {
      WorkerStepsOn(l, s, e, w);
    }
  }

  lemma {:induction false} WorkerStepsOn(l: Limits, s: Sys, e: Event, w: nat)
    requires Inv(l, s) && Enabled(l, s, e) && w in Apply(l, s, e).running
    ensures var s' := Apply(l, s, e);
            w < l.workers && s'.running[w] < |s'.subs| && s'.subs[s'.running[w]].stage == RunningOn(w)
  {
    if e.Take? && e.worker == w {
      assert StageOk(s, e.n);
    } else {
      assert w in s.running;
      var n := s.running[w];
      assert StageOk(s, n);
      assert !Concerns(s, e, n);
      OthersStay(l, s, e, n);
    }
  }

  lemma {:induction false} RunningSizes(running: map<nat, nat>, w: nat, n: nat)
    ensures w !in running ==> |running[w := n]| == |running| + 1
    ensures w in running ==> |running - {w}| == |running| - 1
  {
    assert running[w := n].Keys == running.Keys + {w};
    assert (running - {w}).Keys == running.Keys - {w};
  }

  lemma {:induction false} PutKeepsCount(l: Limits, s: Sys, n: nat)
    requires Counted(l, s) && n < |s.subs| && n !in s.queue && |s.queue| < l.maxQueue
    ensures Counted(l, Put(s, n))
  {
  }

  lemma {:induction false} StepKeepsCount(l: Limits, s: Sys, e: Event)
    requires Inv(l, s) && Enabled(l, s, e)
    ensures Counted(l, Apply(l, s, e))
  {
    match e
    case Submit(priority) =>
      var s1 := s.(subs := s.subs + [Submission(priority, Blocked, 0, None, 0)]);
      if |s.queue| < l.maxQueue {
        PutKeepsCount(l, s1, |s.subs|);
      }
    case Unblock(n) =>
      assert StageOk(s, n);
      PutKeepsCount(l, s, n);
    case Finish(w, _) => RunningSizes(s.running, w, 0);
    case Take(w, n) => RunningSizes(s.running, w, n);
    case CallDrain(_) =>
  }

  lemma {:induction false} StepKeepsInv(l: Limits, s: Sys, e: Event)
    requires Inv(l, s) && Enabled(l, s, e)
    ensures Inv(l, Apply(l, s, e))
  {
    forall n | 0 <= n < |Apply(l, s, e).subs|
      ensures StageOk(Apply(l, s, e), n)
    {
      StepKeepsStage(l, s, e, n);
    }
    StepKeepsWorkers(l, s, e);
    StepKeepsCount(l, s, e);
  }

  lemma {:induction false} ReachableInv(l: Limits, events: seq<Event>)
    requires Run(l, events).Some?
    ensures Inv(l, Run(l, events).value)
  {
    if events != [] {
      ReachableInv(l, events[..|events| - 1]);
      StepKeepsInv(l, Run(l, events[..|events| - 1]).value, events[|events| - 1]);
    }
  }

  // ----- the bounds -----

  lemma {:induction false} SmallNumbers(ns: set<nat>, bound: nat)
    requires forall n :: n in ns ==> n < bound
    ensures |ns| <= bound
  {
    if bound == 0 {
      assert ns == {};
    } else {
      SmallNumbers(ns - {bound - 1}, bound - 1);
    }
  }

  /** In every interleaving the queue holds at most max_queue operations, at most `workers`
      run, the unfinished count is exactly the queued plus the running ones, each operation
      is awaited at most once, and a future is resolved exactly when its own operation is
      over. */
  lemma {:induction false} SchedulerBounds(l: Limits, events: seq<Event>)
    requires Run(l, events).Some?
    ensures var s := Run(l, events).value;
            && |s.queue| <= l.maxQueue
            && |s.running| <= l.workers
            && s.unfinished == |s.queue| + |s.running|
            && (forall n :: 0 <= n < |s.subs| ==>
                  && s.subs[n].awaits <= 1
                  && (s.subs[n].future.Some? <==> s.subs[n].stage.Finished?)
                  && (s.subs[n].future.Some? ==> s.subs[n].awaits == 1))
  {
    ReachableInv(l, events);
    var s := Run(l, events).value;
    SmallNumbers(s.running.Keys, l.workers);
    assert |s.running.Keys| == |s.running|;
    forall n | 0 <= n < |s.subs|
      ensures s.subs[n].awaits <= 1 && (s.subs[n].future.Some? <==> s.subs[n].stage.Finished?)
      ensures s.subs[n].future.Some? ==> s.subs[n].awaits == 1
    {
      assert StageOk(s, n);
    }
  }

  /** A step resolves at most the future of the operation that finished, and never changes
      one that is resolved: each future is resolved once, with its own outcome. */
  lemma {:induction false} FuturesAreResolvedOnce(l: Limits, events: seq<Event>, e: Event, n: nat)
    requires Run(l, events).Some? && Enabled(l, Run(l, events).value, e)
    requires n < |Run(l, events).value.subs|
    ensures var s := Run(l, events).value;
            var s' := Apply(l, s, e);
            if e.Finish? && s.running[e.worker] == n
            then s.subs[n].future.None? && s'.subs[n].future == Some(e.outcome)
            else s'.subs[n].future == s.subs[n].future
  {
    ReachableInv(l, events);
    assert StageOk(Run(l, events).value, n);
  }

  function Below(n: nat): (r: set<nat>)
    ensures forall m: nat :: m in r <==> m < n
  {
    if n == 0 then {} else Below(n - 1) + {n - 1}
  }

  // ----- overtaking -----

  /** While n waits in the queue, only operations that come before it are started. */
  ghost predicate OnlyEarlierSince(s: Sys, n: nat)
    requires n < |s.subs|
  {
    s.subs[n].stage.Queued? ==>
      && s.subs[n].putAt <= |s.started|
      && forall k :: s.subs[n].putAt <= k < |s.started| ==>
           s.started[k] < |s.subs| && Before(s.subs, s.started[k], n)
  }

  /** No operation is started twice. */
  ghost predicate StartedOnce(s: Sys) {
    && (forall k :: 0 <= k < |s.started| ==> s.started[k] < |s.subs| && s.subs[s.started[k]].awaits > 0)
    && (forall j, k :: 0 <= j < k < |s.started| ==> s.started[j] != s.started[k])
  }

  lemma {:induction false} SubmissionStays(l: Limits, s: Sys, e: Event, n: nat)
    requires Enabled(l, s, e) && n < |s.subs|
    ensures n < |Apply(l, s, e).subs|
    ensures Apply(l, s, e).subs[n].priority == s.subs[n].priority
    ensures Apply(l, s, e).subs[n].awaits >= s.subs[n].awaits
  {
    if !Concerns(s, e, n) {
      OthersStay(l, s, e, n);
    }
  }

  lemma {:induction false} StartedGrows(l: Limits, s: Sys, e: Event)
    requires Enabled(l, s, e)
    ensures Apply(l, s, e).started == s.started + if e.Take? then [e.n] else []
  {
  }

  lemma {:induction false} EntersBehind(l: Limits, s: Sys, e: Event, n: nat)
    requires Inv(l, s) && Enabled(l, s, e) && n < |Apply(l, s, e).subs|
    requires Apply(l, s, e).subs[n].stage.Queued?
    ensures !Concerns(s, e, n) ==> n < |s.subs| && s.subs[n] == Apply(l, s, e).subs[n]
    ensures Concerns(s, e, n) ==> Apply(l, s, e).subs[n].putAt == |Apply(l, s, e).started|
  {
    assert n < |s.subs| ==> StageOk(s, n);
  }

  lemma {:induction false} StepKeepsOrder(l: Limits, s: Sys, e: Event, n: nat)
    requires Inv(l, s) && Enabled(l, s, e) && n < |Apply(l, s, e).subs|
    requires n < |s.subs| ==> OnlyEarlierSince(s, n)
    ensures OnlyEarlierSince(Apply(l, s, e), n)
  {
    if Apply(l, s, e).subs[n].stage.Queued? {
      EntersBehind(l, s, e, n);
      StartedGrows(l, s, e);
      forall m | 0 <= m < |s.subs|
        ensures m < |Apply(l, s, e).subs| && Apply(l, s, e).subs[m].priority == s.subs[m].priority
      {
        SubmissionStays(l, s, e, m);
      }
      if !Concerns(s, e, n) && e.Take? {
        assert StageOk(s, n);
        assert Before(s.subs, e.n, n);
      }
    }
  }

  lemma {:induction false} StepKeepsStartedOnce(l: Limits, s: Sys, e: Event)
    requires Inv(l, s) && Enabled(l, s, e) && StartedOnce(s)
    ensures StartedOnce(Apply(l, s, e))
  {
    var s' := Apply(l, s, e);
    StartedGrows(l, s, e);
    forall n | 0 <= n < |s.subs|
      ensures n < |s'.subs| && s'.subs[n].awaits >= s.subs[n].awaits
    {
      SubmissionStays(l, s, e, n);
    }
    if e.Take? {
      assert StageOk(s, e.n);
    }
  }

  lemma {:induction false} ReachableOrder(l: Limits, events: seq<Event>)
    requires Run(l, events).Some?
    ensures StartedOnce(Run(l, events).value)
    ensures forall n :: 0 <= n < |Run(l, events).value.subs| ==> OnlyEarlierSince(Run(l, events).value, n)
  {
    if events != [] {
      var before, e := events[..|events| - 1], events[|events| - 1];
      ReachableOrder(l, before);
      ReachableInv(l, before);
      var s := Run(l, before).value;
      StepKeepsStartedOnce(l, s, e);
      forall n | 0 <= n < |Apply(l, s, e).subs|
        ensures OnlyEarlierSince(Apply(l, s, e), n)
      {
        StepKeepsOrder(l, s, e, n);
      }
    }
  }

  /** Overtaking: every operation started while n waits in the queue has a strictly higher
      priority or the same priority and an earlier sequence number. If nothing submitted is
      more urgent than n, that is at most as many as there are earlier submissions. */
  lemma {:induction false} OvertakenOnlyByEarlier(l: Limits, events: seq<Event>, n: nat)
    requires Run(l, events).Some?
    requires n < |Run(l, events).value.subs| && Run(l, events).value.subs[n].stage.Queued?
    ensures var s := Run(l, events).value;
            && s.subs[n].putAt <= |s.started|
            && (forall k :: s.subs[n].putAt <= k < |s.started| ==>
                  var m := s.started[k];
                  m < |s.subs| && (s.subs[m].priority < s.subs[n].priority
                                   || (s.subs[m].priority == s.subs[n].priority && m < n)))
            && ((forall m :: 0 <= m < |s.subs| ==> s.subs[m].priority >= s.subs[n].priority) ==>
                  |s.started| - s.subs[n].putAt <= n)
  {
    ReachableOrder(l, events);
    var s := Run(l, events).value;
    assert OnlyEarlierSince(s, n);
    if forall m :: 0 <= m < |s.subs| ==> s.subs[m].priority >= s.subs[n].priority {
      var since := s.started[s.subs[n].putAt..];
      var numbers := Below(n);
      SmallNumbers(numbers, n);
      forall k | 0 <= k < |since|
        ensures since[k] in numbers
      {
        assert since[k] == s.started[s.subs[n].putAt + k];
      }
      DistinctSeqFitsInSet(since, numbers);
    }
  }

  // ----- drain -----

  /** A released drain leaves nothing behind that was enqueued before it was called. */
  ghost predicate DrainOk(s: Sys, d: nat)
    requires d in s.drains
  {
    && (forall n :: n in s.drains[d].before ==> n < |s.subs| && !s.subs[n].stage.Blocked?)
    && (s.drains[d].released ==>
          forall n :: n in s.drains[d].before ==> n < |s.subs| && s.subs[n].stage.Finished?)
    && (s.unfinished == 0 ==> s.drains[d].released)
  }

  lemma {:induction false} ZeroMeansAllFinished(l: Limits, s: Sys, n: nat)
    requires Inv(l, s) && s.unfinished == 0
    requires n < |s.subs| && !s.subs[n].stage.Blocked?
    ensures s.subs[n].stage.Finished?
  {
    assert StageOk(s, n);
    assert s.queue == {};
    assert |s.running.Keys| == 0;
  }

  lemma {:induction false} BeforeStaysEnqueued(l: Limits, s: Sys, e: Event, d: nat)
    requires Inv(l, s) && Enabled(l, s, e) && d in Apply(l, s, e).drains
    requires d in s.drains ==> DrainOk(s, d)
    ensures forall n :: n in Apply(l, s, e).drains[d].before ==>
              n < |Apply(l, s, e).subs| && !Apply(l, s, e).subs[n].stage.Blocked?
  {
  }

  /** A step that does not bring the count to zero releases nobody. */
  lemma {:induction false} NobodyReleased(l: Limits, s: Sys, e: Event, d: nat)
    requires Inv(l, s) && Enabled(l, s, e) && d in Apply(l, s, e).drains
    requires Apply(l, s, e).unfinished != 0 && Apply(l, s, e).drains[d].released
    ensures d in s.drains && s.drains[d].released && Apply(l, s, e).drains[d].before == s.drains[d].before
  {
  }

  lemma {:induction false} FinishedStays(l: Limits, s: Sys, e: Event, n: nat)
    requires Inv(l, s) && Enabled(l, s, e) && n < |s.subs| && s.subs[n].stage.Finished?
    ensures n < |Apply(l, s, e).subs| && Apply(l, s, e).subs[n] == s.subs[n]
  {
    assert StageOk(s, n);
    OthersStay(l, s, e, n);
  }

  lemma {:induction false} ReleasedStaysFinished(l: Limits, s: Sys, e: Event, d: nat)
    requires Inv(l, s) && Enabled(l, s, e) && d in Apply(l, s, e).drains
    requires d in s.drains ==> DrainOk(s, d)
    requires Apply(l, s, e).unfinished != 0 && Apply(l, s, e).drains[d].released
    ensures d in s.drains && s.drains[d].released && Apply(l, s, e).drains[d].before == s.drains[d].before
    ensures forall n :: n in s.drains[d].before ==>
              n < |Apply(l, s, e).subs| && Apply(l, s, e).subs[n].stage.Finished?
  {
    NobodyReleased(l, s, e, d);
    forall n | n in s.drains[d].before
      ensures n < |Apply(l, s, e).subs| && Apply(l, s, e).subs[n].stage.Finished?
    {
      FinishedStays(l, s, e, n);
    }
  }

  lemma {:induction false} StepKeepsDrain(l: Limits, s: Sys, e: Event, d: nat)
    requires Inv(l, s) && Enabled(l, s, e) && Inv(l, Apply(l, s, e)) && d in Apply(l, s, e).drains
    requires d in s.drains ==> DrainOk(s, d)
    ensures DrainOk(Apply(l, s, e), d)
  {
    var s' := Apply(l, s, e);
    BeforeStaysEnqueued(l, s, e, d);
    if s'.unfinished == 0 {
      forall n | n in s'.drains[d].before
        ensures s'.subs[n].stage.Finished?
      {
        ZeroMeansAllFinished(l, s', n);
      }
    } else if s'.drains[d].released {
      ReleasedStaysFinished(l, s, e, d);
    }
  }

  /** The step that releases a drain leaves every operation enqueued by then finished, also
      those enqueued after the drain was called. */
  lemma {:induction false} ReleaseMeansAllFinished(l: Limits, events: seq<Event>, e: Event, d: nat, n: nat)
    requires Run(l, events).Some? && Enabled(l, Run(l, events).value, e)
    requires var s, s' := Run(l, events).value, Apply(l, Run(l, events).value, e);
             && d in s'.drains && s'.drains[d].released && !(d in s.drains && s.drains[d].released)
             && n < |s'.subs| && !s'.subs[n].stage.Blocked?
    ensures Apply(l, Run(l, events).value, e).subs[n].stage.Finished?
  {
    var longer := events + [e];
    assert longer[..|longer| - 1] == events;
    ReachableInv(l, longer);
    ZeroMeansAllFinished(l, Apply(l, Run(l, events).value, e), n);
  }

  /** When a drain may return, every operation enqueued before it was called is finished. */
  lemma {:induction false} DrainWaitsForAll(l: Limits, events: seq<Event>, d: nat)
    requires Run(l, events).Some? && d in Run(l, events).value.drains
    ensures DrainOk(Run(l, events).value, d)
    ensures var s := Run(l, events).value;
            s.drains[d].released ==>
              forall n :: n in s.drains[d].before ==> n < |s.subs| && s.subs[n].future.Some?
  {
    if events != [] {
      var before, e := events[..|events| - 1], events[|events| - 1];
      var s := Run(l, before).value;
      if d in s.drains {
        DrainWaitsForAll(l, before, d);
      }
      ReachableInv(l, before);
      ReachableInv(l, events);
      StepKeepsDrain(l, s, e, d);
      var s' := Run(l, events).value;
      forall n | s'.drains[d].released && n in s'.drains[d].before
        ensures n < |s'.subs| && s'.subs[n].future.Some?
      {
        assert n < |s'.subs|;
        assert StageOk(s', n);
      }
    }
  }
}
