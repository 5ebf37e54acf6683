/** What runs and crashes leave of a workflow's history. */
module WorkflowHistory {
  import opened Common
  import opened WorkflowModels
  import opened Workflow

  // ----- the saved state only moves forward -----

  /** The later state continues the earlier one. */
  ghost predicate Extends(before: WorkflowState, after: WorkflowState) {
    && after.request == before.request
    && after.data == before.data
    && before.phaseIndex <= after.phaseIndex
    && before.events <= after.events
  }

  lemma {:induction false} CallExtends(gated: set<Phase>, s: Sys, e: Event, id: nat)
    requires Enabled(s, e) && (e.CallRun? || e.CallResume? || e.CallEscalate?) && e.id == id
    ensures id in s.store && id in Apply(gated, s, e).store && Extends(s.store[id], Apply(gated, s, e).store[id])
    ensures Apply(gated, s, e).store[id].phaseIndex == s.store[id].phaseIndex
  {
  }

  lemma {:induction false} WorkExtends(gated: set<Phase>, s: Sys, e: Event, id: nat)
    requires Enabled(s, e) && About(e, id) && !e.Start? && !e.CallRun? && !e.CallResume? && !e.CallEscalate?
    requires id in s.store && (id in s.drivers ==> DriverShape(gated, s, id))
    ensures id in Apply(gated, s, e).store && Extends(s.store[id], Apply(gated, s, e).store[id])
    ensures Apply(gated, s, e).store[id].phaseIndex <= s.store[id].phaseIndex + 1
  {
  }

  lemma {:induction false} StepExtends(gated: set<Phase>, s: Sys, e: Event, id: nat)
    requires Shape(gated, s) && Enabled(s, e) && id in s.store
    ensures id in Apply(gated, s, e).store && Extends(s.store[id], Apply(gated, s, e).store[id])
    ensures Apply(gated, s, e).store[id].phaseIndex <= s.store[id].phaseIndex + 1
  {
    if !About(e, id) {
      OtherWorkflowsStay(gated, s, e, id);
    } else if e.CallRun? || e.CallResume? || e.CallEscalate? {
      CallExtends(gated, s, e, id);
    } else {
      WorkExtends(gated, s, e, id);
    }
  }

  function Continue(gated: set<Phase>, s: Sys, events: seq<Event>): Option<Sys>
    decreases |events|
  {
    if events == [] then Some(s)
    else if Enabled(s, events[0]) then Continue(gated, Apply(gated, s, events[0]), events[1..])
    else None
  }

  /** From any reachable state on, however the workflow is run, resumed, escalated or crashes:
      the phase index never decreases, each saved event list extends the previous one, and
      request and data stay what they were. */
  lemma {:induction false} HistoryOnlyGrows(gated: set<Phase>, s: Sys, events: seq<Event>, id: nat)
    requires Shape(gated, s) && id in s.store && Continue(gated, s, events).Some?
    ensures id in Continue(gated, s, events).value.store
    ensures Extends(s.store[id], Continue(gated, s, events).value.store[id])
    decreases |events|
  {
    if events != [] {
      StepExtends(gated, s, events[0], id);
      StepKeepsShape(gated, s, events[0]);
      HistoryOnlyGrows(gated, Apply(gated, s, events[0]), events[1..], id);
    }
  }

  // ----- terminal states -----

  predicate Terminal(s: Status) {
    s.Completed? || s.Failed? || s.Escalated?
  }

  /** One step changes a finished workflow exactly when it is a call of escalate for it. */
  lemma {:induction false} TerminalChangesOnlyByEscalation(gated: set<Phase>, s: Sys, e: Event, id: nat)
    requires Shape(gated, s) && Enabled(s, e)
    requires id in s.store && Terminal(s.store[id].status)
    ensures Apply(gated, s, e).store[id] != s.store[id] <==> e.CallEscalate? && e.id == id
    ensures Terminal(Apply(gated, s, e).store[id].status)
  {
    if About(e, id) {
      assert id in s.drivers ==> DriverShape(gated, s, id);
    } else {
      OtherWorkflowsStay(gated, s, e, id);
    }
    if e.CallEscalate? && e.id == id {
      assert |Apply(gated, s, e).store[id].events| == |s.store[id].events| + 1;
    }
  }

  lemma {:induction false} TerminalExecutesNothing(gated: set<Phase>, s: Sys, e: Event, id: nat)
    requires Shape(gated, s) && Enabled(s, e)
    requires id in s.store && Terminal(s.store[id].status)
    ensures Executions(Apply(gated, s, e).log, id) == Executions(s.log, id)
  {
    LogGrowsByOne(gated, s, e, id);
    assert id in s.drivers ==> DriverShape(gated, s, id);
  }

  /** So over any continuation without an escalate call, a finished workflow keeps its row
      and executes nothing. */
  lemma {:induction false} TerminalIsAbsorbing(gated: set<Phase>, s: Sys, events: seq<Event>, id: nat)
    requires Shape(gated, s) && id in s.store && Terminal(s.store[id].status)
    requires Continue(gated, s, events).Some?
    requires forall i :: 0 <= i < |events| ==> !(events[i].CallEscalate? && events[i].id == id)
    ensures var s' := Continue(gated, s, events).value;
            && id in s'.store && s'.store[id] == s.store[id]
            && Executions(s'.log, id) == Executions(s.log, id)
    decreases |events|
  {
    if events != [] {
      StepExtends(gated, s, events[0], id);
      TerminalChangesOnlyByEscalation(gated, s, events[0], id);
      TerminalExecutesNothing(gated, s, events[0], id);
      StepKeepsShape(gated, s, events[0]);
      TerminalIsAbsorbing(gated, Apply(gated, s, events[0]), events[1..], id);
    }
  }

  // ----- which phases were executed -----

  /** The phase indices executed for a workflow, in order. */
  function Executions(log: seq<Mark>, id: nat): seq<nat> {
    if log == [] then []
    else
      var m := log[|log| - 1];
      Executions(log[..|log| - 1], id) + if m.Executed? && m.id == id then [m.index] else []
  }

  /** The phase indices whose result was recorded, in order. */
  function Recorded(log: seq<Mark>, id: nat): seq<nat> {
    if log == [] then []
    else
      var m := log[|log| - 1];
      Recorded(log[..|log| - 1], id) + if m.Advanced? && m.id == id then [m.index] else []
  }

  /** Executions whose result was lost: the operation raised, or the process crashed. */
  function Losses(log: seq<Mark>, id: nat): nat {
    if log == [] then 0
    else
      var m := log[|log| - 1];
      Losses(log[..|log| - 1], id) +
      if (m.Lost? && m.id == id) || (m.Crashed? && id in m.executing) then 1 else 0
  }

  function UpTo(n: nat): seq<nat> {
    seq(n, i => i)
  }

  /** Starts at 0, and each element repeats the one before or exceeds it by one. */
  ghost predicate Stairs(t: seq<nat>) {
    && (t != [] ==> t[0] == 0)
    && (forall i :: 0 < i < |t| ==> t[i] == t[i - 1] || t[i] == t[i - 1] + 1)
  }

  predicate IsExecuting(s: Sys, id: nat) {
    id in s.drivers && s.drivers[id].Executing?
  }

  /** How the traces of a workflow relate to its saved phase index p. */
  ghost predicate TraceOk(p: nat, executing: bool, t: seq<nat>, recorded: seq<nat>, losses: nat) {
    && recorded == UpTo(p)
    && Stairs(t)
    && (t == [] ==> p == 0)
    && (t != [] ==> t[|t| - 1] == p || t[|t| - 1] + 1 == p)
    && (executing ==> t != [] && t[|t| - 1] == p)
    && |t| == p + losses + if executing then 1 else 0
  }

  lemma {:induction false} TraceAfterExecution(p: nat, t: seq<nat>, recorded: seq<nat>, losses: nat)
    requires TraceOk(p, false, t, recorded, losses)
    ensures TraceOk(p, true, t + [p], recorded, losses)
  {
  }

  lemma {:induction false} TraceAfterAdvance(p: nat, t: seq<nat>, recorded: seq<nat>, losses: nat)
    requires TraceOk(p, true, t, recorded, losses)
    ensures TraceOk(p + 1, false, t, recorded + [p], losses)
  {
    assert UpTo(p) + [p] == UpTo(p + 1);
  }

  lemma {:induction false} TraceAfterLoss(p: nat, t: seq<nat>, recorded: seq<nat>, losses: nat)
    requires TraceOk(p, true, t, recorded, losses)
    ensures TraceOk(p, false, t, recorded, losses + 1)
  {
  }

  ghost predicate TraceInv(s: Sys, id: nat) {
    var t, recorded, losses := Executions(s.log, id), Recorded(s.log, id), Losses(s.log, id);
    if id in s.store then TraceOk(s.store[id].phaseIndex, IsExecuting(s, id), t, recorded, losses)
    else t == [] && recorded == [] && losses == 0
  }

  lemma {:induction false} LogGrowsByOne(gated: set<Phase>, s: Sys, e: Event, id: nat)
    requires Enabled(s, e)
    ensures var s' := Apply(gated, s, e);
            if s'.log == s.log then true
            else
              var m := s'.log[|s'.log| - 1];
              && s'.log == s.log + [m]
              && Executions(s'.log, id) == Executions(s.log, id) + (if m.Executed? && m.id == id then [m.index] else [])
              && Recorded(s'.log, id) == Recorded(s.log, id) + (if m.Advanced? && m.id == id then [m.index] else [])
              && Losses(s'.log, id) == Losses(s.log, id)
                   + if (m.Lost? && m.id == id) || (m.Crashed? && id in m.executing) then 1 else 0
  {
    var s' := Apply(gated, s, e);
    if s'.log != s.log {
      assert s'.log[..|s'.log| - 1] == s.log;
    }
  }

  predicate Quiet(e: Event) {
    e.CallRun? || e.CallResume? || e.CallEscalate? || e.BeginRun? || e.Checkpoint?
  }

  lemma {:induction false} QuietStepChangesNoTrace(gated: set<Phase>, s: Sys, e: Event, id: nat)
    requires Shape(gated, s) && Enabled(s, e) && Quiet(e)
    ensures var s' := Apply(gated, s, e);
            && (id in s'.store <==> id in s.store)
            && (id in s.store ==> s'.store[id].phaseIndex == s.store[id].phaseIndex)
            && (IsExecuting(s', id) <==> IsExecuting(s, id))
            && Executions(s'.log, id) == Executions(s.log, id)
            && Recorded(s'.log, id) == Recorded(s.log, id)
            && Losses(s'.log, id) == Losses(s.log, id)
  {
    LogGrowsByOne(gated, s, e, id);
    if About(e, id) {
      assert id in s.drivers ==> DriverShape(gated, s, id);
    } else {
      OtherWorkflowsStay(gated, s, e, id);
    }
  }

  lemma {:induction false} StartKeepsTrace(gated: set<Phase>, s: Sys, e: Event, id: nat)
    requires Shape(gated, s) && Enabled(s, e) && TraceInv(s, id) && e.Start?
    ensures TraceInv(Apply(gated, s, e), id)
  {
    assert id in s.drivers ==> DriverShape(gated, s, id);
  }

  /** A mark is about the workflow its step is about. */
  lemma {:induction false} MarkIsOwn(gated: set<Phase>, s: Sys, e: Event)
    requires Enabled(s, e) && Apply(gated, s, e).log != s.log && !e.Crash?
    ensures var log := Apply(gated, s, e).log;
            !e.Start? && !log[|log| - 1].Crashed? && log[|log| - 1].id == e.id
  {
  }

  lemma {:induction false} OtherLogStays(gated: set<Phase>, s: Sys, e: Event, id: nat)
    requires Enabled(s, e) && !About(e, id)
    ensures var log := Apply(gated, s, e).log;
            && Executions(log, id) == Executions(s.log, id)
            && Recorded(log, id) == Recorded(s.log, id)
            && Losses(log, id) == Losses(s.log, id)
  {
    LogGrowsByOne(gated, s, e, id);
    if Apply(gated, s, e).log != s.log {
      MarkIsOwn(gated, s, e);
    }
  }

  lemma {:induction false} OtherTraceStays(gated: set<Phase>, s: Sys, e: Event, id: nat)
    requires Enabled(s, e) && TraceInv(s, id) && !About(e, id)
    ensures TraceInv(Apply(gated, s, e), id)
  {
    OtherLogStays(gated, s, e, id);
    OtherWorkflowsStay(gated, s, e, id);
  }

  /** What a raising operation or a crash does to a workflow it concerns. */
  lemma {:induction false} OwnLoss(gated: set<Phase>, s: Sys, e: Event, id: nat)
    requires Shape(gated, s) && Enabled(s, e) && About(e, id)
    requires e.OperationFails? || e.OperationEscalates? || e.Crash?
    ensures var s' := Apply(gated, s, e);
            var m := s'.log[|s'.log| - 1];
            && s'.log != s.log && !m.Executed? && !m.Advanced?
            && (id in s'.store <==> id in s.store)
            && (id in s.store ==> s'.store[id].phaseIndex == s.store[id].phaseIndex)
            && !IsExecuting(s', id)
            && (IsExecuting(s, id) <==> (m.Lost? && m.id == id) || (m.Crashed? && id in m.executing))
  {
    assert id in s.drivers ==> DriverShape(gated, s, id);
  }

  lemma {:induction false} OwnLossLog(gated: set<Phase>, s: Sys, e: Event, id: nat)
    requires Shape(gated, s) && Enabled(s, e) && About(e, id)
    requires e.OperationFails? || e.OperationEscalates? || e.Crash?
    ensures var log := Apply(gated, s, e).log;
            && Executions(log, id) == Executions(s.log, id)
            && Recorded(log, id) == Recorded(s.log, id)
            && Losses(log, id) == Losses(s.log, id) + if IsExecuting(s, id) then 1 else 0
  {
    LogGrowsByOne(gated, s, e, id);
    OwnLoss(gated, s, e, id);
  }

  lemma {:induction false} OwnLossKeepsTrace(gated: set<Phase>, s: Sys, e: Event, id: nat)
    requires Shape(gated, s) && Enabled(s, e) && TraceInv(s, id) && About(e, id)
    requires e.OperationFails? || e.OperationEscalates? || e.Crash?
    ensures TraceInv(Apply(gated, s, e), id)
  {
    OwnLossLog(gated, s, e, id);
    OwnLoss(gated, s, e, id);
    if IsExecuting(s, id) && id in s.store {
      TraceAfterLoss(s.store[id].phaseIndex, Executions(s.log, id), Recorded(s.log, id), Losses(s.log, id));
    }
  }

  /** The operation raises, or the process crashes. */
  lemma {:induction false} LossKeepsTrace(gated: set<Phase>, s: Sys, e: Event, id: nat)
    requires Shape(gated, s) && Enabled(s, e) && TraceInv(s, id)
    requires e.OperationFails? || e.OperationEscalates? || e.Crash?
    ensures TraceInv(Apply(gated, s, e), id)
  {
    if About(e, id) {
      OwnLossKeepsTrace(gated, s, e, id);
    } else {
      OtherTraceStays(gated, s, e, id);
    }
  }

  lemma {:induction false} OwnPrepare(gated: set<Phase>, s: Sys, e: Event, id: nat)
    requires Shape(gated, s) && Enabled(s, e) && e.Prepare? && e.id == id
    ensures var s' := Apply(gated, s, e);
            && id in s.store && id in s'.store
            && s'.store[id].phaseIndex == s.store[id].phaseIndex
            && !IsExecuting(s, id)
            && if IsExecuting(s', id) then
                 s'.log != s.log && s'.log[|s'.log| - 1].Executed?
                 && s'.log[|s'.log| - 1].id == id && s'.log[|s'.log| - 1].index == s.store[id].phaseIndex
               else s'.log == s.log
  {
    assert DriverShape(gated, s, id);
  }

  lemma {:induction false} PrepareKeepsTrace(gated: set<Phase>, s: Sys, e: Event, id: nat)
    requires Shape(gated, s) && Enabled(s, e) && TraceInv(s, id) && e.Prepare?
    ensures TraceInv(Apply(gated, s, e), id)
  {
    if e.id != id {
      OtherTraceStays(gated, s, e, id);
    } else {
      LogGrowsByOne(gated, s, e, id);
      OwnPrepare(gated, s, e, id);
      TraceAfterExecution(s.store[id].phaseIndex, Executions(s.log, id), Recorded(s.log, id), Losses(s.log, id));
    }
  }

  lemma {:induction false} ReturnKeepsTrace(gated: set<Phase>, s: Sys, e: Event, id: nat)
    requires Shape(gated, s) && Enabled(s, e) && TraceInv(s, id) && e.OperationReturns?
    ensures TraceInv(Apply(gated, s, e), id)
  {
    if e.id != id {
      OtherTraceStays(gated, s, e, id);
    } else {
      LogGrowsByOne(gated, s, e, id);
      assert DriverShape(gated, s, id);
      TraceAfterAdvance(s.store[id].phaseIndex, Executions(s.log, id), Recorded(s.log, id), Losses(s.log, id));
    }
  }

  lemma {:induction false} ReachableTrace(gated: set<Phase>, events: seq<Event>, id: nat)
    requires Run(gated, events).Some?
    ensures TraceInv(Run(gated, events).value, id)
  {
    if events != [] {
      var before, e := events[..|events| - 1], events[|events| - 1];
      ReachableTrace(gated, before, id);
      ReachableShape(gated, before);
      var s := Run(gated, before).value;
      if e.Prepare? {
        PrepareKeepsTrace(gated, s, e, id);
      } else if e.OperationReturns? {
        ReturnKeepsTrace(gated, s, e, id);
      } else if e.Start? {
        StartKeepsTrace(gated, s, e, id);
      } else if Quiet(e) {
        QuietStepChangesNoTrace(gated, s, e, id);
      } else {
        LossKeepsTrace(gated, s, e, id);
      }
    }
  }

  /** Over all runs with crashes: the phases before the current one have each had their
      result recorded exactly once, in declaration order; and the trace of executions only
      repeats a phase or goes on to the next. */
  lemma {:induction false} PhasesAreRecordedOnceInOrder(gated: set<Phase>, events: seq<Event>, id: nat)
    requires Run(gated, events).Some? && id in Run(gated, events).value.store
    ensures var s := Run(gated, events).value;
            && s.store[id].phaseIndex <= PHASE_COUNT
            && Recorded(s.log, id) == UpTo(s.store[id].phaseIndex)
            && Stairs(Executions(s.log, id))
  {
    ReachableTrace(gated, events, id);
    ReachableShape(gated, events);
    assert StoreShape(gated, Run(gated, events).value, id);
  }

  lemma {:induction false} StairsReachEveryStep(t: seq<nat>, n: nat)
    requires Stairs(t) && t != [] && n <= t[|t| - 1]
    ensures n in t
    decreases |t|
  {
    var k := |t| - 1;
    if t[k] != n {
      assert t[..k] != [] && Stairs(t[..k]);
      StairsReachEveryStep(t[..k], n);
    }
  }

  lemma {:induction false} ShortStairsAreExact(t: seq<nat>)
    requires Stairs(t)
    ensures t != [] ==> t[|t| - 1] <= |t| - 1
    ensures t != [] && t[|t| - 1] == |t| - 1 ==> t == UpTo(|t|)
    decreases |t|
  {
    if |t| > 1 {
      var k := |t| - 1;
      ShortStairsAreExact(t[..k]);
      if t[k] == k {
        assert t == t[..k] + [t[k]];
      }
    }
  }

  lemma {:induction false} CompletedIsAtTheEnd(gated: set<Phase>, events: seq<Event>, id: nat)
    requires Run(gated, events).Some? && id in Run(gated, events).value.store
    requires Run(gated, events).value.store[id].status.Completed?
    ensures var s := Run(gated, events).value;
            s.store[id].phaseIndex == PHASE_COUNT && !IsExecuting(s, id)
  {
    ReachableShape(gated, events);
    var s := Run(gated, events).value;
    assert StoreShape(gated, s, id);
    assert id in s.drivers ==> DriverShape(gated, s, id);
  }

  /** COMPLETED means that every one of the sixteen phases was executed; and if no execution
      was lost, each exactly once in declaration order. */
  lemma {:induction false} CompletedMeansEveryPhaseRan(gated: set<Phase>, events: seq<Event>, id: nat)
    requires Run(gated, events).Some? && id in Run(gated, events).value.store
    requires Run(gated, events).value.store[id].status.Completed?
    ensures var s := Run(gated, events).value;
            && (forall n: nat :: n < PHASE_COUNT ==> n in Executions(s.log, id))
            && (Losses(s.log, id) == 0 ==> Executions(s.log, id) == UpTo(PHASE_COUNT))
  {
    var s := Run(gated, events).value;
    var t := Executions(s.log, id);
    ReachableTrace(gated, events, id);
    CompletedIsAtTheEnd(gated, events, id);
    FullStairs(t, Recorded(s.log, id), Losses(s.log, id));
  }

  lemma {:induction false} FullStairs(t: seq<nat>, recorded: seq<nat>, losses: nat)
    requires TraceOk(PHASE_COUNT, false, t, recorded, losses)
    ensures forall n: nat :: n < PHASE_COUNT ==> n in t
    ensures losses == 0 ==> t == UpTo(PHASE_COUNT)
  {
    forall n: nat | n < PHASE_COUNT
      ensures n in t
    {
      StairsReachEveryStep(t, n);
    }
    ShortStairsAreExact(t);
  }
}
