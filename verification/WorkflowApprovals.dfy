/** Approval safety: what has to have happened before a gated phase executes. */
module WorkflowApprovals {
  import opened Common
  import opened WorkflowModels
  import opened Workflow
  import Security

  /** The approval a workflow has been granted and not yet used. */
  function Pending(s: Sys, id: nat): Option<Security.Approval> {
    if id in s.cache then Some(s.cache[id])
    else if id in s.drivers && s.drivers[id].Ready? then s.drivers[id].approval
    else None
  }

  ghost predicate NotGranted(log: seq<Mark>, r: nat) {
    forall k :: 0 <= k < |log| && log[k].Approved? ==> log[k].requestId != r
  }

  ghost predicate NotUsed(log: seq<Mark>, r: nat) {
    forall k :: 0 <= k < |log| && log[k].Executed? && log[k].approval.Some? ==> log[k].approval.value.requestId != r
  }

  ghost predicate PendingSafe(s: Sys, id: nat) {
    var p := Pending(s, id);
    p.Some? ==>
      && id in s.drivers
      && p.value.status.Approved?
      && Approved(id, s.drivers[id].current.phaseIndex, p.value.requestId) in s.log
      && NotUsed(s.log, p.value.requestId)
  }

  ghost predicate PendingDistinct(s: Sys) {
    forall a, b :: a != b && Pending(s, a).Some? && Pending(s, b).Some? ==>
      Pending(s, a).value.requestId != Pending(s, b).value.requestId
  }

  ghost predicate Waiting(s: Sys, id: nat) {
    id in s.store && s.store[id].status.WaitingApproval? && s.store[id].approval.Some?
  }

  ghost predicate WaitingSafe(s: Sys, id: nat) {
    Waiting(s, id) ==>
      && NotGranted(s.log, s.store[id].approval.value.requestId)
      && NotUsed(s.log, s.store[id].approval.value.requestId)
  }

  ghost predicate WaitingDistinct(s: Sys) {
    forall a, b :: a != b && Waiting(s, a) && Waiting(s, b) ==>
      s.store[a].approval.value.requestId != s.store[b].approval.value.requestId
  }

  ghost predicate LogIssued(s: Sys) {
    forall k :: 0 <= k < |s.log| ==>
      && (s.log[k].Approved? ==> s.log[k].requestId < s.nextId)
      && (s.log[k].Executed? && s.log[k].approval.Some? ==> s.log[k].approval.value.requestId < s.nextId)
  }

  /** The execution at position k is covered by an approval granted earlier, for the same
      workflow and phase. */
  ghost predicate Covered(gated: set<Phase>, log: seq<Mark>, k: nat)
    requires k < |log| && log[k].Executed?
  {
    var Executed(id, index, approval) := log[k];
    && index < PHASE_COUNT
    && (approval.Some? <==> PHASES[index] in gated)
    && (PHASES[index].Implement? ==> approval.Some?)
    && (approval.Some? ==>
          && approval.value.status.Approved?
          && exists j :: 0 <= j < k && log[j] == Approved(id, index, approval.value.requestId))
  }

  ghost predicate LogSafe(gated: set<Phase>, log: seq<Mark>) {
    && (forall k :: 0 <= k < |log| && log[k].Executed? ==> Covered(gated, log, k))
    && (forall j, k :: 0 <= j < k < |log| && log[j].Executed? && log[k].Executed?
                       && log[j].approval.Some? && log[k].approval.Some? ==>
          log[j].approval.value.requestId != log[k].approval.value.requestId)
  }

  ghost predicate Inv(gated: set<Phase>, s: Sys) {
    && Shape(gated, s)
    && (forall id :: PendingSafe(s, id))
    && PendingDistinct(s)
    && (forall id :: WaitingSafe(s, id))
    && WaitingDistinct(s)
    && LogIssued(s)
    && LogSafe(gated, s.log)
  }

  // ----- one step -----

  lemma {:induction false} PendingWasIssued(gated: set<Phase>, s: Sys, id: nat)
    requires Inv(gated, s) && Pending(s, id).Some?
    ensures Pending(s, id).value.requestId < s.nextId
  {
    assert PendingSafe(s, id);
    var p := Pending(s, id).value;
    var k :| 0 <= k < |s.log| && s.log[k] == Approved(id, s.drivers[id].current.phaseIndex, p.requestId);
  }

  /** A step logs at most one mark, with a number handed out before. */
  lemma {:induction false} MarkWasIssued(gated: set<Phase>, s: Sys, e: Event)
    requires Inv(gated, s) && Enabled(s, e)
    ensures var s' := Apply(gated, s, e);
            && s.nextId <= s'.nextId
            && (s'.log == s.log ||
                var m := s'.log[|s'.log| - 1];
                && s'.log == s.log + [m]
                && (m.Approved? ==> m.requestId < s.nextId)
                && (m.Executed? && m.approval.Some? ==> m.approval.value.requestId < s.nextId))
  {
    if e.CallResume? {
      assert StoreShape(gated, s, e.id);
    } else if e.Prepare? {
      assert DriverShape(gated, s, e.id);
      if Pending(s, e.id).Some? {
        PendingWasIssued(gated, s, e.id);
      }
    }
  }

  lemma {:induction false} StepKeepsIssued(gated: set<Phase>, s: Sys, e: Event)
    requires Inv(gated, s) && Enabled(s, e)
    ensures LogIssued(Apply(gated, s, e))
  {
    MarkWasIssued(gated, s, e);
  }

  lemma {:induction false} PendingIsOld(gated: set<Phase>, s: Sys, e: Event, id: nat)
    requires Inv(gated, s) && Enabled(s, e) && Pending(Apply(gated, s, e), id).Some?
    ensures (e.CallResume? && e.id == id) || Pending(s, id) == Pending(Apply(gated, s, e), id)
    ensures e.CallResume? && e.id == id && Pending(s, id) != Pending(Apply(gated, s, e), id) ==>
              Matches(s.store[id], e.approval) && Pending(Apply(gated, s, e), id) == e.approval
    ensures e.Prepare? ==> e.id != id
  {
    if About(e, id) {
      assert id in s.drivers ==> DriverShape(gated, s, id);
    } else {
      OtherWorkflowsStay(gated, s, e, id);
    }
  }

  lemma {:induction false} DriverOfPending(gated: set<Phase>, s: Sys, e: Event, id: nat)
    requires Inv(gated, s) && Enabled(s, e) && Pending(s, id).Some?
    requires Pending(Apply(gated, s, e), id) == Pending(s, id)
    ensures id in s.drivers && id in Apply(gated, s, e).drivers
    ensures Apply(gated, s, e).drivers[id].current.phaseIndex == s.drivers[id].current.phaseIndex
  {
    assert PendingSafe(s, id) && DriverShape(gated, s, id);
    if !About(e, id) {
      OtherWorkflowsStay(gated, s, e, id);
    }
  }

  /** What a step logs as executed is what was pending for that workflow. */
  lemma {:induction false} NotUsedStays(gated: set<Phase>, s: Sys, e: Event, r: nat)
    requires Inv(gated, s) && Enabled(s, e) && NotUsed(s.log, r)
    requires e.Prepare? && Pending(s, e.id).Some? ==> Pending(s, e.id).value.requestId != r
    ensures NotUsed(Apply(gated, s, e).log, r)
  {
    if e.Prepare? {
      assert DriverShape(gated, s, e.id);
    }
  }

  lemma {:induction false} OldPendingStaysSafe(gated: set<Phase>, s: Sys, e: Event, id: nat)
    requires Inv(gated, s) && Enabled(s, e) && Pending(s, id).Some?
    requires Pending(Apply(gated, s, e), id) == Pending(s, id)
    ensures PendingSafe(Apply(gated, s, e), id)
  {
    PendingIsOld(gated, s, e, id);
    assert PendingSafe(s, id);
    DriverOfPending(gated, s, e, id);
    NotUsedStays(gated, s, e, Pending(s, id).value.requestId);
  }

  lemma {:induction false} StepKeepsPendingSafe(gated: set<Phase>, s: Sys, e: Event, id: nat)
    requires Inv(gated, s) && Enabled(s, e)
    ensures PendingSafe(Apply(gated, s, e), id)
  {
    var s' := Apply(gated, s, e);
    if Pending(s', id).Some? {
      PendingIsOld(gated, s, e, id);
      if Pending(s', id) == Pending(s, id) {
        OldPendingStaysSafe(gated, s, e, id);
      } else {
        assert WaitingSafe(s, id);
      }
    }
  }

  /** What is pending was granted, so it differs from what is still being waited for. */
  lemma {:induction false} PendingDiffersFromWaiting(gated: set<Phase>, s: Sys, a: nat, b: nat)
    requires Inv(gated, s) && Pending(s, a).Some? && Waiting(s, b)
    ensures Pending(s, a).value.requestId != s.store[b].approval.value.requestId
  {
    assert PendingSafe(s, a) && WaitingSafe(s, b);
    var k :| 0 <= k < |s.log| && s.log[k] == Approved(a, s.drivers[a].current.phaseIndex, Pending(s, a).value.requestId);
  }

  lemma {:induction false} StepKeepsPendingDistinct(gated: set<Phase>, s: Sys, e: Event)
    requires Inv(gated, s) && Enabled(s, e)
    ensures PendingDistinct(Apply(gated, s, e))
  {
    var s' := Apply(gated, s, e);
    forall a, b | a != b && Pending(s', a).Some? && Pending(s', b).Some?
      ensures Pending(s', a).value.requestId != Pending(s', b).value.requestId
    {
      PendingIsOld(gated, s, e, a);
      PendingIsOld(gated, s, e, b);
      if Pending(s, a) != Pending(s', a) {
        PendingDiffersFromWaiting(gated, s, b, a);
      }
      if Pending(s, b) != Pending(s', b) {
        PendingDiffersFromWaiting(gated, s, a, b);
      }
    }
  }

  /** A workflow that waits after the step waited before, or has just been given a request
      number never used. */
  lemma {:induction false} WaitingIsOldOrNew(gated: set<Phase>, s: Sys, e: Event, id: nat)
    requires Inv(gated, s) && Enabled(s, e) && Waiting(Apply(gated, s, e), id)
    ensures var s' := Apply(gated, s, e);
            || (Waiting(s, id) && s'.store[id] == s.store[id] && (e.CallResume? && e.id == id ==> s' == s))
            || (e == Event.Checkpoint(id) && s'.store[id].approval.value.requestId == s.nextId + 1 && s'.log == s.log)
  {
    if !About(e, id) {
      OtherWorkflowsStay(gated, s, e, id);
    } else if e.Checkpoint? {
      assert DriverShape(gated, s, id);
      WaitingAfterCheckpoint(gated, s, id);
    } else if e.Start? || e.CallRun? || e.CallResume? || e.CallEscalate? {
      WaitingAfterCall(gated, s, e, id);
    } else {
      WaitingAfterWork(gated, s, e, id);
    }
  }

  lemma {:induction false} WaitingAfterCheckpoint(gated: set<Phase>, s: Sys, id: nat)
    requires Enabled(s, Event.Checkpoint(id)) && DriverShape(gated, s, id)
    requires Waiting(Apply(gated, s, Event.Checkpoint(id)), id)
    ensures var s' := Apply(gated, s, Event.Checkpoint(id));
            s'.store[id].approval.value.requestId == s.nextId + 1 && s'.log == s.log
  {
  }

  lemma {:induction false} WaitingAfterCall(gated: set<Phase>, s: Sys, e: Event, id: nat)
    requires Enabled(s, e) && (e.Start? || e.CallRun? || e.CallResume? || e.CallEscalate?) && About(e, id)
    requires Waiting(Apply(gated, s, e), id)
    ensures Apply(gated, s, e) == s
  {
  }

  /** Past the checkpoint a workflow is running, and so it was not left waiting. */
  lemma {:induction false} WaitingAfterWork(gated: set<Phase>, s: Sys, e: Event, id: nat)
    requires Shape(gated, s) && Enabled(s, e) && About(e, id)
    requires e.BeginRun? || e.Prepare? || e.OperationReturns? || e.OperationFails? || e.OperationEscalates? || e.Crash?
    requires Waiting(Apply(gated, s, e), id)
    ensures e.Crash? && Waiting(s, id) && Apply(gated, s, e).store[id] == s.store[id]
  {
    assert id in s.drivers ==> DriverShape(gated, s, id);
  }

  lemma {:induction false} NotGrantedStays(gated: set<Phase>, s: Sys, e: Event, r: nat)
    requires Enabled(s, e) && NotGranted(s.log, r)
    requires e.CallResume? && Matches(s.store[e.id], e.approval) ==> s.store[e.id].approval.value.requestId != r
    ensures NotGranted(Apply(gated, s, e).log, r)
  {
  }

  lemma {:induction false} OldWaitingStaysSafe(gated: set<Phase>, s: Sys, e: Event, id: nat)
    requires Inv(gated, s) && Enabled(s, e) && Waiting(s, id) && Waiting(Apply(gated, s, e), id)
    requires Apply(gated, s, e).store[id] == s.store[id]
    requires e.CallResume? && e.id == id ==> Apply(gated, s, e) == s
    ensures WaitingSafe(Apply(gated, s, e), id)
  {
    var r := s.store[id].approval.value.requestId;
    assert WaitingSafe(s, id);
    if e.CallResume? && Matches(s.store[e.id], e.approval) && e.id != id {
      assert WaitingDistinct(s) && Waiting(s, e.id);
    }
    if e.Prepare? && Pending(s, e.id).Some? {
      PendingDiffersFromWaiting(gated, s, e.id, id);
    }
    if !(e.CallResume? && e.id == id) {
      NotGrantedStays(gated, s, e, r);
      NotUsedStays(gated, s, e, r);
    }
  }

  lemma {:induction false} StepKeepsWaitingSafe(gated: set<Phase>, s: Sys, e: Event, id: nat)
    requires Inv(gated, s) && Enabled(s, e)
    ensures WaitingSafe(Apply(gated, s, e), id)
  {
    if Waiting(Apply(gated, s, e), id) {
      WaitingIsOldOrNew(gated, s, e, id);
      if Waiting(s, id) && Apply(gated, s, e).store[id] == s.store[id]
         && (e.CallResume? && e.id == id ==> Apply(gated, s, e) == s) {
        OldWaitingStaysSafe(gated, s, e, id);
      }
    }
  }

  lemma {:induction false} StepKeepsWaitingDistinct(gated: set<Phase>, s: Sys, e: Event)
    requires Inv(gated, s) && Enabled(s, e)
    ensures WaitingDistinct(Apply(gated, s, e))
  {
    var s' := Apply(gated, s, e);
    forall a, b | a != b && Waiting(s', a) && Waiting(s', b)
      ensures s'.store[a].approval.value.requestId != s'.store[b].approval.value.requestId
    {
      WaitingIsOldOrNew(gated, s, e, a);
      WaitingIsOldOrNew(gated, s, e, b);
      if Waiting(s, a) {
        assert StoreShape(gated, s, a);
      }
      if Waiting(s, b) {
        assert StoreShape(gated, s, b);
      }
    }
  }

  lemma {:induction false} LogSafeAppend(gated: set<Phase>, log: seq<Mark>, entry: Mark)
    requires LogSafe(gated, log)
    requires entry.Executed? ==> Covered(gated, log + [entry], |log|)
    requires entry.Executed? && entry.approval.Some? ==> NotUsed(log, entry.approval.value.requestId)
    ensures LogSafe(gated, log + [entry])
  {
    var log' := log + [entry];
    forall k | 0 <= k < |log'| && log'[k].Executed?
      ensures Covered(gated, log', k)
    {
      if k < |log| {
        assert Covered(gated, log, k);
        CoveredInLonger(gated, log, entry, k);
      }
    }
  }

  lemma {:induction false} CoveredInLonger(gated: set<Phase>, log: seq<Mark>, entry: Mark, k: nat)
    requires k < |log| && log[k].Executed? && Covered(gated, log, k)
    ensures Covered(gated, log + [entry], k)
  {
    var Executed(id, index, approval) := log[k];
    if approval.Some? {
      var j :| 0 <= j < k && log[j] == Approved(id, index, approval.value.requestId);
      assert (log + [entry])[j] == log[j];
    }
  }

  lemma {:induction false} ExecutionIsCovered(gated: set<Phase>, s: Sys, id: nat, verdict: bool)
    requires Inv(gated, s) && Enabled(s, Prepare(id, verdict))
    requires Admitted(PHASES[s.drivers[id].current.phaseIndex], s.drivers[id].approval, verdict)
    ensures Covered(gated, s.log + [Executed(id, s.drivers[id].current.phaseIndex, s.drivers[id].approval)], |s.log|)
    ensures s.drivers[id].approval.Some? ==> NotUsed(s.log, s.drivers[id].approval.value.requestId)
  {
    var Ready(current, approval) := s.drivers[id];
    assert DriverShape(gated, s, id) && PendingSafe(s, id);
    var entry := Executed(id, current.phaseIndex, approval);
    if approval.Some? {
      assert Pending(s, id) == approval;
      var j :| 0 <= j < |s.log| && s.log[j] == Approved(id, current.phaseIndex, approval.value.requestId);
      assert (s.log + [entry])[j] == s.log[j];
    }
  }

  lemma {:induction false} StepKeepsLogSafe(gated: set<Phase>, s: Sys, e: Event)
    requires Inv(gated, s) && Enabled(s, e)
    ensures LogSafe(gated, Apply(gated, s, e).log)
  {
    var s' := Apply(gated, s, e);
    if s'.log != s.log {
      var entry := s'.log[|s.log|];
      assert s'.log == s.log + [entry];
      if e.Prepare? {
        ExecutionIsCovered(gated, s, e.id, e.verdict);
      }
      LogSafeAppend(gated, s.log, entry);
    }
  }

  lemma {:induction false} StepKeepsInv(gated: set<Phase>, s: Sys, e: Event)
    requires Inv(gated, s) && Enabled(s, e)
    ensures Inv(gated, Apply(gated, s, e))
  {
    StepKeepsShape(gated, s, e);
    StepKeepsIssued(gated, s, e);
    StepKeepsPendingDistinct(gated, s, e);
    StepKeepsWaitingDistinct(gated, s, e);
    StepKeepsLogSafe(gated, s, e);
    forall id
      ensures PendingSafe(Apply(gated, s, e), id)
    {
      StepKeepsPendingSafe(gated, s, e, id);
    }
    forall id
      ensures WaitingSafe(Apply(gated, s, e), id)
    {
      StepKeepsWaitingSafe(gated, s, e, id);
    }
  }

  lemma {:induction false} ReachableInv(gated: set<Phase>, events: seq<Event>)
    requires Run(gated, events).Some?
    ensures Inv(gated, Run(gated, events).value)
  {
    if events != [] {
      ReachableInv(gated, events[..|events| - 1]);
      StepKeepsInv(gated, Run(gated, events[..|events| - 1]).value, events[|events| - 1]);
    }
  }

  // ----- the guarantees -----

  /** Every execution of a gated phase uses up one resume of its own: an earlier one, of the
      same workflow, at the same phase, with an approved approval whose request number no
      other execution uses. */
  lemma {:induction false} GatedExecutionsAreApproved(gated: set<Phase>, events: seq<Event>, k: nat)
    requires Run(gated, events).Some? && k < |Run(gated, events).value.log|
    requires var m := Run(gated, events).value.log[k];
             m.Executed? && m.index < PHASE_COUNT && PHASES[m.index] in gated
    ensures var log := Run(gated, events).value.log;
            var m := log[k];
            && Security.IsApproved(m.approval)
            && (exists j :: 0 <= j < k && log[j] == Approved(m.id, m.index, m.approval.value.requestId))
            && (forall i :: 0 <= i < |log| && i != k && log[i].Executed? && log[i].approval.Some? ==>
                  log[i].approval.value.requestId != m.approval.value.requestId)
  {
    ReachableInv(gated, events);
    assert Covered(gated, Run(gated, events).value.log, k);
  }

  /** IMPLEMENT never executes without an approved approval, whatever phases are gated; when
      it is not gated it never executes at all. */
  lemma {:induction false} ImplementNeedsApproval(gated: set<Phase>, events: seq<Event>, k: nat)
    requires Run(gated, events).Some? && k < |Run(gated, events).value.log|
    requires var m := Run(gated, events).value.log[k];
             m.Executed? && m.index < PHASE_COUNT && PHASES[m.index].Implement?
    ensures Security.IsApproved(Run(gated, events).value.log[k].approval)
    ensures Implement in gated
  {
    ReachableInv(gated, events);
    assert Covered(gated, Run(gated, events).value.log, k);
  }

  /** The approval that resume accepts is the one asked for at the workflow's current phase. */
  lemma {:induction false} ResumeMatchesCheckpoint(gated: set<Phase>, events: seq<Event>, id: nat,
                                                       approval: Option<Security.Approval>)
    requires Run(gated, events).Some? && id in Run(gated, events).value.store
    requires Matches(Run(gated, events).value.store[id], approval)
    ensures var w := Run(gated, events).value.store[id];
            && w.phaseIndex < PHASE_COUNT && PHASES[w.phaseIndex] in gated
            && w.approval.value.phase == PHASES[w.phaseIndex]
            && w.approval.value.requestId == approval.value.requestId
  {
    ReachableInv(gated, events);
    assert StoreShape(gated, Run(gated, events).value, id);
  }

  function CountGated(log: seq<Mark>, id: nat): nat {
    if log == [] then 0
    else CountGated(log[..|log| - 1], id) +
         if log[|log| - 1].Executed? && log[|log| - 1].id == id && log[|log| - 1].approval.Some? then 1 else 0
  }

  function CountApproved(log: seq<Mark>, id: nat): nat {
    if log == [] then 0
    else CountApproved(log[..|log| - 1], id) +
         if log[|log| - 1].Approved? && log[|log| - 1].id == id then 1 else 0
  }

  ghost predicate CountsMatch(s: Sys, id: nat) {
    CountGated(s.log, id) + (if Pending(s, id).Some? then 1 else 0) <= CountApproved(s.log, id)
  }

  lemma {:induction false} CountsAfterStep(gated: set<Phase>, s: Sys, e: Event, id: nat)
    requires Enabled(s, e)
    ensures var s' := Apply(gated, s, e);
            if s'.log == s.log then true
            else
              var m := s'.log[|s'.log| - 1];
              && s'.log == s.log + [m]
              && CountGated(s'.log, id)
                   == CountGated(s.log, id) + (if m.Executed? && m.id == id && m.approval.Some? then 1 else 0)
              && CountApproved(s'.log, id)
                   == CountApproved(s.log, id) + (if m.Approved? && m.id == id then 1 else 0)
  {
    var s' := Apply(gated, s, e);
    if s'.log != s.log {
      assert s'.log[..|s'.log| - 1] == s.log;
    }
  }

  lemma {:induction false} StepKeepsCounts(gated: set<Phase>, s: Sys, e: Event, id: nat)
    requires Inv(gated, s) && Enabled(s, e) && CountsMatch(s, id)
    ensures CountsMatch(Apply(gated, s, e), id)
  {
    var s' := Apply(gated, s, e);
    CountsAfterStep(gated, s, e, id);
    assert id in s.drivers ==> DriverShape(gated, s, id);
    if Pending(s', id).Some? {
      PendingIsOld(gated, s, e, id);
    }
    assert PendingSafe(s, id);
  }

  /** A workflow executes gated phases at most as often as it was successfully resumed. */
  lemma {:induction false} GatedExecutionsAtMostResumes(gated: set<Phase>, events: seq<Event>, id: nat)
    requires Run(gated, events).Some?
    ensures CountsMatch(Run(gated, events).value, id)
    ensures CountGated(Run(gated, events).value.log, id) <= CountApproved(Run(gated, events).value.log, id)
  {
    if events != [] {
      GatedExecutionsAtMostResumes(gated, events[..|events| - 1], id);
      ReachableInv(gated, events[..|events| - 1]);
      StepKeepsCounts(gated, Run(gated, events[..|events| - 1]).value, events[|events| - 1], id);
    }
  }
}
