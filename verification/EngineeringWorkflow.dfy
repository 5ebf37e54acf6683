/** The workflow object: start, run, resume and escalate as they execute without a crash.

    The object remembers, as ghost state, the machine events its calls amount to, and every
    method is proved to extend that run of the step machine of module Workflow. What holds
    of all runs of the machine therefore holds of any sequence of these calls. */
module EngineeringWorkflows {
  import opened Common
  import opened WorkflowModels
  import opened Workflow
  import opened WorkflowVerdicts
  import Security

  datatype OperationResult = Returns(event: WorkflowEvent) | Raises(detail: string) | Escalates

  /** Arbitrary operations, and the arbitrary verdict of authorizer and budget. */
  datatype World = World(
    execute: (Phase, WorkflowState) -> OperationResult,
    verdict: (Phase, WorkflowState) -> bool)

  /** How one pass of the phase loop ends. */
  datatype Outcome = Stopped | Escalated | Went(next: WorkflowState)

  datatype CallError = KeyError | PermissionError | WorkflowEscalation

  /** Moving the only driver on, and stopping it. */
  lemma DriverMoves(id: nat, from: Driver, to: Driver)
    ensures map[id := from][id := to] == map[id := to]
    ensures map[id := from] - {id} == map[]
  {
  }

  /** One more event at the end, of this phase and status, and the rest of the history. */
  predicate Appends(before: WorkflowState, after: WorkflowState, phase: Phase, status: string, detail: string) {
    && |after.events| == |before.events| + 1 && after.events[..|before.events|] == before.events
    && after.events[|before.events|].phase == phase
    && after.events[|before.events|].status == status
    && after.events[|before.events|].detail == detail
  }

  predicate SameWork(before: WorkflowState, after: WorkflowState) {
    after.request == before.request && after.phaseIndex == before.phaseIndex && after.data == before.data
  }

  /** A failed phase: where it failed and why is recorded, and everything else stays. */
  predicate FailedIn(before: WorkflowState, after: WorkflowState, phase: Phase, detail: string) {
    && after.status.Failed? && Appends(before, after, phase, "failed", detail)
    && after.events[|before.events|].failures == [detail]
    && after.escalationReason.None? && after.approval == before.approval && SameWork(before, after)
  }

  /** Stopped by a human, with the reason on record. */
  predicate EscalatedBecause(before: WorkflowState, after: WorkflowState, reason: string) {
    && after.status.Escalated? && Appends(before, after, Phase.Approval, "escalated", reason)
    && after.events[|before.events|].risks == [reason]
    && after.events[|before.events|].uncertainty == ["human intervention required"]
    && after.escalationReason == Some(reason) && after.approval == before.approval && SameWork(before, after)
  }

  /** Waiting for a decision on this very phase, under a request number not used before. */
  predicate WaitsFor(before: WorkflowState, after: WorkflowState, phase: Phase, from: nat, to: nat) {
    && after.status.WaitingApproval? && |after.events| == |before.events| + 1
    && after.events[..|before.events|] == before.events
    && after.events[|before.events|].phase.Approval? && after.events[|before.events|].status == "waiting"
    && after.approval.Some? && after.approval.value.phase == phase
    && after.approval.value.resource == before.request.repository
    && from <= after.approval.value.requestId < to
    && after.escalationReason.None? && SameWork(before, after)
  }

  /** Running again after the approval, whose reason is on record. */
  predicate GoesOn(before: WorkflowState, after: WorkflowState, approval: Security.Approval) {
    && after.status.Running?
    && Appends(before, after, Phase.Approval, "completed",
               if approval.reason == None || approval.reason == Some("") then "workflow implementation approved"
               else approval.reason.value)
    && after.escalationReason.None? && after.approval == before.approval && SameWork(before, after)
  }

  class EngineeringWorkflow {
    const gated: set<Phase>
    const world: World
    var store: map<nat, WorkflowState>
    var cache: map<nat, Security.Approval>
    var nextId: nat
    ghost var log: seq<Mark>
    ghost var trace: seq<Event>

    /** The machine state between calls: nobody drives a workflow. */
    ghost function State(): Sys
      reads this
    {
      Sys(store, cache, map[], nextId, log)
    }

    ghost predicate Valid()
      reads this
    {
      Run(gated, trace) == Some(State())
    }

    /** Within a call the machine has one driver, for `id`. */
    ghost predicate Driving(id: nat, d: Driver)
      reads this
    {
      && id in store && store[id] == d.current && d.current.status.Running?
      && Run(gated, trace) == Some(State().(drivers := map[id := d]))
    }

    constructor (gated: set<Phase>, world: World)
      ensures this.gated == gated && this.world == world && Valid() && trace == []
    {
      this.gated, this.world := gated, world;
      store, cache, nextId, log, trace := map[], map[], 0, [], [];
    }

    ghost method Record(e: Event)
      requires Run(gated, trace).Some? && Enabled(Run(gated, trace).value, e)
      modifies this`trace
      ensures trace == old(trace) + [e]
      ensures Run(gated, trace) == Some(Apply(gated, Run(gated, old(trace)).value, e))
    {
      RunOneMore(gated, trace, e);
      trace := trace + [e];
    }

    /** Saves a new workflow. Under an id that is already taken this overwrites the workflow,
        which no run of the machine does; under a fresh one it is the machine's start step. */
    method Start(request: Request) returns (s: WorkflowState)
      requires Valid()
      modifies this
      ensures store == old(store)[request.id := s]
      ensures s == Fresh(request)
      ensures s.request == request && s.status.Pending? && s.phaseIndex == 0 && s.events == []
      ensures s.approval.None? && s.escalationReason.None? && s.data == PyDict([])
      ensures cache == old(cache) && nextId == old(nextId) && log == old(log)
      ensures request.id !in old(store) ==> Valid() && trace == old(trace) + [Event.Start(request)]
    {
      if request.id !in store {
        Record(Event.Start(request));
      }
      s := WorkflowState(request, Pending, 0, [], None, PyDict([]), None);
      store := store[request.id := s];
    }

    method Escalate(id: nat, reason: string) returns (failed: Option<CallError>)
      requires Valid()
      modifies this
      ensures Valid() && old(trace) <= trace
      ensures failed.Some? <==> id !in old(store)
      ensures failed.Some? ==> failed == Some(KeyError) && State() == old(State())
      ensures failed.None? ==>
                && id in store && EscalatedBecause(old(store)[id], store[id], reason)
                && store == old(store)[id := store[id]] && cache == old(cache) && log == old(log)
    {
      if id !in store {
        return Some(KeyError);
      }
      Record(CallEscalate(id, reason));
      store := store[id := EscalatedState(store[id], reason, nextId)];
      nextId := nextId + 1;
      return None;
    }

    /** Runs until the workflow waits, fails or completes, or an operation escalates. */
    method RunWorkflow(id: nat) returns (failed: Option<CallError>)
      requires Valid()
      modifies this
      ensures Valid() && old(trace) <= trace
      ensures failed == Some(KeyError) <==> id !in old(store)
      ensures failed == Some(KeyError) ==> State() == old(State())
      ensures id in old(store) && !old(store)[id].status.Pending? && !old(store)[id].status.Running? ==>
                State() == old(State()) && failed.None?
      ensures failed.None? ==> id in store && !store[id].status.Pending? && !store[id].status.Running?
      ensures failed.Some? && failed != Some(KeyError) ==>
                failed == Some(WorkflowEscalation) && id in store && store[id].status.Running?
    {
      if id !in store {
        return Some(KeyError);
      }
      if Reported(store[id].status) {
        Record(CallRun(id));
        return None;
      }
      var current := Begin(id);
      failed := RunPhases(id, current);
    }

    /** The workflow is running, whatever it was escalated for before. */
    method Begin(id: nat) returns (current: WorkflowState)
      requires Valid() && id in store && !Reported(store[id].status)
      modifies this
      ensures old(trace) <= trace && Driving(id, AtLoop(current))
      ensures current == old(store)[id].(status := Running, escalationReason := None)
      ensures cache == old(cache) && log == old(log)
    {
      Record(CallRun(id));
      current := RunningAgain(store[id]);
      store := store[id := current];
    }

    /** Goes on with a waiting workflow if the approval is approved and matches. */
    method Resume(id: nat, approval: Option<Security.Approval>) returns (failed: Option<CallError>)
      requires Valid()
      modifies this
      ensures Valid() && old(trace) <= trace
      ensures failed == Some(KeyError) <==> id !in old(store)
      ensures failed == Some(PermissionError) <==>
                && id in old(store) && old(store)[id].status.WaitingApproval?
                && !(approval.Some? && approval.value.status == Security.ApprovalStatus.Approved
                     && old(store)[id].approval.Some?
                     && old(store)[id].approval.value.requestId == approval.value.requestId)
      ensures failed == Some(KeyError) || failed == Some(PermissionError) ==> State() == old(State())
      ensures id in old(store) && !old(store)[id].status.WaitingApproval? ==> State() == old(State())
      ensures id in old(store) && Matches(old(store)[id], approval) ==>
                && old(trace) + [CallResume(id, approval)] <= trace
                && id in store
                && (failed.None? ==> Reported(store[id].status))
                && (failed.Some? ==> failed == Some(WorkflowEscalation) && store[id].status.Running?)
    {
      if id !in store {
        return Some(KeyError);
      }
      if !store[id].status.WaitingApproval? {
        return None;
      }
      if approval.None? || !approval.value.status.Approved? {
        return Some(PermissionError);
      }
      if store[id].approval.None? || approval.value.requestId != store[id].approval.value.requestId {
        return Some(PermissionError);
      }
      var resumed := Accept(id, approval);
      var current := BeginAgain(id, resumed);
      failed := RunPhases(id, current);
    }

    /** The approval goes into the cache and the workflow is running again, and saved so. */
    method Accept(id: nat, approval: Option<Security.Approval>) returns (resumed: WorkflowState)
      requires Valid() && id in store && Matches(store[id], approval)
      modifies this
      ensures trace == old(trace) + [CallResume(id, approval)]
      ensures Driving(id, Resumed(resumed))
      ensures GoesOn(old(store)[id], resumed, approval.value)
      ensures cache == old(cache)[id := approval.value]
    {
      Record(CallResume(id, approval));
      cache := cache[id := approval.value];
      resumed := ResumedState(store[id], approval.value, nextId);
      nextId := nextId + 1;
      store := store[id := resumed];
      log := log + [Approved(id, resumed.phaseIndex, approval.value.requestId)];
    }

    method BeginAgain(id: nat, resumed: WorkflowState) returns (current: WorkflowState)
      requires Driving(id, Resumed(resumed))
      modifies this`store, this`trace
      ensures trace == old(trace) + [BeginRun(id)] && Driving(id, AtLoop(current))
      ensures current == resumed.(status := Running, escalationReason := None)
    {
      Record(BeginRun(id));
      current := RunningAgain(resumed);
      store := store[id := current];
      DriverMoves(id, Resumed(resumed), AtLoop(current));
    }

    method RunPhases(id: nat, start: WorkflowState) returns (failed: Option<CallError>)
      requires Driving(id, AtLoop(start))
      modifies this
      ensures Valid() && old(trace) <= trace && id in store
      ensures failed.None? ==> Reported(store[id].status)
      ensures failed.Some? ==> failed == Some(WorkflowEscalation) && store[id].status.Running?
    {
      var current := start;
      while current.phaseIndex < PHASE_COUNT
        invariant Driving(id, AtLoop(current)) && old(trace) <= trace
        decreases PHASE_COUNT - current.phaseIndex
      {
        var waiting, approval := TakeCheckpoint(id, current);
        if waiting {
          return None;
        }
        var outcome := Execute(id, current, approval);
        match outcome
        case Stopped => return None;
        case Escalated => return Some(WorkflowEscalation);
        case Went(next) => current := next;
      }
      Finish(id, current);
      return None;
    }

    /** Every phase has run. */
    method Finish(id: nat, current: WorkflowState)
      requires current.phaseIndex >= PHASE_COUNT && Driving(id, AtLoop(current))
      modifies this
      ensures Valid() && old(trace) <= trace
      ensures store == old(store)[id := current.(status := Completed, approval := None, escalationReason := None)]
    {
      Record(Event.Checkpoint(id));
      store := store[id := CompletedState(current)];
      DriverMoves(id, AtLoop(current), AtLoop(current));
    }

    /** An ungated phase needs no approval. A gated one uses the approval handed to resume, or
        persists a checkpoint and waits. */
    method TakeCheckpoint(id: nat, current: WorkflowState)
      returns (waiting: bool, approval: Option<Security.Approval>)
      requires current.phaseIndex < PHASE_COUNT && Driving(id, AtLoop(current))
      modifies this
      ensures old(trace) <= trace && id in store
      ensures waiting <==> PHASES[current.phaseIndex] in gated && id !in old(cache)
      ensures waiting ==> Valid() && WaitsFor(current, store[id], PHASES[current.phaseIndex], old(nextId), nextId)
      ensures !waiting ==> Driving(id, Ready(current, approval)) && store == old(store)
      ensures !waiting ==> approval == if PHASES[current.phaseIndex] in gated then Some(old(cache)[id]) else None
      ensures cache == old(cache) - (if waiting || PHASES[current.phaseIndex] !in gated then {} else {id})
    {
      var phase := PHASES[current.phaseIndex];
      Record(Event.Checkpoint(id));
      if phase !in gated {
        DriverMoves(id, AtLoop(current), Ready(current, None));
        return false, None;
      }
      if id in cache {
        approval := Some(cache[id]);
        cache := cache - {id};
        DriverMoves(id, AtLoop(current), Ready(current, approval));
        return false, approval;
      }
      store := store[id := WaitingState(current, phase, "Human approval required", nextId, nextId + 1)];
      nextId := nextId + 2;
      DriverMoves(id, AtLoop(current), AtLoop(current));
      return true, None;
    }

    ghost predicate LetsThrough(current: WorkflowState, approval: Option<Security.Approval>)
      requires current.phaseIndex < PHASE_COUNT
    {
      var phase := PHASES[current.phaseIndex];
      Favourable(phase, approval, world.verdict(phase, current))
    }

    /** One phase through the gateway. A refused phase is not executed and ends the run as
        failed, and so does one that raises; otherwise the operation decides. */
    method Execute(id: nat, current: WorkflowState, approval: Option<Security.Approval>)
      returns (outcome: Outcome)
      requires current.phaseIndex < PHASE_COUNT && Driving(id, Ready(current, approval))
      modifies this
      ensures old(trace) <= trace && id in store
      ensures !LetsThrough(current, approval) ==>
                && outcome.Stopped? && log == old(log)
                && FailedIn(current, store[id], PHASES[current.phaseIndex], "refused")
      ensures LetsThrough(current, approval) ==>
                && |log| > |old(log)| && log[..|old(log)|] == old(log)
                && log[|old(log)|] == Executed(id, current.phaseIndex, approval)
                && Follows(world.execute(PHASES[current.phaseIndex], current), current, outcome, store[id])
      ensures outcome.Stopped? || outcome.Escalated? ==> Valid()
      ensures outcome.Went? ==> Driving(id, AtLoop(outcome.next))
    {
      var admitted := Prepared(id, current, approval);
      if !admitted {
        return Stopped;
      }
      outcome := Operate(id, current);
    }

    /** The gateway decides, and what it refuses is saved as failed. */
    method Prepared(id: nat, current: WorkflowState, approval: Option<Security.Approval>) returns (admitted: bool)
      requires current.phaseIndex < PHASE_COUNT && Driving(id, Ready(current, approval))
      modifies this
      ensures old(trace) <= trace && (admitted <==> LetsThrough(current, approval))
      ensures admitted ==> Driving(id, Executing(current)) && log == old(log) + [Executed(id, current.phaseIndex, approval)]
      ensures !admitted ==> Valid() && log == old(log) && id in store
                            && FailedIn(current, store[id], PHASES[current.phaseIndex], "refused")
    {
      var phase := PHASES[current.phaseIndex];
      var verdict := world.verdict(phase, current);
      Record(Prepare(id, verdict));
      DriverMoves(id, Ready(current, approval), Executing(current));
      admitted := Admitted(phase, approval, verdict);
      if admitted {
        log := log + [Executed(id, current.phaseIndex, approval)];
      } else {
        store := store[id := FailedState(current, phase, "refused", nextId)];
        nextId := nextId + 1;
      }
    }

    /** What becomes of the workflow when its operation ends: the result is recorded and the
        phase is over, or the failure is saved, or an escalation leaves what was saved last. */
    ghost predicate Follows(result: OperationResult, current: WorkflowState, outcome: Outcome, saved: WorkflowState)
      requires current.phaseIndex < PHASE_COUNT
    {
      match result
      case Returns(event) =>
        && outcome == Went(saved)
        && saved.status.Running? && saved.phaseIndex == current.phaseIndex + 1
        && saved.events == current.events + [event]
        && saved.approval.None? && saved.escalationReason.None?
        && saved.request == current.request && saved.data == current.data
      case Raises(detail) => outcome.Stopped? && FailedIn(current, saved, PHASES[current.phaseIndex], detail)
      case Escalates => outcome.Escalated? && saved == current
    }

    method Operate(id: nat, current: WorkflowState) returns (outcome: Outcome)
      requires current.phaseIndex < PHASE_COUNT && Driving(id, Executing(current))
      modifies this
      ensures old(trace) <= trace && old(log) <= log && id in store
      ensures Follows(world.execute(PHASES[current.phaseIndex], current), current, outcome, store[id])
      ensures outcome.Stopped? || outcome.Escalated? ==> Valid()
      ensures outcome.Went? ==> Driving(id, AtLoop(outcome.next))
    {
      match world.execute(PHASES[current.phaseIndex], current)
      case Escalates =>
        Abandon(id, current);
        outcome := Outcome.Escalated;
      case Raises(detail) =>
        SaveFailure(id, current, detail);
        outcome := Stopped;
      case Returns(event) =>
        var next := SaveResult(id, current, event);
        outcome := Went(next);
    }

    method Abandon(id: nat, current: WorkflowState)
      requires Driving(id, Executing(current))
      modifies this`log, this`trace
      ensures Valid() && old(trace) <= trace && old(log) <= log
    {
      DriverMoves(id, Executing(current), Executing(current));
      Record(OperationEscalates(id));
      log := log + [Lost(id, current.phaseIndex)];
    }

    method SaveFailure(id: nat, current: WorkflowState, detail: string)
      requires current.phaseIndex < PHASE_COUNT && Driving(id, Executing(current))
      modifies this
      ensures Valid() && old(trace) <= trace && old(log) <= log
      ensures id in store && FailedIn(current, store[id], PHASES[current.phaseIndex], detail)
    {
      DriverMoves(id, Executing(current), Executing(current));
      Record(OperationFails(id, detail));
      log := log + [Lost(id, current.phaseIndex)];
      store := store[id := FailedState(current, PHASES[current.phaseIndex], detail, nextId)];
      nextId := nextId + 1;
    }

    method SaveResult(id: nat, current: WorkflowState, event: WorkflowEvent) returns (next: WorkflowState)
      requires current.phaseIndex < PHASE_COUNT && Driving(id, Executing(current))
      modifies this
      ensures old(trace) <= trace && old(log) <= log && Driving(id, AtLoop(next))
      ensures next == current.(status := Running, phaseIndex := current.phaseIndex + 1,
                               events := current.events + [event], approval := None, escalationReason := None)
    {
      Record(OperationReturns(id, event));
      log := log + [Advanced(id, current.phaseIndex)];
      next := AdvancedState(current, event);
      store := store[id := next];
      DriverMoves(id, Executing(current), AtLoop(next));
    }
  }
}
