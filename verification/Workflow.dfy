/** The governed, resumable workflow as a step machine over a persistent store.

    A workflow has at most one driver, the run or resume call in progress. Each event is a
    region of that call that ends in at most one save, so a crash, which keeps the store and
    loses the drivers and the approval cache, can fall between any two saves. Operations,
    the role and budget verdict of the gateway, and the approvals handed to resume are
    arbitrary. */
module Workflow {
  import opened Common
  import opened WorkflowModels
  import Security

  const PHASE_COUNT := 16

  /** Where a driver is; `current` is the state it saved last. */
  datatype Driver =
    | Resumed(current: WorkflowState)
    | AtLoop(current: WorkflowState)
    | Ready(current: WorkflowState, approval: Option<Security.Approval>)
    | Executing(current: WorkflowState)

  /** What happened, in order, to which workflow at which phase index. */
  datatype Mark =
    | Approved(id: nat, index: nat, requestId: nat)
    | Executed(id: nat, index: nat, approval: Option<Security.Approval>)
    | Advanced(id: nat, index: nat)
    | Lost(id: nat, index: nat)
    | Crashed(executing: set<nat>)

  datatype Sys = Sys(
    store: map<nat, WorkflowState>,
    cache: map<nat, Security.Approval>,
    drivers: map<nat, Driver>,
    nextId: nat,
    log: seq<Mark>)

  datatype Event =
    | Start(request: Request)
    | CallRun(id: nat)
    | CallResume(id: nat, approval: Option<Security.Approval>)
    | CallEscalate(id: nat, reason: string)
    | BeginRun(id: nat)
    | Checkpoint(id: nat)
    | Prepare(id: nat, verdict: bool)
    | OperationReturns(id: nat, event: WorkflowEvent)
    | OperationFails(id: nat, detail: string)
    | OperationEscalates(id: nat)
    | Crash

  function Init(): Sys {
    Sys(map[], map[], map[], 0, [])
  }

  // ----- the states that are saved -----

  function Note(phase: Phase, status: string, detail: string, id: nat): WorkflowEvent {
    WorkflowEvent(phase, status, detail, [], [], [], [], [], id)
  }

  function Fresh(request: Request): WorkflowState {
    WorkflowState(request, Pending, 0, [], None, PyDict([]), None)
  }

  function RunningAgain(s: WorkflowState): WorkflowState {
    s.(status := Running, escalationReason := None)
  }

  function ResumedState(s: WorkflowState, approval: Security.Approval, eventId: nat): WorkflowState {
    var detail := if approval.reason.Some? && approval.reason.value != "" then approval.reason.value
                  else "workflow implementation approved";
    s.(status := Running, events := s.events + [Note(Phase.Approval, "completed", detail, eventId)],
       escalationReason := None)
  }

  function EscalatedState(s: WorkflowState, reason: string, eventId: nat): WorkflowState {
    s.(status := Escalated,
       events := s.events + [Note(Phase.Approval, "escalated", reason, eventId)
                             .(risks := [reason], uncertainty := ["human intervention required"])],
       escalationReason := Some(reason))
  }

  function WaitingState(s: WorkflowState, phase: Phase, reason: string, eventId: nat, requestId: nat): WorkflowState {
    s.(status := WaitingApproval,
       events := s.events + [Note(Phase.Approval, "waiting", reason, eventId)],
       approval := Some(WorkflowModels.Checkpoint(phase, s.request.repository, reason, requestId)),
       escalationReason := None)
  }

  function FailedState(s: WorkflowState, phase: Phase, detail: string, eventId: nat): WorkflowState {
    s.(status := Failed,
       events := s.events + [Note(phase, "failed", detail, eventId).(failures := [detail])],
       escalationReason := None)
  }

  function AdvancedState(s: WorkflowState, e: WorkflowEvent): WorkflowState {
    s.(status := Running, phaseIndex := s.phaseIndex + 1, events := s.events + [e],
       approval := None, escalationReason := None)
  }

  function CompletedState(s: WorkflowState): WorkflowState {
    s.(status := Completed, approval := None, escalationReason := None)
  }

  /** The statuses that run only reports. */
  predicate Reported(s: Status) {
    s.WaitingApproval? || s.Completed? || s.Failed? || s.Escalated?
  }

  /** The check resume makes before it lets a waiting workflow go on. */
  predicate Matches(s: WorkflowState, approval: Option<Security.Approval>) {
    && s.status.WaitingApproval?
    && Security.IsApproved(approval)
    && s.approval.Some?
    && approval.value.requestId == s.approval.value.requestId
  }

  /** prepare for this phase: IMPLEMENT is a high-risk action and is decided by the approval;
      every other phase by the authorizer. The budget has its say in both cases. */
  predicate Admitted(phase: Phase, approval: Option<Security.Approval>, verdict: bool) {
    verdict && (phase.Implement? ==> Security.IsApproved(approval))
  }

  // ----- steps -----

  predicate Idle(s: Sys, id: nat) {
    id in s.store && id !in s.drivers
  }

  predicate Enabled(s: Sys, e: Event) {
    match e
    case Start(request) => request.id !in s.store
    case CallRun(id) => Idle(s, id)
    case CallResume(id, _) => Idle(s, id)
    case CallEscalate(id, _) => Idle(s, id)
    case BeginRun(id) => id in s.drivers && s.drivers[id].Resumed?
    case Checkpoint(id) => id in s.drivers && s.drivers[id].AtLoop?
    case Prepare(id, _) =>
      id in s.drivers && s.drivers[id].Ready? && s.drivers[id].current.phaseIndex < PHASE_COUNT
    case OperationReturns(id, _) => id in s.drivers && s.drivers[id].Executing?
    case OperationFails(id, _) =>
      id in s.drivers && s.drivers[id].Executing? && s.drivers[id].current.phaseIndex < PHASE_COUNT
    case OperationEscalates(id) => id in s.drivers && s.drivers[id].Executing?
    case Crash => true
  }

  function Save(s: Sys, id: nat, w: WorkflowState): Sys {
    s.(store := s.store[id := w])
  }

  function Drive(s: Sys, id: nat, d: Driver): Sys {
    s.(drivers := s.drivers[id := d])
  }

  function Stop(s: Sys, id: nat): Sys {
    s.(drivers := s.drivers - {id})
  }

  function Log(s: Sys, entry: Mark): Sys {
    s.(log := s.log + [entry])
  }

  function AtCheckpoint(gated: set<Phase>, s: Sys, id: nat): Sys
    requires id in s.drivers && s.drivers[id].AtLoop?
  {
    var current := s.drivers[id].current;
    if current.phaseIndex >= PHASE_COUNT then
      Stop(Save(s, id, CompletedState(current)), id)
    else
      var phase := PHASES[current.phaseIndex];
      if phase !in gated then Drive(s, id, Ready(current, None))
      else if id in s.cache then
        Drive(s.(cache := s.cache - {id}), id, Ready(current, Some(s.cache[id])))
      else
        Stop(Save(s.(nextId := s.nextId + 2), id,
                  WaitingState(current, phase, "Human approval required", s.nextId, s.nextId + 1)), id)
  }

  function AtPrepare(s: Sys, id: nat, verdict: bool): Sys
    requires Enabled(s, Prepare(id, verdict))
  {
    var Ready(current, approval) := s.drivers[id];
    var phase := PHASES[current.phaseIndex];
    if Admitted(phase, approval, verdict) then
      Drive(Log(s, Executed(id, current.phaseIndex, approval)), id, Executing(current))
    else
      Stop(Save(s.(nextId := s.nextId + 1), id, FailedState(current, phase, "refused", s.nextId)), id)
  }

  function Apply(gated: set<Phase>, s: Sys, e: Event): Sys
    requires Enabled(s, e)
  {
    match e
    case Start(request) => Save(s, request.id, Fresh(request))
    case CallRun(id) =>
      if Reported(s.store[id].status) then s
      else
        var current := RunningAgain(s.store[id]);
        Drive(Save(s, id, current), id, AtLoop(current))
    case CallResume(id, approval) =>
      if !Matches(s.store[id], approval) then s
      else
        var resumed := ResumedState(s.store[id], approval.value, s.nextId);
        var s1 := s.(cache := s.cache[id := approval.value], nextId := s.nextId + 1);
        Log(Drive(Save(s1, id, resumed), id, Resumed(resumed)),
            Approved(id, resumed.phaseIndex, approval.value.requestId))
    case CallEscalate(id, reason) =>
      Save(s.(nextId := s.nextId + 1), id, EscalatedState(s.store[id], reason, s.nextId))
    case BeginRun(id) =>
      var current := RunningAgain(s.drivers[id].current);
      Drive(Save(s, id, current), id, AtLoop(current))
    case Checkpoint(id) => AtCheckpoint(gated, s, id)
    case Prepare(id, verdict) => AtPrepare(s, id, verdict)
    case OperationReturns(id, event) =>
      var current := s.drivers[id].current;
      var next := AdvancedState(current, event);
      Log(Drive(Save(s, id, next), id, AtLoop(next)), Advanced(id, current.phaseIndex))
    case OperationFails(id, detail) =>
      var current := s.drivers[id].current;
      Log(Stop(Save(s.(nextId := s.nextId + 1), id,
                    FailedState(current, PHASES[current.phaseIndex], detail, s.nextId)), id),
          Lost(id, current.phaseIndex))
    case OperationEscalates(id) => Log(Stop(s, id), Lost(id, s.drivers[id].current.phaseIndex))
    case Crash =>
      var executing := set id | id in s.drivers && s.drivers[id].Executing?;
      Log(s.(drivers := map[], cache := map[]), Crashed(executing))
  }

  function Run(gated: set<Phase>, events: seq<Event>): Option<Sys> {
    if events == [] then Some(Init())
    else
      match Run(gated, events[..|events| - 1])
      case None => None
      case Some(s) =>
        if Enabled(s, events[|events| - 1]) then Some(Apply(gated, s, events[|events| - 1])) else None
  }

  lemma {:induction false} RunOneMore(gated: set<Phase>, events: seq<Event>, e: Event)
    requires Run(gated, events).Some? && Enabled(Run(gated, events).value, e)
    ensures Run(gated, events + [e]) == Some(Apply(gated, Run(gated, events).value, e))
  {
    assert (events + [e])[..|events + [e]| - 1] == events;
  }

  /** A crash can come at any time, and only what was saved outlives it. */
  lemma {:induction false} CrashKeepsWhatWasSaved(gated: set<Phase>, events: seq<Event>)
    requires Run(gated, events).Some?
    ensures Run(gated, events + [Crash]).Some?
    ensures var s, s' := Run(gated, events).value, Run(gated, events + [Crash]).value;
            s'.store == s.store && s'.nextId == s.nextId && s'.drivers == map[] && s'.cache == map[]
  {
    RunOneMore(gated, events, Crash);
  }

  // ----- the shape of reachable states -----

  ghost predicate StoreShape(gated: set<Phase>, s: Sys, id: nat)
    requires id in s.store
  {
    var w := s.store[id];
    && w.request.id == id
    && w.phaseIndex <= PHASE_COUNT
    && (w.approval.Some? ==> w.approval.value.requestId < s.nextId)
    && (w.status.WaitingApproval? ==>
          && w.phaseIndex < PHASE_COUNT
          && w.approval.Some?
          && w.approval.value.phase == PHASES[w.phaseIndex]
          && w.approval.value.phase in gated)
    && (w.status.Completed? ==> w.phaseIndex == PHASE_COUNT)
  }

  /** A driver works on the state that was saved last, and that state is running. */
  ghost predicate DriverShape(gated: set<Phase>, s: Sys, id: nat)
    requires id in s.drivers
  {
    var d := s.drivers[id];
    && id in s.store && s.store[id] == d.current
    && d.current.status.Running?
    && (!d.AtLoop? ==> d.current.phaseIndex < PHASE_COUNT)
    && (id in s.cache ==> d.Resumed? || d.AtLoop?)
    && (d.Resumed? ==> id in s.cache)
    && (d.Ready? ==> (d.approval.Some? <==> PHASES[d.current.phaseIndex] in gated))
  }

  ghost predicate Shape(gated: set<Phase>, s: Sys) {
    && (forall id :: id in s.store ==> StoreShape(gated, s, id))
    && (forall id :: id in s.drivers ==> DriverShape(gated, s, id))
    && (forall id :: id in s.cache ==> id in s.drivers && s.drivers[id].current.phaseIndex < PHASE_COUNT
                                       && PHASES[s.drivers[id].current.phaseIndex] in gated)
  }

  /** The workflow an event is about; a crash is about all of them. */
  predicate About(e: Event, id: nat) {
    match e
    case Start(request) => request.id == id
    case Crash => true
    case _ => e.id == id
  }

  lemma {:induction false} OtherWorkflowsStay(gated: set<Phase>, s: Sys, e: Event, id: nat)
    requires Enabled(s, e) && !About(e, id)
    ensures var s' := Apply(gated, s, e);
            && (id in s'.store <==> id in s.store) && (id in s.store ==> s'.store[id] == s.store[id])
            && (id in s'.drivers <==> id in s.drivers) && (id in s.drivers ==> s'.drivers[id] == s.drivers[id])
            && (id in s'.cache <==> id in s.cache) && (id in s.cache ==> s'.cache[id] == s.cache[id])
            && s.nextId <= s'.nextId
  {
  }

  lemma {:induction false} OwnStoreShape(gated: set<Phase>, s: Sys, e: Event, id: nat)
    requires Shape(gated, s) && Enabled(s, e) && About(e, id) && id in Apply(gated, s, e).store
    ensures StoreShape(gated, Apply(gated, s, e), id)
  {
    assert id in s.store ==> StoreShape(gated, s, id);
    assert id in s.drivers ==> DriverShape(gated, s, id);
  }

  lemma {:induction false} StepKeepsStoreShape(gated: set<Phase>, s: Sys, e: Event, id: nat)
    requires Shape(gated, s) && Enabled(s, e) && id in Apply(gated, s, e).store
    ensures StoreShape(gated, Apply(gated, s, e), id)
  {
    if About(e, id) {
      OwnStoreShape(gated, s, e, id);
    } else {
      OtherWorkflowsStay(gated, s, e, id);
      assert StoreShape(gated, s, id);
    }
  }

  lemma {:induction false} OwnDriverShape(gated: set<Phase>, s: Sys, e: Event, id: nat)
    requires Shape(gated, s) && Enabled(s, e) && About(e, id) && id in Apply(gated, s, e).drivers
    ensures DriverShape(gated, Apply(gated, s, e), id)
  {
    assert id in s.store ==> StoreShape(gated, s, id);
    assert id in s.drivers ==> DriverShape(gated, s, id);
  }

  lemma {:induction false} StepKeepsDriverShape(gated: set<Phase>, s: Sys, e: Event, id: nat)
    requires Shape(gated, s) && Enabled(s, e) && id in Apply(gated, s, e).drivers
    ensures DriverShape(gated, Apply(gated, s, e), id)
  {
    if About(e, id) {
      OwnDriverShape(gated, s, e, id);
    } else {
      OtherWorkflowsStay(gated, s, e, id);
      assert DriverShape(gated, s, id);
    }
  }

  lemma {:induction false} StepKeepsCacheShape(gated: set<Phase>, s: Sys, e: Event, id: nat)
    requires Shape(gated, s) && Enabled(s, e) && id in Apply(gated, s, e).cache
    ensures var s' := Apply(gated, s, e);
            && id in s'.drivers && s'.drivers[id].current.phaseIndex < PHASE_COUNT
            && PHASES[s'.drivers[id].current.phaseIndex] in gated
  {
    if About(e, id) {
      assert id in s.store ==> StoreShape(gated, s, id);
      assert id in s.drivers ==> DriverShape(gated, s, id);
    } else {
      OtherWorkflowsStay(gated, s, e, id);
    }
  }

  lemma {:induction false} StepKeepsShape(gated: set<Phase>, s: Sys, e: Event)
    requires Shape(gated, s) && Enabled(s, e)
    ensures Shape(gated, Apply(gated, s, e))
  {
    var s' := Apply(gated, s, e);
    forall id | id in s'.store
      ensures StoreShape(gated, s', id)
    {
      StepKeepsStoreShape(gated, s, e, id);
    }
    forall id | id in s'.drivers
      ensures DriverShape(gated, s', id)
    {
      StepKeepsDriverShape(gated, s, e, id);
    }
    forall id | id in s'.cache
      ensures id in s'.drivers && s'.drivers[id].current.phaseIndex < PHASE_COUNT
      ensures PHASES[s'.drivers[id].current.phaseIndex] in gated
    {
      StepKeepsCacheShape(gated, s, e, id);
    }
  }

  lemma {:induction false} ReachableShape(gated: set<Phase>, events: seq<Event>)
    requires Run(gated, events).Some?
    ensures Shape(gated, Run(gated, events).value)
  {
    if events != [] {
      ReachableShape(gated, events[..|events| - 1]);
      StepKeepsShape(gated, Run(gated, events[..|events| - 1]).value, events[|events| - 1]);
    }
  }
}
