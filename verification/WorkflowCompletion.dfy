/** Which workflows can complete at all. */
module WorkflowCompletion {
  import opened Common
  import opened WorkflowModels
  import opened Workflow
  import opened WorkflowHistory
  import Approvals = WorkflowApprovals
  import Security

  // ----- completion needs an approval for IMPLEMENT -----

  lemma {:induction false} ExecutionIsLogged(log: seq<Mark>, id: nat, n: nat) returns (k: nat)
    requires n in Executions(log, id)
    ensures k < |log| && log[k].Executed? && log[k].id == id && log[k].index == n
  {
    var m := log[|log| - 1];
    if m.Executed? && m.id == id && m.index == n {
      k := |log| - 1;
    } else {
      k := ExecutionIsLogged(log[..|log| - 1], id, n);
    }
  }

  /** Without IMPLEMENT among the gated phases nothing ever completes. */
  lemma {:induction false} CompletionNeedsImplementGated(gated: set<Phase>, events: seq<Event>, id: nat)
    requires Run(gated, events).Some? && id in Run(gated, events).value.store
    requires Run(gated, events).value.store[id].status.Completed?
    ensures Implement in gated
  {
    CompletedMeansEveryPhaseRan(gated, events, id);
    var log := Run(gated, events).value.log;
    var k := ExecutionIsLogged(log, id, 8);
    assert PHASES[8] == Implement;
    Approvals.ImplementNeedsApproval(gated, events, k);
  }

  // ----- with it, some run completes -----

  /** A run has brought the driver of the workflow to the head of the phase loop at phase i,
      with no approval left over. */
  ghost predicate Looping(gated: set<Phase>, id: nat, events: seq<Event>, i: nat) {
    && Run(gated, events).Some?
    && var s := Run(gated, events).value;
       && id in s.store && id in s.drivers && id !in s.cache
       && s.drivers[id].AtLoop? && s.drivers[id].current.phaseIndex == i
  }

  /** The same, past the checkpoint of phase i. */
  ghost predicate Cleared(gated: set<Phase>, id: nat, events: seq<Event>, i: nat) {
    && Run(gated, events).Some?
    && var s := Run(gated, events).value;
       && id in s.store && id in s.drivers && id !in s.cache
       && s.drivers[id].Ready? && s.drivers[id].current.phaseIndex == i
       && (i < PHASE_COUNT && PHASES[i] in gated ==> Security.IsApproved(s.drivers[id].approval))
  }

  lemma {:induction false} Started(gated: set<Phase>, request: Request) returns (events: seq<Event>)
    ensures Looping(gated, request.id, events, 0)
  {
    RunOneMore(gated, [], Start(request));
    var saved := [] + [Start(request)];
    RunOneMore(gated, saved, CallRun(request.id));
    events := saved + [CallRun(request.id)];
  }

  lemma {:induction false} Waits(gated: set<Phase>, id: nat, before: seq<Event>, i: nat) returns (events: seq<Event>)
    requires Looping(gated, id, before, i) && i < PHASE_COUNT && PHASES[i] in gated
    ensures Run(gated, events).Some?
    ensures var s := Run(gated, events).value;
            && Idle(s, id) && id !in s.cache
            && s.store[id].status.WaitingApproval? && s.store[id].phaseIndex == i && s.store[id].approval.Some?
  {
    RunOneMore(gated, before, Event.Checkpoint(id));
    events := before + [Event.Checkpoint(id)];
  }

  lemma {:induction false} Approves(gated: set<Phase>, id: nat, before: seq<Event>, i: nat) returns (events: seq<Event>)
    requires Run(gated, before).Some? && i < PHASE_COUNT && PHASES[i] in gated
    requires var s := Run(gated, before).value;
             && Idle(s, id) && id !in s.cache
             && s.store[id].status.WaitingApproval? && s.store[id].phaseIndex == i && s.store[id].approval.Some?
    ensures Cleared(gated, id, events, i)
  {
    var number := Run(gated, before).value.store[id].approval.value.requestId;
    var approval := Some(Security.Approval.Approval(number, Security.ApprovalStatus.Approved, None, None));
    RunOneMore(gated, before, CallResume(id, approval));
    var resumed := before + [CallResume(id, approval)];
    RunOneMore(gated, resumed, BeginRun(id));
    var begun := resumed + [BeginRun(id)];
    RunOneMore(gated, begun, Event.Checkpoint(id));
    events := begun + [Event.Checkpoint(id)];
  }

  lemma {:induction false} Passes(gated: set<Phase>, id: nat, before: seq<Event>, i: nat) returns (events: seq<Event>)
    requires Looping(gated, id, before, i) && i < PHASE_COUNT
    ensures Cleared(gated, id, events, i)
  {
    if PHASES[i] in gated {
      var waiting := Waits(gated, id, before, i);
      events := Approves(gated, id, waiting, i);
    } else {
      RunOneMore(gated, before, Event.Checkpoint(id));
      events := before + [Event.Checkpoint(id)];
    }
  }

  lemma {:induction false} Performs(gated: set<Phase>, id: nat, before: seq<Event>, i: nat) returns (events: seq<Event>)
    requires Cleared(gated, id, before, i) && i < PHASE_COUNT && Implement in gated
    ensures Looping(gated, id, events, i + 1)
  {
    RunOneMore(gated, before, Prepare(id, true));
    var executing := before + [Prepare(id, true)];
    var result := Note(PHASES[i], "", "", 0);
    RunOneMore(gated, executing, OperationReturns(id, result));
    events := executing + [OperationReturns(id, result)];
  }

  lemma {:induction false} Reaches(gated: set<Phase>, request: Request, i: nat) returns (events: seq<Event>)
    requires Implement in gated && i <= PHASE_COUNT
    ensures Looping(gated, request.id, events, i)
  {
    if i == 0 {
      events := Started(gated, request);
    } else {
      var before := Reaches(gated, request, i - 1);
      var cleared := Passes(gated, request.id, before, i - 1);
      events := Performs(gated, request.id, cleared, i - 1);
    }
  }

  ghost predicate Completes(gated: set<Phase>, events: seq<Event>, id: nat) {
    Run(gated, events).Some? && id in Run(gated, events).value.store
    && Run(gated, events).value.store[id].status.Completed?
  }

  /** Any workflow can complete, if every phase is granted and returns, exactly when IMPLEMENT
      is among the gated phases. */
  lemma {:induction false} CompletableIffImplementGated(gated: set<Phase>, request: Request)
    ensures (exists events :: Completes(gated, events, request.id)) <==> Implement in gated
  {
    if Implement in gated {
      var before := Reaches(gated, request, PHASE_COUNT);
      RunOneMore(gated, before, Event.Checkpoint(request.id));
      assert Completes(gated, before + [Event.Checkpoint(request.id)], request.id);
    }
    forall events | Completes(gated, events, request.id)
      ensures Implement in gated
    {
      CompletionNeedsImplementGated(gated, events, request.id);
    }
  }
}
