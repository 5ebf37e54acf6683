/** What the gateway's verdict decides: no phase is executed without one in its favour, and a
    phase that is refused fails its workflow. */
module WorkflowVerdicts {
  import opened Common
  import opened WorkflowModels
  import opened Workflow
  import Security

  lemma {:induction false} RunPrefix(gated: set<Phase>, events: seq<Event>, j: nat)
    requires j < |events| && Run(gated, events).Some?
    ensures Run(gated, events[..j]).Some? && Enabled(Run(gated, events[..j]).value, events[j])
    ensures Run(gated, events[..j + 1]) == Some(Apply(gated, Run(gated, events[..j]).value, events[j]))
  {
    var n := |events| - 1;
    if j < n {
      RunPrefix(gated, events[..n], j);
      assert events[..n][..j] == events[..j] && events[..n][..j + 1] == events[..j + 1];
    } else {
      assert events[..j + 1] == events;
    }
  }

  /** What it takes to be let through: authorizer and budget agree, and IMPLEMENT, which is high
      risk, has a human approval. */
  predicate Favourable(phase: Phase, approval: Option<Security.Approval>, verdict: bool) {
    verdict && (phase == Phase.Implement ==> approval.Some? && approval.value.status.Approved?)
  }

  /** Only a verdict in favour of the phase executes it; otherwise the workflow is left failed
      at the same phase, nobody drives it, and nothing is executed. */
  lemma {:induction false} PrepareDecides(gated: set<Phase>, s: Sys, id: nat, verdict: bool)
    requires Enabled(s, Prepare(id, verdict))
    ensures var s' := Apply(gated, s, Prepare(id, verdict));
            var Ready(current, approval) := s.drivers[id];
            if Favourable(PHASES[current.phaseIndex], approval, verdict)
            then s'.log == s.log + [Executed(id, current.phaseIndex, approval)]
                 && id in s'.drivers && s'.drivers[id] == Executing(current) && s'.store == s.store
            else s'.log == s.log && id !in s'.drivers
                 && id in s'.store && s'.store[id].status.Failed? && s'.store[id].phaseIndex == current.phaseIndex
                 && s'.store[id].request == current.request && s'.store[id].data == current.data
                 && |s'.store[id].events| == |current.events| + 1
                 && s'.store[id].events[|current.events|].phase == PHASES[current.phaseIndex]
  {
  }

  /** The marks of a step; only a prepare marks an execution. */
  lemma {:induction false} OnlyPrepareExecutes(gated: set<Phase>, s: Sys, e: Event)
    requires Enabled(s, e)
    ensures var log := Apply(gated, s, e).log;
            && (log == s.log || (|log| == |s.log| + 1 && log[..|s.log|] == s.log))
            && (log != s.log && log[|s.log|].Executed? ==> e.Prepare? && e.verdict && log[|s.log|].id == e.id)
  {
  }

  /** Every execution was let through: it is the work of a prepare of its workflow with a
      verdict in its favour, made at that place of the run. */
  lemma {:induction false} ExecutionsHadAVerdict(gated: set<Phase>, events: seq<Event>, k: nat) returns (j: nat)
    requires Run(gated, events).Some? && k < |Run(gated, events).value.log|
    requires Run(gated, events).value.log[k].Executed?
    ensures var mark := Run(gated, events).value.log[k];
            && j < |events| && events[j] == Prepare(mark.id, true)
            && Run(gated, events[..j]).Some? && Enabled(Run(gated, events[..j]).value, events[j])
            && var before := Run(gated, events[..j]).value;
               && |before.log| == k
               && before.drivers[mark.id].current.phaseIndex == mark.index
               && before.drivers[mark.id].approval == mark.approval
               && mark.index < PHASE_COUNT && Favourable(PHASES[mark.index], mark.approval, true)
  {
    var n := |events| - 1;
    var before := Run(gated, events[..n]).value;
    OnlyPrepareExecutes(gated, before, events[n]);
    if k < |before.log| {
      j := ExecutionsHadAVerdict(gated, events[..n], k);
      assert events[..n][..j] == events[..j];
    } else {
      j := n;
      PrepareDecides(gated, before, events[n].id, events[n].verdict);
    }
  }

  /** And a prepare without one, anywhere in a run, leaves its workflow failed where it stood. */
  lemma {:induction false} RefusalFailsTheWorkflow(gated: set<Phase>, events: seq<Event>, j: nat)
    requires Run(gated, events).Some? && j < |events| && events[j].Prepare? && !events[j].verdict
    ensures Run(gated, events[..j]).Some? && Run(gated, events[..j + 1]).Some?
    ensures var id, s, s' := events[j].id, Run(gated, events[..j]).value, Run(gated, events[..j + 1]).value;
            && id in s.store && id in s'.store && id !in s'.drivers
            && s'.store[id].status.Failed? && s'.store[id].phaseIndex == s.store[id].phaseIndex
            && s'.log == s.log
  {
    RunPrefix(gated, events, j);
    ReachableShape(gated, events[..j]);
    assert DriverShape(gated, Run(gated, events[..j]).value, events[j].id);
    PrepareDecides(gated, Run(gated, events[..j]).value, events[j].id, false);
  }
}
