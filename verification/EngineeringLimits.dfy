/** How the runs of the engineering agent end, and when its tool-call limit can stop one. */
module EngineeringLimits {
  import opened Common
  import opened EngineeringAgents

  // ----- an environment determines its run -----

  lemma OneAnswer(env: Environment, limits: Limits, p: Position, e: Event, e': Event)
    requires Next(limits, env.analyzer.Some?, p, e).Some? && Answered(env, p, e)
    requires Next(limits, env.analyzer.Some?, p, e').Some? && Answered(env, p, e')
    ensures e == e'
  {
  }

  lemma {:induction false} MadeByPrefix(env: Environment, limits: Limits, files: seq<FileChange>, trace: seq<Event>, n: nat)
    requires n <= |trace| && MadeBy(env, limits, files, trace)
    ensures MadeBy(env, limits, files, trace[..n])
    ensures n < |trace| ==>
              var scanned := Scan(limits, env.analyzer.Some?, files, trace[..n]);
              && scanned.Some? && Next(limits, env.analyzer.Some?, scanned.value, trace[n]).Some?
              && Answered(env, scanned.value, trace[n])
  {
    if n == |trace| {
      assert trace[..n] == trace;
    } else {
      MadeByPrefix(env, limits, files, trace[..|trace| - 1], n);
      assert trace[..|trace| - 1][..n] == trace[..n];
    }
  }

  lemma SameNext(env: Environment, limits: Limits, files: seq<FileChange>, trace: seq<Event>, trace': seq<Event>, n: nat)
    requires MadeBy(env, limits, files, trace) && MadeBy(env, limits, files, trace')
    requires n < |trace| && n < |trace'| && trace[..n] == trace'[..n]
    ensures trace[n] == trace'[n]
  {
    MadeByPrefix(env, limits, files, trace, n);
    MadeByPrefix(env, limits, files, trace', n);
    OneAnswer(env, limits, Scan(limits, env.analyzer.Some?, files, trace[..n]).value, trace[n], trace'[n]);
  }

  /** Two runs of one environment do the same as far as both go. */
  lemma {:induction false} OnePath(env: Environment, limits: Limits, files: seq<FileChange>, trace: seq<Event>,
                                   longer: seq<Event>)
    requires MadeBy(env, limits, files, trace) && MadeBy(env, limits, files, longer) && |trace| <= |longer|
    ensures trace == longer[..|trace|]
  {
    if trace != [] {
      var n := |trace| - 1;
      OnePath(env, limits, files, trace[..n], longer);
      SameNext(env, limits, files, trace, longer, n);
      assert trace == trace[..n] + [trace[n]];
    }
  }

  lemma StoppedIsLast(limits: Limits, analyzer: bool, p: Position, reason: Option<Reason>, e: Event)
    requires limits.Valid() && Bounded(limits, p)
    requires Stopped(limits, analyzer, p, reason) && reason != Some(TimeLimit)
    ensures Next(limits, analyzer, p, e).None?
  {
  }

  lemma NothingFollows(env: Environment, limits: Limits, files: seq<FileChange>, trace: seq<Event>,
                       reason: Option<Reason>, longer: seq<Event>)
    requires limits.Valid() && DistinctPaths(files)
    requires Ends(env, limits, files, trace, reason) && MadeBy(env, limits, files, longer) && |trace| <= |longer|
    ensures trace == longer
  {
    OnePath(env, limits, files, trace, longer);
    MadeByPrefix(env, limits, files, longer, |trace|);
    RunsAreBounded(limits, env.analyzer.Some?, files, trace);
    if |trace| < |longer| {
      StoppedIsLast(limits, env.analyzer.Some?, Scan(limits, env.analyzer.Some?, files, trace).value, reason,
        longer[|trace|]);
    } else {
      assert longer[..|trace|] == longer;
    }
  }

  /** What the collaborators answer determines the run and how it ends, unless the clock ends it. */
  lemma RunIsDetermined(env: Environment, limits: Limits, files: seq<FileChange>,
                        trace: seq<Event>, reason: Option<Reason>, trace': seq<Event>, reason': Option<Reason>)
    requires limits.Valid() && DistinctPaths(files)
    requires Ends(env, limits, files, trace, reason) && Ends(env, limits, files, trace', reason')
    ensures trace == trace' && reason == reason'
  {
    if |trace| <= |trace'| {
      NothingFollows(env, limits, files, trace, reason, trace');
    } else {
      NothingFollows(env, limits, files, trace', reason', trace);
    }
  }

  // ----- the tool-call limit -----

  /** Nothing is changed, and of the tests only the targeted ones pass. */
  function Answer(tool: Tool): ToolResult {
    ToolResult(tool.TargetedTests?, [], "", "")
  }

  /** Collaborators that never get any further, and take no time over it. */
  const HOPELESS := Environment(
    Plan("", ""), true, (n: nat, tool: Tool) => Answer(tool), Some((n: nat, result: ToolResult) => ""), (k: nat) => 0.0)

  /** Their run stands at the given place of its current turn. */
  ghost predicate Stands(limits: Limits, trace: seq<Event>, stage: Stage, iterations: nat, calls: nat) {
    var scanned := Scan(limits, true, [], trace);
    && MadeBy(HOPELESS, limits, [], trace)
    && scanned.Some? && scanned.value.stage == stage && scanned.value.iterations == iterations
    && scanned.value.calls == calls && scanned.value.files == []
  }

  /** From one place to the next, by an event they answer, whatever was corrected before. */
  ghost predicate Leads(limits: Limits, stage: Stage, iterations: nat, calls: nat, e: Event,
                        stage': Stage, iterations': nat, calls': nat) {
    forall corrections: nat ::
      var p := Position(stage, iterations, calls, corrections, []);
      var next := Next(limits, true, p, e);
      && Answered(HOPELESS, p, e)
      && next.Some? && next.value.stage == stage' && next.value.iterations == iterations'
      && next.value.calls == calls' && next.value.files == []
  }

  lemma OneMore(limits: Limits, trace: seq<Event>, stage: Stage, iterations: nat, calls: nat, e: Event,
                stage': Stage, iterations': nat, calls': nat)
    requires Stands(limits, trace, stage, iterations, calls)
    requires Leads(limits, stage, iterations, calls, e, stage', iterations', calls')
    ensures Stands(limits, trace + [e], stage', iterations', calls')
  {
    var p := Scan(limits, true, [], trace).value;
    assert p == Position(stage, iterations, calls, p.corrections, []);
    MadeByOneMore(HOPELESS, limits, [], trace, p, e);
  }

  function StageBefore(k: nat): Stage
    requires k <= 5
  {
    match k
    case 0 => Fresh
    case 1 => AfterUnderstood
    case 2 => AfterRetrieved
    case 3 => AfterInspected
    case 4 => AfterPlanned
    case _ => Head
  }

  function PlanEvent(k: nat): Event
    requires k < 5
  {
    match k
    case 0 => Understood
    case 1 => Retrieved
    case 2 => Inspected
    case 3 => Planned
    case _ => PlanChecked(true)
  }

  lemma PlanLeads(limits: Limits, k: nat)
    requires k < 5
    ensures Leads(limits, StageBefore(k), 0, 0, PlanEvent(k), StageBefore(k + 1), 0, 0)
  {
  }

  lemma {:induction false} Planning(limits: Limits, k: nat) returns (trace: seq<Event>)
    requires k <= 5
    ensures Stands(limits, trace, StageBefore(k), 0, 0)
  {
    if k == 0 {
      trace := [];
    } else {
      var most := Planning(limits, k - 1);
      PlanLeads(limits, k - 1);
      OneMore(limits, most, StageBefore(k - 1), 0, 0, PlanEvent(k - 1), StageBefore(k), 0, 0);
      trace := most + [PlanEvent(k - 1)];
    }
  }

  /** The stage after so many calls of a turn whose broader tests fail. */
  function StageAfter(calls: nat): Stage
    requires calls <= 4
  {
    match calls
    case 0 => InTurn
    case 1 => Coded
    case 2 => TargetedOk
    case 3 => Failing(Answer(BroaderTests))
    case _ => Explained
  }

  function CallEvent(calls: nat): Event
    requires calls < 4
  {
    match calls
    case 0 => Implemented([])
    case 1 => TargetedRan(Answer(TargetedTests))
    case 2 => BroaderRan(Answer(BroaderTests))
    case _ => Diagnosed("")
  }

  lemma CallLeads(limits: Limits, k: nat, r: nat)
    requires r < 4 && 5 * k + r < limits.maxToolCalls && limits.maxFiles >= 1
    ensures Leads(limits, StageAfter(r), k + 1, 5 * k + r, CallEvent(r), StageAfter(r + 1), k + 1, 5 * k + r + 1)
  {
  }

  lemma {:induction false} WithinTurn(limits: Limits, before: seq<Event>, k: nat, r: nat) returns (trace: seq<Event>)
    requires limits.Valid() && Stands(limits, before, Head, k, 5 * k)
    requires k < limits.maxIterations && r <= 4 && 5 * k + r <= limits.maxToolCalls
    ensures Stands(limits, trace, StageAfter(r), k + 1, 5 * k + r)
  {
    if r == 0 {
      OneMore(limits, before, Head, k, 5 * k, Turn, InTurn, k + 1, 5 * k);
      trace := before + [Turn];
    } else {
      var most := WithinTurn(limits, before, k, r - 1);
      var e := CallEvent(r - 1);
      CallLeads(limits, k, r - 1);
      OneMore(limits, most, StageAfter(r - 1), k + 1, 5 * k + r - 1, e, StageAfter(r), k + 1, 5 * k + r);
      trace := most + [e];
    }
  }

  lemma {:induction false} FailedTurns(limits: Limits, k: nat) returns (trace: seq<Event>)
    requires limits.Valid() && k < limits.maxIterations && 5 * k <= limits.maxToolCalls
    ensures Stands(limits, trace, Head, k, 5 * k)
  {
    if k == 0 {
      trace := Planning(limits, 5);
    } else {
      var before := FailedTurns(limits, k - 1);
      var most := WithinTurn(limits, before, k - 1, 4);
      OneMore(limits, most, Explained, k, 5 * k - 1, Corrected, Head, k, 5 * k);
      trace := most + [Corrected];
    }
  }

  ghost predicate EndsByCalls(env: Environment, limits: Limits, trace: seq<Event>) {
    Ends(env, limits, [], trace, Some(ToolCallLimit))
  }

  /** Some environment with a failure analyzer and enough time makes such a run, and by
      RunIsDetermined no other. */
  ghost predicate CanStop(limits: Limits) {
    exists env: Environment, trace: seq<Event> ::
      env.analyzer.Some? && Prompt(env, limits) && EndsByCalls(env, limits, trace)
  }

  /** The tool-call limit can stop a run exactly when it is below the five calls a turn can
      take, less the two that no guard follows. */
  lemma ToolCallLimitCanStopIffTight(limits: Limits)
    requires limits.Valid()
    ensures CanStop(limits) <==> limits.maxToolCalls <= 5 * limits.maxIterations - 2
  {
    forall env: Environment, trace: seq<Event> | env.analyzer.Some? && EndsByCalls(env, limits, trace)
      ensures limits.maxToolCalls <= 5 * limits.maxIterations - 2
    {
      ToolCallLimitNeedsATightLimit(limits, true, [], trace);
    }
    if limits.maxToolCalls <= 5 * limits.maxIterations - 2 {
      var k, r := limits.maxToolCalls / 5, limits.maxToolCalls % 5;
      var before := FailedTurns(limits, k);
      var trace := WithinTurn(limits, before, k, r);
      assert EndsByCalls(HOPELESS, limits, trace);
    }
  }
}
