/** The bounded implement, test and correct loop of the engineering agent. */
module EngineeringAgents {
  import opened Common

  datatype FileChange = FileChange(path: string, operation: string, summary: string)

  /** An entry of the `changes` output of a tool: a change, a mapping with or without a text
      path, or something else, which is skipped. */
  datatype RawChange = Ready(change: FileChange) | Mapping(fields: Option<FileChange>) | Foreign

  datatype ToolResult = ToolResult(success: bool, changes: seq<RawChange>, error: string, stderr: string)

  datatype Tool = ImplementTool | TargetedTests | BroaderTests | CorrectTool

  datatype Plan = Plan(objective: string, rationale: string)

  datatype Phase =
    | UnderstandPhase | RetrievePhase | InspectPhase | ArchitecturePhase | AffectedPhase | ExistingPhase
    | DuplicationPhase | PlanPhase | ValidatePlanPhase | ImplementPhase | TargetedPhase | BroaderPhase
    | AnalyzePhase | CorrectPhase | ReportPhase | EscalatePhase

  datatype Reason = PlanRejected | IterationLimit | FileLimit | ToolCallLimit | TimeLimit

  datatype Limits = Limits(maxIterations: int, maxFiles: int, maxSeconds: real, maxToolCalls: int) {
    predicate Valid() {
      maxIterations >= 1 && maxFiles >= 1 && maxSeconds > 0.0 && maxToolCalls >= 1
    }
  }

  method MakeLimits(maxIterations: int, maxFiles: int, maxSeconds: real, maxToolCalls: int)
    returns (r: Result<Limits, ValueError>)
    ensures r.Err? <==> maxIterations < 1 || maxFiles < 1 || maxSeconds <= 0.0 || maxToolCalls < 1
    ensures r.Ok? ==> r.value == Limits(maxIterations, maxFiles, maxSeconds, maxToolCalls) && r.value.Valid()
  {
    if maxIterations < 1 || maxFiles < 1 {
      return Err(ValueError.ValueError);
    }
    if maxSeconds <= 0.0 || maxToolCalls < 1 {
      return Err(ValueError.ValueError);
    }
    return Ok(Limits(maxIterations, maxFiles, maxSeconds, maxToolCalls));
  }

  /** What the collaborators answer, by the number of the call, and the clock, by the number
      of the reading. */
  datatype Environment = Environment(
    plan: Plan,
    planValid: bool,
    tool: (nat, Tool) -> ToolResult,
    analyzer: Option<(nat, ToolResult) -> string>,
    clock: nat -> real)

  datatype Report = Report(
    completed: bool,
    plan: Option<Plan>,
    records: seq<Phase>,
    tests: seq<Tool>,
    failures: seq<string>,
    iterations: nat,
    toolCalls: nat,
    reason: Option<Reason>)

  // ----- what a run does, as a sequence of events -----

  datatype Event =
    | Understood
    | Retrieved
    | Inspected
    | Planned
    | PlanChecked(valid: bool)
    | Turn
    | Implemented(changes: seq<FileChange>)
    | TargetedRan(result: ToolResult)
    | BroaderRan(result: ToolResult)
    | Diagnosed(text: string)
    | Corrected

  datatype Stage =
    | Fresh | AfterUnderstood | AfterRetrieved | AfterInspected | AfterPlanned | PlanRefused
    | Head | InTurn | Coded | TooManyFiles | TargetedOk | Failing(result: ToolResult) | Explained | Done

  datatype Position = Position(stage: Stage, iterations: nat, calls: nat, corrections: nat, files: seq<FileChange>)

  function Tracked(files: seq<FileChange>, change: FileChange): seq<FileChange> {
    if exists i :: 0 <= i < |files| && files[i].path == change.path then files else files + [change]
  }

  function TrackedAll(files: seq<FileChange>, changes: seq<FileChange>): seq<FileChange> {
    if changes == [] then files else Tracked(TrackedAll(files, changes[..|changes| - 1]), changes[|changes| - 1])
  }

  /** Where an event leads, if it may happen at all. */
  function Next(limits: Limits, analyzer: bool, p: Position, e: Event): Option<Position> {
    var called := p.(calls := p.calls + 1);
    var free := p.calls < limits.maxToolCalls;
    match e
    case Understood => if p.stage.Fresh? then Some(p.(stage := AfterUnderstood)) else None
    case Retrieved => if p.stage.AfterUnderstood? then Some(p.(stage := AfterRetrieved)) else None
    case Inspected => if p.stage.AfterRetrieved? then Some(p.(stage := AfterInspected)) else None
    case Planned => if p.stage.AfterInspected? then Some(p.(stage := AfterPlanned)) else None
    case PlanChecked(valid) =>
      if p.stage.AfterPlanned? then Some(p.(stage := if valid then Head else PlanRefused)) else None
    case Turn =>
      if p.stage.Head? && p.iterations < limits.maxIterations
      then Some(p.(stage := InTurn, iterations := p.iterations + 1))
      else None
    case Implemented(changes) =>
      var files := TrackedAll(p.files, changes);
      if p.stage.InTurn? && free
      then Some(called.(files := files, stage := if |files| > limits.maxFiles then TooManyFiles else Coded))
      else None
    case TargetedRan(result) =>
      if p.stage.Coded? && free
      then Some(called.(stage := if result.success then TargetedOk else Failing(result)))
      else None
    case BroaderRan(result) =>
      if p.stage.TargetedOk? && free
      then Some(called.(stage := if result.success then Done else Failing(result)))
      else None
    case Diagnosed(_) =>
      if p.stage.Failing? && (analyzer ==> free)
      then Some((if analyzer then called else p).(stage := Explained))
      else None
    case Corrected =>
      if p.stage.Explained? && free && p.iterations < limits.maxIterations
      then Some(called.(stage := Head, corrections := p.corrections + 1))
      else None
  }

  function Scan(limits: Limits, analyzer: bool, files: seq<FileChange>, trace: seq<Event>): Option<Position> {
    if trace == [] then Some(Position(Fresh, 0, 0, 0, files))
    else
      match Scan(limits, analyzer, files, trace[..|trace| - 1])
      case None => None
      case Some(p) => Next(limits, analyzer, p, trace[|trace| - 1])
  }

  // What the report lists, read off the events.

  function PhasesOf(e: Event): seq<Phase> {
    match e
    case Understood => [UnderstandPhase]
    case Retrieved => [RetrievePhase]
    case Inspected => [InspectPhase, ArchitecturePhase, AffectedPhase, ExistingPhase, DuplicationPhase]
    case Planned => [PlanPhase]
    case PlanChecked(_) => [ValidatePlanPhase]
    case Turn => []
    case Implemented(_) => [ImplementPhase]
    case TargetedRan(result) => if result.success then [TargetedPhase] else []
    case BroaderRan(result) => if result.success then [BroaderPhase, ReportPhase] else []
    case Diagnosed(_) => [AnalyzePhase]
    case Corrected => [CorrectPhase]
  }

  function Phases(trace: seq<Event>): seq<Phase> {
    if trace == [] then [] else Phases(trace[..|trace| - 1]) + PhasesOf(trace[|trace| - 1])
  }

  function Tests(trace: seq<Event>): seq<Tool> {
    if trace == [] then []
    else
      var e := trace[|trace| - 1];
      Tests(trace[..|trace| - 1]) +
      if e.TargetedRan? then [TargetedTests] else if e.BroaderRan? then [BroaderTests] else []
  }

  function Diagnoses(trace: seq<Event>): seq<string> {
    if trace == [] then []
    else
      var e := trace[|trace| - 1];
      Diagnoses(trace[..|trace| - 1]) + if e.Diagnosed? then [e.text] else []
  }

  // ----- laws of every run -----

  ghost predicate DistinctPaths(files: seq<FileChange>) {
    forall i, j :: 0 <= i < j < |files| ==> files[i].path != files[j].path
  }

  lemma {:induction false} TrackedAllDistinct(files: seq<FileChange>, changes: seq<FileChange>)
    requires DistinctPaths(files)
    ensures DistinctPaths(TrackedAll(files, changes))
    ensures files <= TrackedAll(files, changes)
  {
    if changes != [] {
      TrackedAllDistinct(files, changes[..|changes| - 1]);
    }
  }

  /** Calls made in the current turn at most, stage by stage. */
  function CallsInTurn(stage: Stage): nat {
    match stage
    case Coded => 1
    case TooManyFiles => 1
    case TargetedOk => 2
    case Failing(_) => 3
    case Done => 3
    case Explained => 4
    case _ => 0
  }

  predicate BeforeLoop(stage: Stage) {
    stage.Fresh? || stage.AfterUnderstood? || stage.AfterRetrieved? || stage.AfterInspected? || stage.AfterPlanned?
    || stage.PlanRefused?
  }

  ghost predicate Bounded(limits: Limits, p: Position) {
    && p.calls <= limits.maxToolCalls
    && DistinctPaths(p.files)
    && (BeforeLoop(p.stage) ==> p.iterations == 0 && p.calls == 0 && p.corrections == 0)
    && (p.stage.Head? ==>
      p.iterations < limits.maxIterations && p.corrections == p.iterations && p.calls <= 5 * p.iterations)
    && (!p.stage.Head? && !BeforeLoop(p.stage) ==>
      && 1 <= p.iterations <= limits.maxIterations
      && p.corrections == p.iterations - 1
      && p.calls <= 5 * (p.iterations - 1) + CallsInTurn(p.stage))
    && (p.stage.Done? || p.stage.Coded? ==> |p.files| <= limits.maxFiles)
    && (p.stage.TargetedOk? ==> |p.files| <= limits.maxFiles)
    && (p.stage.TooManyFiles? ==> |p.files| > limits.maxFiles)
  }

  lemma NextKeepsBounded(limits: Limits, analyzer: bool, p: Position, e: Event)
    requires limits.Valid()
    requires Bounded(limits, p) && Next(limits, analyzer, p, e).Some?
    ensures Bounded(limits, Next(limits, analyzer, p, e).value)
  {
    if e.Implemented? {
      TrackedAllDistinct(p.files, e.changes);
    }
  }

  /** Every run, however the tools answer and whenever it stops: calls stay within the limit
      and within five a turn, every turn but the current one ended in a correction, and the
      head of the loop is never reached with all turns used, so the raise behind the loop is
      dead. */
  lemma {:induction false} RunsAreBounded(limits: Limits, analyzer: bool, files: seq<FileChange>, trace: seq<Event>)
    requires limits.Valid() && DistinctPaths(files)
    requires Scan(limits, analyzer, files, trace).Some?
    ensures Bounded(limits, Scan(limits, analyzer, files, trace).value)
  {
    if trace != [] {
      RunsAreBounded(limits, analyzer, files, trace[..|trace| - 1]);
      NextKeepsBounded(limits, analyzer,
        Scan(limits, analyzer, files, trace[..|trace| - 1]).value, trace[|trace| - 1]);
    }
  }

  /** The bounds a caller sees in the report. */
  lemma CallAndCorrectionBounds(limits: Limits, analyzer: bool, files: seq<FileChange>, trace: seq<Event>)
    requires limits.Valid() && DistinctPaths(files)
    requires Scan(limits, analyzer, files, trace).Some?
    ensures var p := Scan(limits, analyzer, files, trace).value;
            && p.calls <= limits.maxToolCalls
            && p.calls <= 5 * p.iterations
            && p.iterations <= limits.maxIterations
            && p.corrections <= limits.maxIterations - 1
            && (p.iterations == limits.maxIterations ==> p.calls < 5 * p.iterations)
  {
    RunsAreBounded(limits, analyzer, files, trace);
  }

  lemma {:induction false} PrefixScans(limits: Limits, analyzer: bool, files: seq<FileChange>, trace: seq<Event>, n: nat)
    requires n <= |trace|
    requires Scan(limits, analyzer, files, trace).Some?
    ensures Scan(limits, analyzer, files, trace[..n]).Some?
  {
    if n < |trace| {
      PrefixScans(limits, analyzer, files, trace[..|trace| - 1], n);
      assert trace[..|trace| - 1][..n] == trace[..n];
    } else {
      assert trace[..n] == trace;
    }
  }

  /** Reaching the loop takes a validated plan. */
  lemma {:induction false} LoopNeedsPlan(limits: Limits, analyzer: bool, files: seq<FileChange>, trace: seq<Event>)
    requires Scan(limits, analyzer, files, trace).Some?
    ensures !BeforeLoop(Scan(limits, analyzer, files, trace).value.stage) ==> PlanChecked(true) in trace
  {
    if trace != [] {
      var front := trace[..|trace| - 1];
      LoopNeedsPlan(limits, analyzer, files, front);
      assert trace == front + [trace[|trace| - 1]];
    }
  }

  predicate Unplanned(stage: Stage) {
    stage.Fresh? || stage.AfterUnderstood? || stage.AfterRetrieved? || stage.AfterInspected?
  }

  lemma PlanningStep(limits: Limits, analyzer: bool, p: Position, e: Event)
    requires Next(limits, analyzer, p, e).Some?
    ensures Unplanned(Next(limits, analyzer, p, e).value.stage) <==> Unplanned(p.stage) && e != Planned
  {
  }

  /** Where a run stands tells whether a plan was made. */
  lemma {:induction false} PlannedIffPast(limits: Limits, analyzer: bool, files: seq<FileChange>, trace: seq<Event>)
    requires Scan(limits, analyzer, files, trace).Some?
    ensures Planned in trace <==> !Unplanned(Scan(limits, analyzer, files, trace).value.stage)
  {
    if trace != [] {
      var front, e := trace[..|trace| - 1], trace[|trace| - 1];
      PlannedIffPast(limits, analyzer, files, front);
      PlanningStep(limits, analyzer, Scan(limits, analyzer, files, front).value, e);
      assert trace == front + [e];
    }
  }

  /** No implementation call is made before a plan was found valid. */
  lemma {:induction false} NoImplementBeforeValidPlan(
    limits: Limits, analyzer: bool, files: seq<FileChange>, trace: seq<Event>, i: nat)
    requires Scan(limits, analyzer, files, trace).Some?
    requires i < |trace| && trace[i].Implemented?
    ensures exists j :: 0 <= j < i && trace[j] == PlanChecked(true)
  {
    PrefixScans(limits, analyzer, files, trace, i + 1);
    assert trace[..i + 1][..i] == trace[..i];
    LoopNeedsPlan(limits, analyzer, files, trace[..i]);
    assert PlanChecked(true) in trace[..i];
    var j :| 0 <= j < i && trace[..i][j] == PlanChecked(true);
    assert trace[j] == PlanChecked(true);
  }

  /** The end of a run that is `Done`, `TargetedOk` or `Coded`. */
  lemma {:induction false} LastCalls(limits: Limits, analyzer: bool, files: seq<FileChange>, trace: seq<Event>)
    requires Scan(limits, analyzer, files, trace).Some?
    ensures var stage := Scan(limits, analyzer, files, trace).value.stage;
            var n := |trace|;
            && (stage.Coded? ==> n >= 1 && trace[n - 1].Implemented?)
            && (stage.TargetedOk? ==> n >= 2 && trace[n - 2].Implemented? && trace[n - 1].TargetedRan? && trace[n - 1].result.success)
            && (stage.Done? ==>
              n >= 3 && trace[n - 3].Implemented? && trace[n - 2].TargetedRan? && trace[n - 2].result.success
              && trace[n - 1].BroaderRan? && trace[n - 1].result.success)
  {
    if trace != [] {
      LastCalls(limits, analyzer, files, trace[..|trace| - 1]);
    }
  }

  /** Completion means the last three tool calls were an implementation, passing targeted
      tests and passing broader tests, and the files touched are within the limit. */
  lemma CompletionIsVerified(limits: Limits, analyzer: bool, files: seq<FileChange>, trace: seq<Event>)
    requires limits.Valid() && DistinctPaths(files)
    requires Scan(limits, analyzer, files, trace).Some?
    requires Scan(limits, analyzer, files, trace).value.stage.Done?
    ensures var n := |trace|;
            && n >= 3 && trace[n - 3].Implemented?
            && trace[n - 2].TargetedRan? && trace[n - 2].result.success
            && trace[n - 1].BroaderRan? && trace[n - 1].result.success
    ensures var p := Scan(limits, analyzer, files, trace).value;
            |p.files| <= limits.maxFiles && DistinctPaths(p.files)
  {
    LastCalls(limits, analyzer, files, trace);
    RunsAreBounded(limits, analyzer, files, trace);
  }

  /** A guard comes next, which may stop the run. */
  predicate Guarded(limits: Limits, analyzer: bool, p: Position) {
    match p.stage
    case Head => false
    case PlanRefused => false
    case TooManyFiles => false
    case Done => false
    case Failing(_) => analyzer
    case Explained => p.iterations < limits.maxIterations
    case _ => true
  }

  /** Why a run stopped where it did. */
  ghost predicate Stopped(limits: Limits, analyzer: bool, p: Position, reason: Option<Reason>) {
    match reason
    case None => p.stage.Done?
    case Some(PlanRejected) => p.stage.PlanRefused?
    case Some(FileLimit) => p.stage.TooManyFiles?
    case Some(IterationLimit) => p.stage.Explained? && p.iterations == limits.maxIterations
    case Some(ToolCallLimit) => p.calls == limits.maxToolCalls && Guarded(limits, analyzer, p)
    case Some(TimeLimit) => p.calls < limits.maxToolCalls && Guarded(limits, analyzer, p)
  }

  /** The tool-call limit can only stop a run when it is below five calls a turn; with the
      default limits of 3 turns and 40 calls it never does. */
  lemma ToolCallLimitNeedsATightLimit(
    limits: Limits, analyzer: bool, files: seq<FileChange>, trace: seq<Event>)
    requires limits.Valid() && DistinctPaths(files)
    requires Scan(limits, analyzer, files, trace).Some?
    requires Stopped(limits, analyzer, Scan(limits, analyzer, files, trace).value, Some(ToolCallLimit))
    ensures limits.maxToolCalls <= 5 * limits.maxIterations - 2
  {
    RunsAreBounded(limits, analyzer, files, trace);
  }

  /** One failing test run, one diagnosis: the failures reported exceed the corrections made
      by at most one. */
  lemma {:induction false} FailuresMatchCorrections(
    limits: Limits, analyzer: bool, files: seq<FileChange>, trace: seq<Event>)
    requires Scan(limits, analyzer, files, trace).Some?
    ensures var p := Scan(limits, analyzer, files, trace).value;
            |Diagnoses(trace)| == p.corrections + if p.stage.Explained? then 1 else 0
  {
    if trace != [] {
      FailuresMatchCorrections(limits, analyzer, files, trace[..|trace| - 1]);
    }
  }

  // ----- the runs that one environment makes -----

  function FailureText(result: ToolResult): string {
    if result.error != "" then result.error
    else if result.stderr != "" then result.stderr
    else "engineering tool failed"
  }

  /** An event at `p` is what the environment answers there. */
  ghost predicate Answered(env: Environment, p: Position, e: Event) {
    match e
    case PlanChecked(valid) => valid == env.planValid
    case Implemented(changes) => changes == Usable(env.tool(p.calls, ImplementTool).changes)
    case TargetedRan(result) => result == env.tool(p.calls, TargetedTests)
    case BroaderRan(result) => result == env.tool(p.calls, BroaderTests)
    case Diagnosed(text) =>
      p.stage.Failing? &&
      text == (match env.analyzer
               case Some(analyze) => analyze(p.calls, p.stage.result)
               case None => FailureText(p.stage.result))
    case _ => true
  }

  /** A run of the machine, all of whose events the environment answers. */
  ghost predicate MadeBy(env: Environment, limits: Limits, files: seq<FileChange>, trace: seq<Event>) {
    if trace == [] then true
    else
      var before, e := trace[..|trace| - 1], trace[|trace| - 1];
      && MadeBy(env, limits, files, before)
      && var scanned := Scan(limits, env.analyzer.Some?, files, before);
         scanned.Some? && Next(limits, env.analyzer.Some?, scanned.value, e).Some?
         && Answered(env, scanned.value, e)
  }

  lemma {:induction false} MadeByOneMore(env: Environment, limits: Limits, files: seq<FileChange>, trace: seq<Event>,
                                         p: Position, e: Event)
    requires MadeBy(env, limits, files, trace)
    requires Scan(limits, env.analyzer.Some?, files, trace) == Some(p)
    requires Next(limits, env.analyzer.Some?, p, e).Some? && Answered(env, p, e)
    ensures MadeBy(env, limits, files, trace + [e])
    ensures Scan(limits, env.analyzer.Some?, files, trace + [e]) == Next(limits, env.analyzer.Some?, p, e)
  {
    assert (trace + [e])[..|trace|] == trace;
  }

  /** The clock never says that the time is up. */
  ghost predicate Prompt(env: Environment, limits: Limits) {
    forall j: nat, k: nat :: env.clock(k) - env.clock(j) < limits.maxSeconds
  }

  /** A whole run, not stopped by the clock. */
  ghost predicate Ends(env: Environment, limits: Limits, files: seq<FileChange>, trace: seq<Event>,
                       reason: Option<Reason>) {
    && MadeBy(env, limits, files, trace)
    && Scan(limits, env.analyzer.Some?, files, trace).Some?
    && Stopped(limits, env.analyzer.Some?, Scan(limits, env.analyzer.Some?, files, trace).value, reason)
    && reason != Some(TimeLimit)
  }

  // ----- the change tracker -----

  class InMemoryChangeTracker {
    var items: seq<FileChange>

    constructor ()
      ensures items == []
    {
      items := [];
    }

    method Record(change: FileChange)
      modifies this
      ensures items == Tracked(old(items), change)
      ensures items == old(items) <==> exists i :: 0 <= i < |old(items)| && old(items)[i].path == change.path
      ensures items == old(items) || items == old(items) + [change]
    {
      var known := false;
      var i := 0;
      while i < |items|
        invariant 0 <= i <= |items|
        invariant known <==> exists j :: 0 <= j < i && items[j].path == change.path
      {
        if items[i].path == change.path {
          known := true;
        }
        i := i + 1;
      }
      if !known {
        items := items + [change];
      }
    }
  }

  function Usable(raw: seq<RawChange>): seq<FileChange> {
    if raw == [] then []
    else
      var before := Usable(raw[..|raw| - 1]);
      match raw[|raw| - 1]
      case Ready(change) => before + [change]
      case Mapping(Some(change)) => before + [change]
      case _ => before
  }
}
