/** The engineering agent as an object: every run it makes is a run of the event machine. */
module EngineeringRuns {
  import opened Common
  import opened EngineeringAgents

  /** The lists a run builds for its report. */
  datatype Log = Log(records: seq<Phase>, tests: seq<Tool>, failures: seq<string>)

  datatype Outcome = GoOn | Completed | Stop(reason: Reason)

  function LogOf(trace: seq<Event>): Log {
    Log(Phases(trace), Tests(trace), Diagnoses(trace))
  }

  /** What an event adds to the lists. */
  function Extended(log: Log, e: Event): Log {
    Log(log.records + PhasesOf(e),
        if e.TargetedRan? then log.tests + [TargetedTests]
        else if e.BroaderRan? then log.tests + [BroaderTests]
        else log.tests,
        if e.Diagnosed? then log.failures + [e.text] else log.failures)
  }

  lemma LogOneMore(trace: seq<Event>, e: Event)
    ensures LogOf(trace + [e]) == Extended(LogOf(trace), e)
  {
    assert (trace + [e])[..|trace|] == trace;
  }

  /** Phases that call no tool. */
  predicate Precedes(stage: Stage, e: Event) {
    match e
    case Understood => stage.Fresh?
    case Retrieved => stage.AfterUnderstood?
    case Inspected => stage.AfterRetrieved?
    case Planned => stage.AfterInspected?
    case PlanChecked(_) => stage.AfterPlanned?
    case _ => false
  }

  function After(e: Event): Stage {
    match e
    case Understood => AfterUnderstood
    case Retrieved => AfterRetrieved
    case Inspected => AfterInspected
    case Planned => AfterPlanned
    case PlanChecked(valid) => if valid then Head else PlanRefused
    case _ => Fresh
  }

  class EngineeringAgent {
    const env: Environment
    const limits: Limits
    const tracker: InMemoryChangeTracker
    var calls: nat
    var started: real
    var readings: nat
    ghost var initial: seq<FileChange>
    ghost var trace: seq<Event>
    ghost var position: Position

    ghost predicate Valid()
      reads this, tracker
    {
      limits.Valid() && DistinctPaths(tracker.items)
    }

    /** The trace so far is a run of the machine, made by this environment, that ends at
        `position` and logged `log`. */
    ghost predicate OnTrack(log: Log)
      reads this`initial, this`trace, this`position
    {
      && limits.Valid()
      && DistinctPaths(initial)
      && MadeBy(env, limits, initial, trace)
      && Scan(limits, env.analyzer.Some?, initial, trace) == Some(position)
      && LogOf(trace) == log
    }

    ghost predicate InStep()
      reads this`position, this`calls, tracker
    {
      Bounded(limits, position) && position.calls == calls && position.files == tracker.items
    }

    /** The last look at the clock came too late. */
    ghost predicate Overdue()
      reads this`readings, this`started
    {
      readings >= 1 && env.clock(readings - 1) - started >= limits.maxSeconds
    }

    /** The reason to stop holds of where the run stopped, and time is it exactly when it is up. */
    ghost predicate Halted(reason: Option<Reason>)
      reads this`position, this`readings, this`started
    {
      Stopped(limits, env.analyzer.Some?, position, reason) && (reason == Some(TimeLimit) <==> Overdue())
    }

    constructor (env: Environment, limits: Limits, tracker: InMemoryChangeTracker)
      requires limits.Valid() && DistinctPaths(tracker.items)
      ensures Valid() && this.env == env && this.limits == limits && this.tracker == tracker
    {
      this.env, this.limits, this.tracker := env, limits, tracker;
      calls, started, readings := 0, 0.0, 0;
      initial, trace, position := [], [], Position(Fresh, 0, 0, 0, []);
    }

    /** Records an event of the run and what it adds to the lists. */
    method Happen(before: Log, e: Event) returns (log: Log)
      requires OnTrack(before) && Bounded(limits, position)
      requires Next(limits, env.analyzer.Some?, position, e).Some? && Answered(env, position, e)
      modifies `trace, `position
      ensures OnTrack(log) && Bounded(limits, position)
      ensures position == Next(limits, env.analyzer.Some?, old(position), e).value
    {
      MadeByOneMore(env, limits, initial, trace, position, e);
      NextKeepsBounded(limits, env.analyzer.Some?, position, e);
      LogOneMore(trace, e);
      trace := trace + [e];
      position := Next(limits, env.analyzer.Some?, position, e).value;
      log := Extended(before, e);
    }

    method Guard() returns (stop: Option<Reason>)
      modifies `readings
      ensures calls >= limits.maxToolCalls ==> stop == Some(ToolCallLimit) && readings == old(readings)
      ensures calls < limits.maxToolCalls ==>
                && readings == old(readings) + 1
                && stop == if env.clock(old(readings)) - started >= limits.maxSeconds then Some(TimeLimit) else None
    {
      if calls >= limits.maxToolCalls {
        return Some(ToolCallLimit);
      }
      var now := env.clock(readings);
      readings := readings + 1;
      if now - started >= limits.maxSeconds {
        return Some(TimeLimit);
      }
      return None;
    }

    method CallTool(tool: Tool) returns (r: Result<ToolResult, Reason>)
      requires !Overdue()
      modifies `readings, `calls
      ensures Overdue() <==> r == Err(TimeLimit)
      ensures r.Err? ==> calls == old(calls) && (r.error == ToolCallLimit || r.error == TimeLimit)
      ensures r.Err? ==> (r.error == ToolCallLimit <==> calls >= limits.maxToolCalls)
      ensures r.Ok? ==> old(calls) < limits.maxToolCalls && calls == old(calls) + 1
      ensures r.Ok? ==> r.value == env.tool(old(calls), tool)
    {
      var stop := Guard();
      if stop.Some? {
        return Err(stop.value);
      }
      calls := calls + 1;
      return Ok(env.tool(calls - 1, tool));
    }

    method RecordChanges(result: ToolResult) returns (changes: seq<FileChange>)
      modifies tracker
      ensures changes == Usable(result.changes)
      ensures tracker.items == TrackedAll(old(tracker.items), changes)
    {
      changes := [];
      var i := 0;
      while i < |result.changes|
        invariant 0 <= i <= |result.changes|
        invariant changes == Usable(result.changes[..i])
        invariant tracker.items == TrackedAll(old(tracker.items), changes)
      {
        assert result.changes[..i + 1][..i] == result.changes[..i];
        var usable: Option<FileChange> :=
          match result.changes[i]
          case Ready(change) => Some(change)
          case Mapping(fields) => fields
          case Foreign => None;
        if usable.Some? {
          tracker.Record(usable.value);
          assert (changes + [usable.value])[..|changes|] == changes;
          changes := changes + [usable.value];
        }
        i := i + 1;
      }
      assert result.changes[..i] == result.changes;
    }

    /** A guard and then a phase that calls no tool. */
    method Pass(before: Log, e: Event) returns (log: Log, stop: Option<Reason>)
      requires OnTrack(before) && InStep() && !Overdue() && Precedes(position.stage, e)
      requires e.PlanChecked? ==> e.valid == env.planValid
      modifies `readings, `trace, `position
      ensures OnTrack(log) && InStep()
      ensures stop.Some? ==> position == old(position) && Halted(stop)
      ensures stop.None? ==> position == old(position).(stage := After(e)) && !Overdue()
    {
      stop := Guard();
      if stop.Some? {
        return before, stop;
      }
      log := Happen(before, e);
    }

    /** Where a tool is called next, so that the guard may stop the run. */
    ghost predicate Calling()
      reads this`position
    {
      position.stage.InTurn? || position.stage.Coded? || position.stage.TargetedOk?
      || (position.stage.Explained? && position.iterations < limits.maxIterations)
    }

    method Ask(tool: Tool) returns (r: Result<ToolResult, Reason>)
      requires InStep() && !Overdue() && Calling()
      modifies `readings, `calls
      ensures r.Err? ==> InStep() && Halted(Some(r.error))
      ensures r.Ok? ==> !Overdue() && position.calls < limits.maxToolCalls && calls == position.calls + 1
      ensures r.Ok? ==> r.value == env.tool(position.calls, tool)
    {
      r := CallTool(tool);
    }

    /** The implementation call; the changes it reports are tracked, whatever its status. */
    method Implement(before: Log) returns (log: Log, r: Result<ToolResult, Reason>)
      requires OnTrack(before) && InStep() && !Overdue() && position.stage.InTurn?
      modifies `readings, `calls, `trace, `position, tracker
      ensures OnTrack(log) && InStep() && InTurnOf(old(position.iterations))
      ensures r.Err? ==> Halted(Some(r.error))
      ensures r.Ok? ==> !Overdue() && position.stage == if |tracker.items| > limits.maxFiles then TooManyFiles else Coded
    {
      r := Ask(ImplementTool);
      if r.Err? {
        return before, r;
      }
      var changes := RecordChanges(r.value);
      log := Happen(before, Implemented(changes));
    }

    method TestTargeted(before: Log) returns (log: Log, r: Result<ToolResult, Reason>)
      requires OnTrack(before) && InStep() && !Overdue() && position.stage.Coded?
      modifies `readings, `calls, `trace, `position
      ensures OnTrack(log) && InStep() && InTurnOf(old(position.iterations))
      ensures r.Err? ==> Halted(Some(r.error))
      ensures r.Ok? ==> !Overdue() && if r.value.success then position.stage.TargetedOk? else position.stage == Failing(r.value)
    {
      r := Ask(TargetedTests);
      if r.Err? {
        return before, r;
      }
      log := Happen(before, TargetedRan(r.value));
    }

    method TestBroader(before: Log) returns (log: Log, r: Result<ToolResult, Reason>)
      requires OnTrack(before) && InStep() && !Overdue() && position.stage.TargetedOk?
      modifies `readings, `calls, `trace, `position
      ensures OnTrack(log) && InStep() && InTurnOf(old(position.iterations))
      ensures r.Err? ==> Halted(Some(r.error))
      ensures r.Ok? ==> !Overdue() && if r.value.success then position.stage.Done? else position.stage == Failing(r.value)
    {
      r := Ask(BroaderTests);
      if r.Err? {
        return before, r;
      }
      log := Happen(before, BroaderRan(r.value));
    }

    method Correct(before: Log) returns (log: Log, r: Result<ToolResult, Reason>)
      requires OnTrack(before) && InStep() && !Overdue()
      requires position.stage.Explained? && position.iterations < limits.maxIterations
      modifies `readings, `calls, `trace, `position
      ensures OnTrack(log) && InStep() && InTurnOf(old(position.iterations))
      ensures r.Err? ==> Halted(Some(r.error))
      ensures r.Ok? ==> !Overdue() && position.stage.Head?
    {
      r := Ask(CorrectTool);
      if r.Err? {
        return before, r;
      }
      log := Happen(before, Corrected);
    }

    ghost predicate InTurnOf(iterations: nat)
      reads this`position
    {
      position.iterations == iterations && !Unplanned(position.stage)
    }

    /** Knowledge retrieval and inspection. */
    method Explore() returns (log: Log, stop: Option<Reason>)
      requires OnTrack(Log([], [], [])) && InStep() && !Overdue() && position.stage.Fresh?
      modifies `readings, `trace, `position
      ensures OnTrack(log) && InStep() && position.iterations == old(position.iterations)
      ensures stop.None? ==> !Overdue() && position.stage.AfterInspected?
      ensures stop.Some? ==> Halted(stop) && Unplanned(position.stage)
    {
      log, stop := Pass(Log([], [], []), Understood);
      if stop.Some? {
        return;
      }
      log, stop := Pass(log, Retrieved);
      if stop.Some? {
        return;
      }
      log, stop := Pass(log, Inspected);
    }

    /** The plan and its validation. */
    method MakePlan(before: Log) returns (log: Log, plan: Option<Plan>, stop: Option<Reason>)
      requires OnTrack(before) && InStep() && !Overdue() && position.stage.AfterInspected?
      modifies `readings, `trace, `position
      ensures OnTrack(log) && InStep() && position.iterations == old(position.iterations)
      ensures stop.None? ==> !Overdue() && position.stage.Head?
      ensures stop.Some? ==> Halted(stop)
      ensures plan == if Unplanned(position.stage) then None else Some(env.plan)
    {
      plan := None;
      log, stop := Pass(before, Planned);
      if stop.Some? {
        return;
      }
      plan := Some(env.plan);
      log, stop := Pass(log, PlanChecked(env.planValid));
      if stop.None? && !env.planValid {
        stop := Some(PlanRejected);
      }
    }

    /** The text of a failure, from the analyzer when there is one, which counts as a call. */
    method Explain(result: ToolResult) returns (r: Result<string, Reason>)
      requires InStep() && !Overdue() && position.stage == Failing(result)
      modifies `readings, `calls
      ensures r.Err? ==> InStep() && Halted(Some(r.error))
      ensures r.Ok? ==> !Overdue() && Answered(env, position, Diagnosed(r.value))
      ensures r.Ok? && env.analyzer.None? ==>
                r.value == (if result.error == "" then
                              (if result.stderr == "" then "engineering tool failed" else result.stderr)
                            else result.error)
      ensures r.Ok? ==> if env.analyzer.Some? then position.calls < limits.maxToolCalls && calls == position.calls + 1
                        else calls == position.calls
    {
      if env.analyzer.None? {
        return Ok(FailureText(result));
      }
      var stop := Guard();
      if stop.Some? {
        return Err(stop.value);
      }
      calls := calls + 1;
      return Ok(env.analyzer.value(calls - 1, result));
    }

    /** The diagnosis of a failing test run. */
    method Diagnose(before: Log, result: ToolResult) returns (log: Log, stop: Option<Reason>)
      requires OnTrack(before) && InStep() && !Overdue() && position.stage == Failing(result)
      modifies `readings, `calls, `trace, `position
      ensures OnTrack(log) && InStep()
      ensures InTurnOf(old(position.iterations))
      ensures stop.None? ==> !Overdue() && position.stage.Explained?
      ensures stop.Some? ==> Halted(stop)
    {
      var failure := Explain(result);
      if failure.Err? {
        return before, Some(failure.error);
      }
      log := Happen(before, Diagnosed(failure.value));
      stop := None;
    }

    /** What follows a failing test run: diagnosis and, unless this was the last turn, a correction. */
    method Recover(before: Log, result: ToolResult, iterations: nat) returns (log: Log, outcome: Outcome)
      requires OnTrack(before) && InStep() && !Overdue()
      requires position.stage == Failing(result) && position.iterations == iterations
      modifies `readings, `calls, `trace, `position, tracker
      ensures OnTrack(log) && InStep()
      ensures InTurnOf(iterations)
      ensures outcome.GoOn? ==> !Overdue() && position.stage.Head?
      ensures outcome.Stop? ==> Halted(Some(outcome.reason))
      ensures !outcome.Completed?
    {
      var stop;
      log, stop := Diagnose(before, result);
      if stop.Some? {
        return log, Stop(stop.value);
      }
      if iterations >= limits.maxIterations {
        return log, Stop(IterationLimit);
      }
      var correction;
      log, correction := Correct(log);
      outcome := if correction.Err? then Stop(correction.error) else GoOn;
    }

    /** One turn of the loop: implement, targeted tests, broader tests, recovery on failure. */
    method TakeTurn(before: Log, iterations: nat) returns (log: Log, outcome: Outcome)
      requires OnTrack(before) && InStep() && !Overdue()
      requires position.stage.InTurn? && position.iterations == iterations
      modifies `readings, `calls, `trace, `position, tracker
      ensures OnTrack(log) && InStep()
      ensures InTurnOf(iterations)
      ensures outcome.GoOn? ==> !Overdue() && position.stage.Head?
      ensures outcome.Completed? ==> !Overdue() && position.stage.Done?
      ensures outcome.Stop? ==> Halted(Some(outcome.reason))
    {
      var stop := Guard();
      if stop.Some? {
        return before, Stop(stop.value);
      }
      var implementation;
      log, implementation := Implement(before);
      if implementation.Err? {
        return log, Stop(implementation.error);
      }
      if |tracker.items| > limits.maxFiles {
        return log, Stop(FileLimit);
      }
      log, outcome := TestTurn(log, iterations);
    }

    /** The second half of a turn: the tests. */
    method TestTurn(before: Log, iterations: nat) returns (log: Log, outcome: Outcome)
      requires OnTrack(before) && InStep() && !Overdue()
      requires position.stage.Coded? && position.iterations == iterations
      modifies `readings, `calls, `trace, `position, tracker
      ensures OnTrack(log) && InStep()
      ensures InTurnOf(iterations)
      ensures outcome.GoOn? ==> !Overdue() && position.stage.Head?
      ensures outcome.Completed? ==> !Overdue() && position.stage.Done?
      ensures outcome.Stop? ==> Halted(Some(outcome.reason))
    {
      var targeted;
      log, targeted := TestTargeted(before);
      if targeted.Err? {
        return log, Stop(targeted.error);
      }
      if !targeted.value.success {
        log, outcome := Recover(log, targeted.value, iterations);
        return;
      }
      var broader;
      log, broader := TestBroader(log);
      if broader.Err? {
        return log, Stop(broader.error);
      }
      if !broader.value.success {
        log, outcome := Recover(log, broader.value, iterations);
        return;
      }
      outcome := Completed;
    }

    /** The loop: turns until one completes or stops the run. */
    method Iterate(before: Log) returns (log: Log, iterations: nat, stop: Option<Reason>)
      requires OnTrack(before) && InStep() && !Overdue()
      requires position.stage.Head? && position.iterations == 0
      modifies `readings, `calls, `trace, `position, tracker
      ensures OnTrack(log) && InStep()
      ensures InTurnOf(iterations)
      ensures Halted(stop)
    {
      log, iterations := before, 0;
      while iterations < limits.maxIterations
        invariant OnTrack(log) && InStep() && !Overdue()
        invariant position.stage.Head? && position.iterations == iterations
        decreases limits.maxIterations - iterations
      {
        iterations := iterations + 1;
        log := Happen(log, Turn);
        var outcome;
        log, outcome := TakeTurn(log, iterations);
        if !outcome.GoOn? {
          stop := if outcome.Stop? then Some(outcome.reason) else None;
          return;
        }
      }
      // The machine never stands at the head of the loop with every turn used.
      assert false;
    }

    /** A run of the agent. The report is read off a trace that the event machine accepts. */
    method Run() returns (report: Report)
      requires Valid()
      modifies this, tracker
      ensures Valid() && initial == old(tracker.items)
      ensures Scan(limits, env.analyzer.Some?, initial, trace) == Some(position)
      ensures MadeBy(env, limits, initial, trace)
      ensures tracker.items == position.files
      ensures report.completed <==> report.reason.None?
      ensures Stopped(limits, env.analyzer.Some?, position, report.reason)
      ensures started == env.clock(old(readings)) && (report.reason == Some(TimeLimit) <==> Overdue())
      ensures Prompt(env, limits) ==> Ends(env, limits, initial, trace, report.reason)
      ensures report.toolCalls == position.calls && report.iterations == position.iterations
      ensures report.records == Phases(trace) + if report.completed then [] else [EscalatePhase]
      ensures report.tests == Tests(trace) && report.failures == Diagnoses(trace)
      ensures report.plan == if Planned in trace then Some(env.plan) else None
    {
      calls := 0;
      initial, trace, position := tracker.items, [], Position(Fresh, 0, 0, 0, tracker.items);
      started := env.clock(readings);
      readings := readings + 1;
      var iterations: nat := 0;
      var log, stop := Explore();
      var plan := None;
      if stop.None? {
        log, plan, stop := MakePlan(log);
        if stop.None? {
          log, iterations, stop := Iterate(log);
        }
      }
      PlannedIffPast(limits, env.analyzer.Some?, initial, trace);
      report := Ended(log, plan, iterations, stop);
    }

    function Ended(log: Log, plan: Option<Plan>, iterations: nat, stop: Option<Reason>): Report
      reads this
    {
      Report(stop.None?, plan, log.records + if stop.None? then [] else [EscalatePhase],
             log.tests, log.failures, iterations, calls, stop)
    }
  }
}
