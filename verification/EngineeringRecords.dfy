/** The change records of a run of the engineering agent, as the process they tell. */
module EngineeringRecords {
  import opened Common
  import opened EngineeringAgents

  /** Which phase may be recorded directly after which. */
  function Successors(phase: Phase): set<Phase> {
    match phase
    case UnderstandPhase => {RetrievePhase}
    case RetrievePhase => {InspectPhase}
    case InspectPhase => {ArchitecturePhase}
    case ArchitecturePhase => {AffectedPhase}
    case AffectedPhase => {ExistingPhase}
    case ExistingPhase => {DuplicationPhase}
    case DuplicationPhase => {PlanPhase}
    case PlanPhase => {ValidatePlanPhase}
    case ValidatePlanPhase => {ImplementPhase}
    case ImplementPhase => {TargetedPhase, AnalyzePhase}
    case TargetedPhase => {BroaderPhase, AnalyzePhase}
    case BroaderPhase => {ReportPhase}
    case AnalyzePhase => {CorrectPhase}
    case CorrectPhase => {ImplementPhase}
    case _ => {}
  }

  ghost predicate InOrder(records: seq<Phase>) {
    && (records != [] ==> records[0] == UnderstandPhase)
    && forall i :: 0 < i < |records| ==> records[i] in Successors(records[i - 1])
  }

  /** The phases one of which was recorded last when a run stands at this stage. */
  function Latest(stage: Stage): set<Phase> {
    match stage
    case Fresh => {}
    case AfterUnderstood => {UnderstandPhase}
    case AfterRetrieved => {RetrievePhase}
    case AfterInspected => {DuplicationPhase}
    case AfterPlanned => {PlanPhase}
    case PlanRefused => {ValidatePlanPhase}
    case Head => {ValidatePlanPhase, CorrectPhase}
    case InTurn => {ValidatePlanPhase, CorrectPhase}
    case Coded => {ImplementPhase}
    case TooManyFiles => {ImplementPhase}
    case TargetedOk => {TargetedPhase}
    case Failing(_) => {ImplementPhase, TargetedPhase}
    case Explained => {AnalyzePhase}
    case Done => {ReportPhase}
  }

  ghost predicate EndsAt(records: seq<Phase>, stage: Stage) {
    if records == [] then stage.Fresh? else records[|records| - 1] in Latest(stage)
  }

  lemma {:induction false} InOrderAppend(records: seq<Phase>, phase: Phase)
    requires InOrder(records)
    requires if records == [] then phase == UnderstandPhase else phase in Successors(records[|records| - 1])
    ensures InOrder(records + [phase])
  {
  }

  lemma {:induction false} InspectionInOrder(records: seq<Phase>)
    requires InOrder(records) && records != [] && records[|records| - 1] == RetrievePhase
    ensures InOrder(records + PhasesOf(Inspected))
  {
    var phases := PhasesOf(Inspected);
    InOrderAppend(records, phases[0]);
    InOrderAppend(records + phases[..1], phases[1]);
    InOrderAppend(records + phases[..2], phases[2]);
    InOrderAppend(records + phases[..3], phases[3]);
    InOrderAppend(records + phases[..4], phases[4]);
    assert records + phases[..1] == records + [phases[0]];
    assert records + phases[..2] == records + phases[..1] + [phases[1]];
    assert records + phases[..3] == records + phases[..2] + [phases[2]];
    assert records + phases[..4] == records + phases[..3] + [phases[3]];
    assert records + phases == records + phases[..4] + [phases[4]];
  }

  lemma {:induction false} StepInOrder(limits: Limits, analyzer: bool, p: Position, records: seq<Phase>, e: Event)
    requires InOrder(records) && EndsAt(records, p.stage) && Next(limits, analyzer, p, e).Some?
    ensures InOrder(records + PhasesOf(e)) && EndsAt(records + PhasesOf(e), Next(limits, analyzer, p, e).value.stage)
  {
    var phases := PhasesOf(e);
    if e.Inspected? {
      InspectionInOrder(records);
    } else if |phases| == 0 {
      assert records + phases == records;
    } else {
      InOrderAppend(records, phases[0]);
      assert records + phases[..1] == records + [phases[0]];
      if |phases| == 2 {
        InOrderAppend(records + phases[..1], phases[1]);
        assert records + phases == records + phases[..1] + [phases[1]];
      } else {
        assert phases == phases[..1];
      }
    }
  }

  /** Every run records its phases in the order of the process, without leaving one out, and
      where it stands tells which one was last: a completed run ends with its report, one that
      explained a failure with the analysis, one stopped for its files with the implementation. */
  lemma {:induction false} RecordsFollowTheProcess(limits: Limits, analyzer: bool, files: seq<FileChange>, trace: seq<Event>)
    requires Scan(limits, analyzer, files, trace).Some?
    ensures InOrder(Phases(trace)) && EndsAt(Phases(trace), Scan(limits, analyzer, files, trace).value.stage)
  {
    if trace != [] {
      var before, e := trace[..|trace| - 1], trace[|trace| - 1];
      RecordsFollowTheProcess(limits, analyzer, files, before);
      StepInOrder(limits, analyzer, Scan(limits, analyzer, files, before).value, Phases(before), e);
    }
  }

  // ----- the changes a tool reports -----

  /** What a reported change amounts to: one that is complete, or nothing. */
  function Read(raw: RawChange): seq<FileChange> {
    match raw
    case Ready(change) => [change]
    case Mapping(fields) => if fields.Some? then [fields.value] else []
    case Foreign => []
  }

  /** The usable changes are those of the parts of the output, in order. */
  lemma {:induction false} UsableInOrder(raw: seq<RawChange>, more: seq<RawChange>)
    ensures Usable(raw + more) == Usable(raw) + Usable(more)
    ensures |raw| == 1 ==> Usable(raw) == Read(raw[0])
  {
    if more == [] {
      assert raw + more == raw;
    } else {
      var n := |more| - 1;
      assert (raw + more)[..|raw| + n] == raw + more[..n];
      UsableInOrder(raw, more[..n]);
    }
  }
}
