/** Independent verification with bounded self-correction. */
module Verification {
  import opened Common

  datatype Stage = Requirement | CodeStage | TestStage | Regression | Architecture | SecurityStage | Quality

  const STAGES := [Requirement, CodeStage, TestStage, Regression, Architecture, SecurityStage, Quality]

  datatype FailureClass =
    | Syntax | Type | Test | Runtime | Dependency | Layering | Permission | Acceptance | Environment | Unknown

  datatype StageResult = StageResult(stage: Stage, passed: bool, detail: string, evidence: seq<string>)

  datatype Analysis = Analysis(classification: FailureClass, suspectedCause: string, evidence: seq<string>)

  datatype Validation = Validated | Rejected

  datatype Correction = Correction(
    attempt: nat,
    originalFailure: string,
    classification: FailureClass,
    suspectedCause: string,
    changes: seq<string>,
    validation: Validation,
    remainingUncertainty: string)

  datatype Status = VerifiedStatus | EscalatedStatus

  /** The three escalation reasons, which the source words as texts. */
  datatype Reason = BaselineFailed | LimitReached | NotValidated

  datatype Report = Report(
    status: Status,
    stages: seq<StageResult>,
    corrections: seq<Correction>,
    failures: seq<string>,
    attempts: nat,
    escalated: bool,
    reason: Option<Reason>)

  datatype RegressionGuard = RegressionGuard(baseline: StageResult, regression: nat -> StageResult)

  /** What the collaborators answer. A collaborator may keep any state of its own, so its
      answer is a function of the round in which it is asked. */
  datatype Oracles = Oracles(
    verifier: (nat, Stage) -> StageResult,
    validation: nat -> StageResult,
    guard: Option<RegressionGuard>,
    analyze: (nat, StageResult) -> Analysis,
    correct: (nat, Analysis) -> seq<string>)

  // ----- one round -----

  function Answer(o: Oracles, round: nat, stage: Stage): StageResult {
    if stage == Regression && o.guard.Some? then o.guard.value.regression(round) else o.verifier(round, stage)
  }

  /** The results of one full round, in the order of the stages. */
  function Round(o: Oracles, round: nat): (results: seq<StageResult>)
    ensures |results| == 7
  {
    [Answer(o, round, Requirement), Answer(o, round, CodeStage), Answer(o, round, TestStage),
     Answer(o, round, Regression), Answer(o, round, Architecture), Answer(o, round, SecurityStage),
     Answer(o, round, Quality)]
  }

  lemma RoundAt(o: Oracles, round: nat, i: nat)
    requires i < |STAGES|
    ensures Round(o, round)[i] == Answer(o, round, STAGES[i])
  {
  }

  method RunStages(o: Oracles, round: nat) returns (results: seq<StageResult>)
    ensures results == Round(o, round)
  {
    results := [];
    var i := 0;
    while i < |STAGES|
      invariant 0 <= i <= |STAGES|
      invariant results == Round(o, round)[..i]
    {
      var result;
      if STAGES[i] == Regression && o.guard.Some? {
        result := o.guard.value.regression(round);
      } else {
        result := o.verifier(round, STAGES[i]);
      }
      RoundAt(o, round, i);
      results := results + [result];
      i := i + 1;
    }
  }

  function FirstFailure(results: seq<StageResult>): Option<StageResult> {
    if results == [] then None
    else if !results[0].passed then Some(results[0])
    else FirstFailure(results[1..])
  }

  lemma {:induction false} FirstFailureComesFirst(results: seq<StageResult>) returns (k: nat)
    requires FirstFailure(results).Some?
    ensures k < |results| && results[k] == FirstFailure(results).value && !results[k].passed
    ensures forall i :: 0 <= i < k ==> results[i].passed
  {
    k := 0;
    if results[0].passed {
      var rest := FirstFailureComesFirst(results[1..]);
      k := rest + 1;
    }
  }

  lemma {:induction false} NoFailure(results: seq<StageResult>)
    ensures FirstFailure(results).None? <==> forall i :: 0 <= i < |results| ==> results[i].passed
  {
    if results != [] {
      NoFailure(results[1..]);
      assert forall i :: 0 < i < |results| ==> results[i] == results[1..][i - 1];
    }
  }

  ghost predicate RoundPasses(o: Oracles, round: nat) {
    forall stage: Stage :: Answer(o, round, stage).passed
  }

  lemma RoundPassesIffNoFailure(o: Oracles, round: nat)
    ensures RoundPasses(o, round) <==> FirstFailure(Round(o, round)).None?
  {
    var results := Round(o, round);
    NoFailure(results);
    forall stage: Stage
      ensures Answer(o, round, stage) == results[Place(stage)]
    {
      RoundAt(o, round, Place(stage));
    }
    forall i | 0 <= i < |results|
      ensures results[i] == Answer(o, round, STAGES[i])
    {
      RoundAt(o, round, i);
    }
  }

  function Place(stage: Stage): (i: nat)
    ensures i < |STAGES| && STAGES[i] == stage
  {
    match stage
    case Requirement => 0
    case CodeStage => 1
    case TestStage => 2
    case Regression => 3
    case Architecture => 4
    case SecurityStage => 5
    case Quality => 6
  }

  // ----- what a run of a given number of rounds has logged -----

  function Baseline(o: Oracles): seq<StageResult> {
    if o.guard.Some? then [o.guard.value.baseline] else []
  }

  predicate BaselineHolds(o: Oracles) {
    o.guard.Some? ==> o.guard.value.baseline.passed
  }

  function Stages(o: Oracles, rounds: nat): seq<StageResult> {
    if rounds == 0 then Baseline(o) else Stages(o, rounds - 1) + Round(o, rounds - 1)
  }

  function DetailOf(failed: StageResult): string {
    if failed.detail == "" then "verification stage failed" else failed.detail
  }

  /** The first failing result of a round; any value when nothing fails. */
  function Failed(o: Oracles, round: nat): StageResult {
    match FirstFailure(Round(o, round))
    case Some(failed) => failed
    case None => Round(o, round)[0]
  }

  function Failures(o: Oracles, rounds: nat): seq<string> {
    if rounds == 0 then [] else Failures(o, rounds - 1) + [DetailOf(Failed(o, rounds - 1))]
  }

  function CorrectionOf(o: Oracles, round: nat): Correction {
    var failed := Failed(o, round);
    var analysis := o.analyze(round, failed);
    Correction(
      round + 1, failed.detail, analysis.classification, analysis.suspectedCause, o.correct(round, analysis),
      if o.validation(round).passed then Validated else Rejected,
      if analysis.evidence != [] then analysis.evidence[0] else "uncertainty remains until full verification")
  }

  function Corrections(o: Oracles, attempts: nat): seq<Correction> {
    if attempts == 0 then [] else Corrections(o, attempts - 1) + [CorrectionOf(o, attempts - 1)]
  }

  /** The round fails and its correction validates, so the loop goes round again. */
  ghost predicate Continues(o: Oracles, round: nat) {
    !RoundPasses(o, round) && o.validation(round).passed
  }

  ghost predicate AllContinue(o: Oracles, rounds: nat) {
    forall q: nat :: q < rounds ==> Continues(o, q)
  }

  function Escalated(stages: seq<StageResult>, corrections: seq<Correction>, failures: seq<string>,
                     reason: Reason, attempts: nat): Report {
    Report(EscalatedStatus, stages, corrections, failures, attempts, true, Some(reason))
  }

  // The four exits, each with everything the report holds.

  ghost predicate BaselineExit(o: Oracles, report: Report) {
    && o.guard.Some? && !o.guard.value.baseline.passed
    && report == Escalated([o.guard.value.baseline], [], [o.guard.value.baseline.detail], BaselineFailed, 0)
  }

  ghost predicate VerifiedExit(o: Oracles, limit: nat, report: Report) {
    var a := report.attempts;
    && BaselineHolds(o) && a <= limit && AllContinue(o, a) && RoundPasses(o, a)
    && report == Report(VerifiedStatus, Stages(o, a + 1), Corrections(o, a), Failures(o, a), a, false, None)
  }

  ghost predicate LimitExit(o: Oracles, limit: nat, report: Report) {
    var a := report.attempts;
    && BaselineHolds(o) && a == limit && AllContinue(o, a) && !RoundPasses(o, a)
    && report == Escalated(Stages(o, a + 1), Corrections(o, a), Failures(o, a + 1), LimitReached, a)
  }

  ghost predicate RejectedExit(o: Oracles, limit: nat, report: Report) {
    var a := report.attempts;
    && BaselineHolds(o) && 1 <= a <= limit && AllContinue(o, a - 1)
    && !RoundPasses(o, a - 1) && !o.validation(a - 1).passed
    && report == Escalated(Stages(o, a), Corrections(o, a), Failures(o, a), NotValidated, a)
  }

  ghost predicate Explains(o: Oracles, limit: nat, report: Report) {
    || BaselineExit(o, report)
    || VerifiedExit(o, limit, report)
    || LimitExit(o, limit, report)
    || RejectedExit(o, limit, report)
  }

  /** One correction of a failed round, and whether it validated. */
  method CorrectRound(o: Oracles, round: nat, failed: StageResult) returns (correction: Correction)
    requires FirstFailure(Round(o, round)) == Some(failed)
    ensures correction == CorrectionOf(o, round)
  {
    var analysis := o.analyze(round, failed);
    var changes := o.correct(round, analysis);
    var validation := if o.validation(round).passed then Validated else Rejected;
    correction := Correction(
      round + 1, failed.detail, analysis.classification, analysis.suspectedCause, changes, validation,
      if analysis.evidence != [] then analysis.evidence[0] else "uncertainty remains until full verification");
  }

  lemma ContinueOnce(o: Oracles, rounds: nat)
    requires AllContinue(o, rounds) && Continues(o, rounds)
    ensures AllContinue(o, rounds + 1)
  {
  }

  lemma OneMoreRound(o: Oracles, a: nat)
    ensures Stages(o, a + 1) == Stages(o, a) + Round(o, a)
    ensures Failures(o, a + 1) == Failures(o, a) + [DetailOf(Failed(o, a))]
    ensures Corrections(o, a + 1) == Corrections(o, a) + [CorrectionOf(o, a)]
  {
  }

  function VerifiedReport(o: Oracles, a: nat): Report {
    Report(VerifiedStatus, Stages(o, a + 1), Corrections(o, a), Failures(o, a), a, false, None)
  }

  function LimitReport(o: Oracles, a: nat): Report {
    Escalated(Stages(o, a + 1), Corrections(o, a), Failures(o, a + 1), LimitReached, a)
  }

  function RejectedReport(o: Oracles, a: nat): Report {
    Escalated(Stages(o, a), Corrections(o, a), Failures(o, a), NotValidated, a)
  }

  lemma Exits(o: Oracles, limit: nat, a: nat)
    requires BaselineHolds(o) && a <= limit && AllContinue(o, a)
    ensures RoundPasses(o, a) ==> VerifiedExit(o, limit, VerifiedReport(o, a))
    ensures !RoundPasses(o, a) && a == limit ==> LimitExit(o, limit, LimitReport(o, a))
    ensures !RoundPasses(o, a) && a < limit && !o.validation(a).passed ==>
              RejectedExit(o, limit, RejectedReport(o, a + 1))
  {
  }

  /** Verifies until a round passes, a correction does not validate, or the limit is reached. */
  method Verify(o: Oracles, limit: nat) returns (report: Report)
    ensures Explains(o, limit, report)
  {
    if o.guard.Some? {
      var baseline := o.guard.value.baseline;
      if !baseline.passed {
        report := Escalated([baseline], [], [baseline.detail], BaselineFailed, 0);
        assert BaselineExit(o, report);
        return;
      }
    }
    report := VerifyRounds(o, limit);
  }

  /** The loop, once the baseline holds. */
  method VerifyRounds(o: Oracles, limit: nat) returns (report: Report)
    requires BaselineHolds(o)
    ensures VerifiedExit(o, limit, report) || LimitExit(o, limit, report) || RejectedExit(o, limit, report)
  {
    var stages: seq<StageResult> := Baseline(o);
    var corrections: seq<Correction> := [];
    var failures: seq<string> := [];
    var attempts := 0;
    while true
      invariant attempts <= limit
      invariant AllContinue(o, attempts)
      invariant stages == Stages(o, attempts)
      invariant corrections == Corrections(o, attempts)
      invariant failures == Failures(o, attempts)
      decreases limit - attempts
    {
      OneMoreRound(o, attempts);
      Exits(o, limit, attempts);
      RoundPassesIffNoFailure(o, attempts);
      var current := RunStages(o, attempts);
      stages := stages + current;
      var failed := FirstFailure(current);
      if failed.None? {
        report := Report(VerifiedStatus, stages, corrections, failures, attempts, false, None);
        assert report == VerifiedReport(o, attempts);
        return;
      }
      failures := failures + [DetailOf(failed.value)];
      if attempts >= limit {
        report := Escalated(stages, corrections, failures, LimitReached, attempts);
        assert report == LimitReport(o, attempts);
        return;
      }
      var correction := CorrectRound(o, attempts, failed.value);
      corrections := corrections + [correction];
      attempts := attempts + 1;
      if correction.validation.Rejected? {
        report := Escalated(stages, corrections, failures, NotValidated, attempts);
        assert report == RejectedReport(o, attempts);
        return;
      }
      ContinueOnce(o, attempts - 1);
    }
  }

  // ----- what the exits amount to -----

  /** The answers of the collaborators determine the report. */
  lemma ReportIsDetermined(o: Oracles, limit: nat, a: Report, b: Report)
    requires Explains(o, limit, a) && Explains(o, limit, b)
    ensures a == b
  {
    if !BaselineExit(o, a) && !BaselineExit(o, b) {
      SameAttempts(o, limit, a, b);
      SameAttempts(o, limit, b, a);
    }
  }

  /** The last round a report saw did not go on, so no report saw more rounds. */
  lemma SameAttempts(o: Oracles, limit: nat, a: Report, b: Report)
    requires !BaselineExit(o, a) && !BaselineExit(o, b)
    requires Explains(o, limit, a) && Explains(o, limit, b)
    ensures LastRound(o, limit, a) <= LastRound(o, limit, b)
    ensures LastRound(o, limit, a) == LastRound(o, limit, b) ==>
              (RejectedExit(o, limit, a) <==> RejectedExit(o, limit, b))
  {
    var last := LastRound(o, limit, b);
    assert last < LastRound(o, limit, a) ==> Continues(o, last);
  }

  ghost function LastRound(o: Oracles, limit: nat, report: Report): nat {
    if RejectedExit(o, limit, report) then report.attempts - 1 else report.attempts
  }

  /** Verified exactly when the baseline holds and a round within the limit passes, all
      earlier rounds having failed and been corrected with a validated change. */
  lemma VerifiedIffARoundPasses(o: Oracles, limit: nat, report: Report)
    requires Explains(o, limit, report)
    ensures report.status == VerifiedStatus <==>
            BaselineHolds(o) && exists r: nat :: r <= limit && RoundPasses(o, r) && AllContinue(o, r)
  {
    if report.status == VerifiedStatus {
      assert RoundPasses(o, report.attempts) && AllContinue(o, report.attempts);
    } else if BaselineHolds(o) {
      forall r: nat | r <= limit && AllContinue(o, r)
        ensures !RoundPasses(o, r)
      {
        var last := LastRound(o, limit, report);
        assert r < last ==> Continues(o, r);
        assert last < r ==> Continues(o, last);
      }
    }
  }

  lemma {:induction false} StagesLength(o: Oracles, rounds: nat)
    ensures |Stages(o, rounds)| == |Baseline(o)| + 7 * rounds
  {
    if rounds > 0 {
      StagesLength(o, rounds - 1);
      assert |Round(o, rounds - 1)| == 7;
    }
  }

  lemma {:induction false} FailuresLength(o: Oracles, rounds: nat)
    ensures |Failures(o, rounds)| == rounds
  {
    if rounds > 0 {
      FailuresLength(o, rounds - 1);
    }
  }

  lemma {:induction false} CorrectionsListed(o: Oracles, attempts: nat)
    ensures |Corrections(o, attempts)| == attempts
    ensures forall i :: 0 <= i < attempts ==> Corrections(o, attempts)[i] == CorrectionOf(o, i)
  {
    if attempts > 0 {
      CorrectionsListed(o, attempts - 1);
    }
  }

  lemma VerifiedCounts(o: Oracles, limit: nat, report: Report)
    requires VerifiedExit(o, limit, report)
    ensures report.attempts == |report.corrections| <= limit
    ensures |report.stages| == |Baseline(o)| + 7 * (report.attempts + 1)
    ensures |report.failures| == report.attempts
  {
    StagesLength(o, report.attempts + 1);
    FailuresLength(o, report.attempts);
    CorrectionsListed(o, report.attempts);
  }

  lemma LimitCounts(o: Oracles, limit: nat, report: Report)
    requires LimitExit(o, limit, report)
    ensures report.attempts == |report.corrections| == limit
    ensures |report.stages| == |Baseline(o)| + 7 * (report.attempts + 1)
    ensures |report.failures| == report.attempts + 1
  {
    StagesLength(o, report.attempts + 1);
    FailuresLength(o, report.attempts + 1);
    CorrectionsListed(o, report.attempts);
  }

  lemma RejectedCounts(o: Oracles, limit: nat, report: Report)
    requires RejectedExit(o, limit, report)
    ensures 1 <= report.attempts == |report.corrections| <= limit
    ensures |report.stages| == |Baseline(o)| + 7 * report.attempts
    ensures |report.failures| == report.attempts
  {
    StagesLength(o, report.attempts);
    FailuresLength(o, report.attempts);
    CorrectionsListed(o, report.attempts);
  }

  /** How long every list of the report is, exit by exit, and the correction bound. */
  lemma ReportCounts(o: Oracles, limit: nat, report: Report)
    requires Explains(o, limit, report)
    ensures report.attempts == |report.corrections| <= limit
    ensures report.escalated <==> report.status != VerifiedStatus
    ensures report.status == VerifiedStatus ==>
              && |report.stages| == |Baseline(o)| + 7 * (report.attempts + 1)
              && |report.failures| == report.attempts
    ensures report.reason == Some(BaselineFailed) ==>
              |report.stages| == 1 && |report.failures| == 1 && report.attempts == 0
    ensures report.reason == Some(LimitReached) ==>
              && report.attempts == limit
              && |report.stages| == |Baseline(o)| + 7 * (report.attempts + 1)
              && |report.failures| == report.attempts + 1
    ensures report.reason == Some(NotValidated) ==>
              && report.attempts >= 1
              && |report.stages| == |Baseline(o)| + 7 * report.attempts
              && |report.failures| == report.attempts
  {
    if VerifiedExit(o, limit, report) {
      VerifiedCounts(o, limit, report);
    } else if LimitExit(o, limit, report) {
      LimitCounts(o, limit, report);
    } else if RejectedExit(o, limit, report) {
      RejectedCounts(o, limit, report);
    }
  }

  /** Corrections are numbered from 1, and only the one a run is escalated for was rejected. */
  lemma OnlyTheLastIsRejected(o: Oracles, limit: nat, report: Report, i: nat)
    requires Explains(o, limit, report) && i < |report.corrections|
    ensures report.corrections[i].attempt == i + 1
    ensures report.corrections[i].validation.Rejected? <==>
            report.reason == Some(NotValidated) && i == |report.corrections| - 1
  {
    CorrectionsListed(o, report.attempts);
    assert report.corrections[i] == CorrectionOf(o, i);
    assert i < LastRound(o, limit, report) ==> Continues(o, i);
  }

  // ----- the verified property of a report -----

  /** Nothing later in the log carries the label of entry `i`. */
  ghost predicate Latest(stages: seq<StageResult>, i: nat)
    requires i < |stages|
  {
    forall j :: i < j < |stages| ==> stages[j].stage != stages[i].stage
  }

  ghost predicate IsVerified(report: Report) {
    && report.status == VerifiedStatus && !report.escalated
    && report.stages != []
    && forall i :: 0 <= i < |report.stages| && Latest(report.stages, i) ==> report.stages[i].passed
  }

  /** The computed property: fill a dictionary with the last result per stage, look at its values. */
  method Verified(report: Report) returns (verified: bool)
    ensures verified <==> IsVerified(report)
  {
    if report.status != VerifiedStatus || report.escalated {
      return false;
    }
    var latest: map<Stage, StageResult> := map[];
    ghost var place: map<Stage, nat> := map[];
    var i := 0;
    while i < |report.stages|
      invariant 0 <= i <= |report.stages|
      invariant latest.Keys == place.Keys
      invariant forall k :: k in place ==> place[k] < i && report.stages[place[k]] == latest[k] && latest[k].stage == k
      invariant forall k :: k in place ==> forall j :: place[k] < j < i ==> report.stages[j].stage != k
      invariant forall j :: 0 <= j < i ==> report.stages[j].stage in place
    {
      var stage := report.stages[i];
      latest := latest[stage.stage := stage];
      place := place[stage.stage := i];
      i := i + 1;
    }
    verified := latest != map[] && forall k :: k in latest ==> latest[k].passed;
    PlacesAreLatest(report.stages, place);
    assert report.stages != [] ==> report.stages[0].stage in latest;
    assert latest != map[] ==> report.stages != [];
    assert forall k :: k in latest ==> latest[k].passed == report.stages[place[k]].passed;
  }

  ghost predicate Places(stages: seq<StageResult>, place: map<Stage, nat>) {
    && (forall k :: k in place ==> place[k] < |stages| && stages[place[k]].stage == k)
    && (forall k :: k in place ==> forall j :: place[k] < j < |stages| ==> stages[j].stage != k)
    && (forall j :: 0 <= j < |stages| ==> stages[j].stage in place)
  }

  lemma PlacesAreLatest(stages: seq<StageResult>, place: map<Stage, nat>)
    requires Places(stages, place)
    ensures forall k :: k in place ==> place[k] < |stages| && Latest(stages, place[k])
    ensures forall i :: 0 <= i < |stages| && Latest(stages, i) ==>
              stages[i].stage in place && place[stages[i].stage] == i
  {
    forall i | 0 <= i < |stages| && Latest(stages, i)
      ensures stages[i].stage in place && place[stages[i].stage] == i
    {
      var k := stages[i].stage;
      assert !(i < place[k]);
      assert !(place[k] < i);
    }
  }

  /** Which label the answer to a stage carries, round by round. */
  type Labels = (nat, Stage) -> Stage

  ghost predicate LabelledBy(o: Oracles, labels: Labels) {
    forall r: nat, stage: Stage :: Answer(o, r, stage).stage == labels(r, stage)
  }

  ghost predicate Uses(labels: Labels, a: nat, found: Stage) {
    exists t: Stage :: labels(a, t) == found
  }

  /** Round a answers under every label that an earlier round used. */
  ghost predicate Covers(labels: Labels, a: nat) {
    forall r: nat, stage: Stage :: r < a ==> Uses(labels, a, labels(r, stage))
  }

  /** Every logged result is the baseline or an answer of a logged round. */
  lemma {:induction false} LoggedResult(o: Oracles, rounds: nat, i: nat)
    requires i < |Stages(o, rounds)|
    ensures var result := Stages(o, rounds)[i];
            || (o.guard.Some? && result == o.guard.value.baseline)
            || exists r: nat, stage: Stage :: r < rounds && result == Answer(o, r, stage)
  {
    if rounds > 0 {
      var before := Stages(o, rounds - 1);
      if i < |before| {
        LoggedResult(o, rounds - 1, i);
      } else {
        RoundAt(o, rounds - 1, i - |before|);
      }
    }
  }

  /** A round that covers the earlier labels replaces the earlier results. */
  lemma EarlierIsReplaced(o: Oracles, labels: Labels, round: nat, i: nat, r: nat, stage: Stage)
    requires LabelledBy(o, labels) && Covers(labels, round) && r < round
    requires i < |Stages(o, round)|
    ensures Stages(o, round)[i] == Answer(o, r, stage) ==> !Latest(Stages(o, round) + Round(o, round), i)
  {
    var before := Stages(o, round);
    var stages := before + Round(o, round);
    var t: Stage :| labels(round, t) == labels(r, stage);
    RoundAt(o, round, Place(t));
    assert stages[|before| + Place(t)].stage == labels(r, stage);
  }

  /** After a full passing round that covers the earlier labels nothing failing is the latest of
      its label. */
  lemma LatestPassed(o: Oracles, labels: Labels, round: nat, i: nat)
    requires LabelledBy(o, labels) && Covers(labels, round) && RoundPasses(o, round) && BaselineHolds(o)
    requires i < |Stages(o, round) + Round(o, round)| && Latest(Stages(o, round) + Round(o, round), i)
    ensures (Stages(o, round) + Round(o, round))[i].passed
  {
    var before := Stages(o, round);
    if i >= |before| {
      RoundAt(o, round, i - |before|);
    } else {
      LoggedResult(o, round, i);
      forall r: nat, stage: Stage | r < round
        ensures before[i] != Answer(o, r, stage)
      {
        EarlierIsReplaced(o, labels, round, i, r, stage);
      }
    }
  }

  lemma CoveredIsVerified(o: Oracles, labels: Labels, limit: nat, report: Report)
    requires LabelledBy(o, labels) && Covers(labels, report.attempts) && VerifiedExit(o, limit, report)
    ensures IsVerified(report)
  {
    var a := report.attempts;
    OneMoreRound(o, a);
    forall i | 0 <= i < |report.stages| && Latest(report.stages, i)
      ensures report.stages[i].passed
    {
      LatestPassed(o, labels, a, i);
    }
  }

  lemma CoveredReportsAgree(o: Oracles, limit: nat, report: Report, labels: Labels)
    requires LabelledBy(o, labels) && (forall a: nat :: a <= limit ==> Covers(labels, a))
    requires Explains(o, limit, report)
    ensures report.status == VerifiedStatus <==> IsVerified(report)
  {
    if report.status == VerifiedStatus {
      CoveredIsVerified(o, labels, limit, report);
    }
  }

  /** When labels depend on the stage alone, as they do when every answer carries the label of
      the stage it was asked for, the status and the property agree, whatever failed earlier. */
  lemma StatusMatchesProperty(o: Oracles, limit: nat, report: Report, ofStage: Stage -> Stage)
    requires forall r: nat, stage: Stage :: Answer(o, r, stage).stage == ofStage(stage)
    requires Explains(o, limit, report)
    ensures report.status == VerifiedStatus <==> IsVerified(report)
  {
    var labels: Labels := (r: nat, stage: Stage) => ofStage(stage);
    forall a: nat | a <= limit
      ensures Covers(labels, a)
    {
      forall r: nat, stage: Stage | r < a
        ensures Uses(labels, a, labels(r, stage))
      {
        assert labels(a, stage) == labels(r, stage);
      }
    }
    CoveredReportsAgree(o, limit, report, labels);
  }

  // ----- exactly which labels keep status and property together -----

  /** A verifier with the given labels that fails in every round before a and passes in a. */
  function PassesIn(labels: Labels, a: nat): Oracles {
    Oracles(
      (r: nat, stage: Stage) => StageResult(labels(r, stage), r == a, "", []),
      (r: nat) => StageResult(CodeStage, true, "", []),
      None,
      (r: nat, failed: StageResult) => Analysis(Unknown, "", []),
      (r: nat, analysis: Analysis) => [])
  }

  function PassesInReport(labels: Labels, a: nat): Report {
    VerifiedReport(PassesIn(labels, a), a)
  }

  lemma PassesInIsExplained(labels: Labels, limit: nat, a: nat)
    requires a <= limit
    ensures LabelledBy(PassesIn(labels, a), labels)
    ensures Explains(PassesIn(labels, a), limit, PassesInReport(labels, a))
  {
    var o := PassesIn(labels, a);
    forall q: nat | q < a
      ensures Continues(o, q)
    {
      assert !Answer(o, q, Quality).passed;
    }
    assert RoundPasses(o, a);
    Exits(o, limit, a);
  }

  /** Where the answer of a round is logged, when there is no baseline. */
  lemma {:induction false} LoggedAt(o: Oracles, rounds: nat, r: nat, stage: Stage) returns (i: nat)
    requires o.guard.None? && r < rounds
    ensures i < |Stages(o, rounds)| && Stages(o, rounds)[i] == Answer(o, r, stage)
  {
    if r == rounds - 1 {
      i := |Stages(o, r)| + Place(stage);
      RoundAt(o, r, Place(stage));
    } else {
      i := LoggedAt(o, rounds - 1, r, stage);
    }
  }

  lemma {:induction false} LastOfLabel(stages: seq<StageResult>, i: nat) returns (k: nat)
    requires i < |stages|
    ensures i <= k < |stages| && stages[k].stage == stages[i].stage && Latest(stages, k)
    decreases |stages| - i
  {
    if Latest(stages, i) {
      k := i;
    } else {
      var j :| i < j < |stages| && stages[j].stage == stages[i].stage;
      k := LastOfLabel(stages, j);
    }
  }

  /** A result logged under a label that the passing round does not use failed. */
  lemma UnusedLabelFailed(labels: Labels, a: nat, k: nat)
    requires k < |Stages(PassesIn(labels, a), a + 1)|
    requires !Uses(labels, a, Stages(PassesIn(labels, a), a + 1)[k].stage)
    ensures !Stages(PassesIn(labels, a), a + 1)[k].passed
  {
    var o := PassesIn(labels, a);
    var result := Stages(o, a + 1)[k];
    LoggedResult(o, a + 1, k);
    var q: nat, t: Stage :| q < a + 1 && result == Answer(o, q, t);
    assert result.stage == labels(q, t);
  }

  /** A label of an earlier, failing round that the passing round does not use keeps its failure
      as the latest result, so a verified run lacks the property. */
  lemma UncoveredLabelHidesSuccess(labels: Labels, limit: nat, a: nat, r: nat, stage: Stage)
    requires r < a <= limit && !Uses(labels, a, labels(r, stage))
    ensures var o, report := PassesIn(labels, a), PassesInReport(labels, a);
            && LabelledBy(o, labels) && Explains(o, limit, report)
            && report.status == VerifiedStatus && !IsVerified(report)
  {
    PassesInIsExplained(labels, limit, a);
    FailureStaysLatest(labels, a, r, stage);
  }

  lemma FailureStaysLatest(labels: Labels, a: nat, r: nat, stage: Stage)
    requires r < a && !Uses(labels, a, labels(r, stage))
    ensures !IsVerified(PassesInReport(labels, a))
  {
    var o := PassesIn(labels, a);
    var i := LoggedAt(o, a + 1, r, stage);
    var k := LastOfLabel(Stages(o, a + 1), i);
    UnusedLabelFailed(labels, a, k);
  }

  /** However the collaborators with these labels answer, and within how many rounds: status and
      property agree. */
  ghost predicate Agree(labels: Labels, limit: nat) {
    forall o: Oracles, report: Report :: LabelledBy(o, labels) && Explains(o, limit, report) ==>
      (report.status == VerifiedStatus <==> IsVerified(report))
  }

  /** Status and property always agree exactly when every round answers under every label that
      an earlier round used. */
  lemma AgreeIffLabelsCovered(labels: Labels, limit: nat)
    ensures Agree(labels, limit) <==> forall a: nat :: a <= limit ==> Covers(labels, a)
  {
    if forall a: nat :: a <= limit ==> Covers(labels, a) {
      forall o: Oracles, report: Report | LabelledBy(o, labels) && Explains(o, limit, report)
        ensures report.status == VerifiedStatus <==> IsVerified(report)
      {
        CoveredReportsAgree(o, limit, report, labels);
      }
    } else {
      var a: nat :| a <= limit && !Covers(labels, a);
      var r: nat, stage: Stage :| r < a && !Uses(labels, a, labels(r, stage));
      UncoveredLabelHidesSuccess(labels, limit, a, r, stage);
    }
  }
}
