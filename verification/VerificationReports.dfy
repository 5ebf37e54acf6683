/** What the entries of a verification report say, one by one. */
module VerificationReports {
  import opened Common
  import opened Verification

  /** The answer of whoever is asked about a stage: the guard about regressions, if there is one,
      and the verifier about everything else. */
  function Asked(o: Oracles, round: nat, stage: Stage): StageResult {
    match o.guard
    case Some(guard) => if stage.Regression? then guard.regression(round) else o.verifier(round, stage)
    case None => o.verifier(round, stage)
  }

  /** The first stage of a round that does not pass. */
  ghost predicate FailsFirst(o: Oracles, round: nat, i: nat) {
    && i < 7 && !Asked(o, round, STAGES[i]).passed
    && forall k: nat :: k < i ==> Asked(o, round, STAGES[k]).passed
  }

  lemma AskedIsAnswer(o: Oracles, round: nat, i: nat)
    requires i < 7
    ensures Round(o, round)[i] == Asked(o, round, STAGES[i])
  {
    RoundAt(o, round, i);
  }

  lemma {:induction false} FailedFailsFirst(o: Oracles, round: nat) returns (i: nat)
    requires !RoundPasses(o, round)
    ensures FailsFirst(o, round, i) && Failed(o, round) == Asked(o, round, STAGES[i])
  {
    var results := Round(o, round);
    RoundPassesIffNoFailure(o, round);
    i := FirstFailureComesFirst(results);
    AskedIsAnswer(o, round, i);
    forall k: nat | k < i
      ensures Asked(o, round, STAGES[k]).passed
    {
      AskedIsAnswer(o, round, k);
    }
  }

  lemma {:induction false} FailuresListed(o: Oracles, rounds: nat)
    ensures |Failures(o, rounds)| == rounds
    ensures forall i :: 0 <= i < rounds ==> Failures(o, rounds)[i] == DetailOf(Failed(o, i))
  {
    if rounds > 0 {
      FailuresListed(o, rounds - 1);
    }
  }

  lemma {:induction false} StagesOfRound(o: Oracles, rounds: nat, q: nat, i: nat)
    requires q < rounds && i < 7
    ensures var at := |Baseline(o)| + 7 * q + i;
            at < |Stages(o, rounds)| && Stages(o, rounds)[at] == Asked(o, q, STAGES[i])
  {
    StagesLength(o, rounds - 1);
    if q < rounds - 1 {
      StagesOfRound(o, rounds - 1, q, i);
    } else {
      AskedIsAnswer(o, q, i);
    }
  }

  /** How many rounds were run: those corrected, and one more unless the last correction was
      rejected or the baseline already failed. */
  function Rounds(report: Report): nat {
    match report.reason
    case Some(BaselineFailed) => 0
    case Some(NotValidated) => report.attempts
    case _ => report.attempts + 1
  }

  lemma LogOfRounds(o: Oracles, limit: nat, report: Report)
    requires Explains(o, limit, report)
    ensures report.stages == Stages(o, Rounds(report))
  {
    if BaselineExit(o, report) {
      assert Stages(o, 0) == Baseline(o);
    }
  }

  /** The stage log is the baseline, if there is a guard, and then all seven answers of every
      round, in order. */
  lemma StagesAreLogged(o: Oracles, limit: nat, report: Report, q: nat, i: nat)
    requires Explains(o, limit, report) && q < Rounds(report) && i < 7
    ensures var start := if o.guard.Some? then 1 else 0;
            && |report.stages| == start + 7 * Rounds(report)
            && report.stages[start + 7 * q + i] == Asked(o, q, STAGES[i])
            && (o.guard.Some? ==> report.stages[0] == o.guard.value.baseline)
  {
    LogOfRounds(o, limit, report);
    StagesLength(o, Rounds(report));
    StagesOfRound(o, Rounds(report), q, i);
    BaselineComesFirst(o, Rounds(report));
  }

  lemma {:induction false} BaselineComesFirst(o: Oracles, rounds: nat)
    ensures Baseline(o) <= Stages(o, rounds)
  {
    if rounds > 0 {
      BaselineComesFirst(o, rounds - 1);
    }
  }

  lemma FailuresOfRounds(o: Oracles, limit: nat, report: Report)
    requires Explains(o, limit, report) && report.reason != Some(BaselineFailed)
    ensures |report.failures| == if report.reason == Some(LimitReached) then report.attempts + 1 else report.attempts
    ensures report.failures == Failures(o, |report.failures|)
  {
    FailuresLength(o, report.attempts);
    FailuresLength(o, report.attempts + 1);
  }

  lemma FailedRound(o: Oracles, limit: nat, report: Report, q: nat)
    requires Explains(o, limit, report) && report.reason != Some(BaselineFailed) && q < |report.failures|
    ensures !RoundPasses(o, q)
  {
    FailuresOfRounds(o, limit, report);
    assert q < LastRound(o, limit, report) ==> Continues(o, q);
  }

  /** Each failure reported is that of the first stage its round did not pass. */
  lemma FailuresAreOfTheFirstStage(o: Oracles, limit: nat, report: Report, q: nat) returns (i: nat)
    requires Explains(o, limit, report) && report.reason != Some(BaselineFailed) && q < |report.failures|
    ensures FailsFirst(o, q, i)
    ensures var detail := Asked(o, q, STAGES[i]).detail;
            report.failures[q] == if detail == "" then "verification stage failed" else detail
  {
    FailuresOfRounds(o, limit, report);
    FailedRound(o, limit, report, q);
    FailuresListed(o, |report.failures|);
    i := FailedFailsFirst(o, q);
  }

  /** Each correction is the one for the first stage its round did not pass: analysed, changed and
      validated in that round. */
  lemma CorrectionsAreOfTheFirstStage(o: Oracles, limit: nat, report: Report, q: nat) returns (i: nat)
    requires Explains(o, limit, report) && q < |report.corrections|
    ensures FailsFirst(o, q, i)
    ensures var failed, correction := Asked(o, q, STAGES[i]), report.corrections[q];
            var analysis := o.analyze(q, failed);
            && correction.originalFailure == failed.detail
            && correction.classification == analysis.classification
            && correction.suspectedCause == analysis.suspectedCause
            && correction.changes == o.correct(q, analysis)
            && (correction.validation.Validated? <==> o.validation(q).passed)
            && (analysis.evidence != [] ==> correction.remainingUncertainty == analysis.evidence[0])
  {
    CorrectionsListed(o, report.attempts);
    assert report.corrections[q] == CorrectionOf(o, q);
    assert q < LastRound(o, limit, report) ==> Continues(o, q);
    i := FailedFailsFirst(o, q);
  }
}
