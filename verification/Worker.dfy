/** The worker loop: one claim, one handler, one report per run_once. */
module Worker {
  import opened Common
  import opened JobStore
  import opened JobProtocol

  /** What one turn meets: the clock at recovery and at the claim, and how the handler ends. */
  datatype Turn = Turn(recoverAt: real, claimAt: real, handler: Option<string>)

  datatype Settings = Settings(kinds: set<string>, leaseSeconds: real, maxAttempts: int)

  function NoHandlerError(kind: string): string {
    "no handler for job kind: " + kind
  }

  /** How a claimed job leaves the worker; `failure` is the exception text, if any. */
  function Report(w: Settings, rows: seq<Job>, job: Job, failure: Option<string>): seq<Job> {
    if job.kind !in w.kinds then FailedRow(rows, job.id, NoHandlerError(job.kind), false)
    else if failure.Some? then FailedRow(rows, job.id, failure.value, job.attempts < w.maxAttempts)
    else CompletedRow(rows, job.id)
  }

  /** run_once for a worker that does not crash and is not interrupted. */
  function AfterTurn(w: Settings, rows: seq<Job>, t: Turn): (seq<Job>, bool)
    requires IdsArePositions(rows)
  {
    var recovered := Recovered(rows, t.recoverAt);
    match FirstQueued(recovered)
    case None => (recovered, false)
    case Some(i) =>
      var leased := Leased(recovered, i, t.claimAt + w.leaseSeconds);
      (Report(w, leased, leased[i], t.handler), true)
  }

  class JobWorker {
    const store: JobTable
    const settings: Settings
    var stopping: bool

    constructor (store: JobTable, settings: Settings)
      ensures this.store == store && this.settings == settings && !stopping
    {
      this.store, this.settings := store, settings;
      stopping := false;
    }

    method Stop()
      modifies this
      ensures stopping
    {
      stopping := true;
    }

    method RunOnce(t: Turn) returns (worked: bool)
      requires IdsArePositions(store.rows)
      modifies store
      ensures IdsArePositions(store.rows)
      ensures stopping ==> store.rows == old(store.rows) && !worked
      ensures !stopping ==> (store.rows, worked) == AfterTurn(settings, old(store.rows), t)
    {
      if stopping {
        return false;
      }
      var _ := store.RecoverExpired(t.recoverAt);
      var claimed := store.Claim(t.claimAt, settings.leaseSeconds);
      if claimed.None? {
        return false;
      }
      var job := claimed.value;
      if job.kind !in settings.kinds {
        store.Fail(job.id, NoHandlerError(job.kind), false);
        return true;
      }
      if t.handler.Some? {
        store.Fail(job.id, t.handler.value, job.attempts < settings.maxAttempts);
      } else {
        store.Complete(job.id);
      }
      return true;
    }
  }

  // ----- a single worker drains the table -----

  ghost predicate NoneRunning(rows: seq<Job>) {
    forall i :: 0 <= i < |rows| ==> !rows[i].status.Running?
  }

  /** Turns a row can still take. */
  function Weight(maxAttempts: int, job: Job): nat {
    if job.status.Queued? then Max(1, maxAttempts - job.attempts) else 0
  }

  function Potential(maxAttempts: int, rows: seq<Job>): nat {
    if rows == [] then 0
    else Potential(maxAttempts, rows[..|rows| - 1]) + Weight(maxAttempts, rows[|rows| - 1])
  }

  lemma {:induction false} PotentialAfterUpdate(maxAttempts: int, rows: seq<Job>, i: nat, job: Job)
    requires i < |rows|
    ensures Potential(maxAttempts, rows[i := job])
              == Potential(maxAttempts, rows) - Weight(maxAttempts, rows[i]) + Weight(maxAttempts, job)
    decreases |rows|
  {
    var n := |rows| - 1;
    var rows' := rows[i := job];
    if i < n {
      assert rows'[..n] == rows[..n][i := job];
      PotentialAfterUpdate(maxAttempts, rows[..n], i, job);
    } else {
      assert rows'[..n] == rows[..n];
    }
  }

  lemma {:induction false} NoPotentialMeansNoneQueued(maxAttempts: int, rows: seq<Job>)
    ensures Potential(maxAttempts, rows) == 0 <==> forall i :: 0 <= i < |rows| ==> !rows[i].status.Queued?
  {
    if rows != [] {
      var n := |rows| - 1;
      NoPotentialMeansNoneQueued(maxAttempts, rows[..n]);
      assert rows == rows[..n] + [rows[n]];
    }
  }

  lemma NothingToRecover(rows: seq<Job>, now: real)
    requires NoneRunning(rows)
    ensures Recovered(rows, now) == rows
  {
  }

  /** The row a productive turn leaves behind. */
  function Settled(w: Settings, job: Job, failure: Option<string>): Job {
    var attempts := job.attempts + 1;
    if job.kind !in w.kinds then
      job.(status := Failed, attempts := attempts, leaseUntil := None,
           error := Some(Clip(NoHandlerError(job.kind))))
    else if failure.Some? then
      job.(status := if attempts < w.maxAttempts then Queued else Failed, attempts := attempts,
           leaseUntil := None, error := Some(Clip(failure.value)))
    else job.(status := Completed, attempts := attempts, leaseUntil := None)
  }

  function Clip(error: string): string {
    error[..Min(|error|, ERROR_LIMIT)]
  }

  /** A turn touches the earliest queued row and no other. */
  lemma TurnSettlesOneRow(w: Settings, rows: seq<Job>, t: Turn)
    requires IdsArePositions(rows) && NoneRunning(rows)
    ensures var (rows', worked) := AfterTurn(w, rows, t);
            && (worked <==> FirstQueued(rows).Some?)
            && (!worked ==> rows' == rows)
            && (worked ==> var i := FirstQueued(rows).value;
                           rows' == rows[i := Settled(w, rows[i], t.handler)])
  {
    NothingToRecover(rows, t.recoverAt);
  }

  /** Whether a recovery leaves the row queued: it was, or it was running under a lease that had
      ended. */
  predicate Claimable(job: Job, now: real) {
    || job.status.Queued?
    || (job.status.Running? && job.leaseUntil.Some? && job.leaseUntil.value < now)
  }

  /** A turn on any table, also with rows that other workers hold or have lost: the earliest row
      that is queued or whose lease has ended is settled, the others whose lease has ended are
      queued again, and nothing else changes. */
  lemma TurnOnAnyTable(w: Settings, rows: seq<Job>, t: Turn) returns (i: nat)
    requires IdsArePositions(rows)
    ensures var (rows', worked) := AfterTurn(w, rows, t);
            && |rows'| == |rows|
            && (worked ==> i < |rows| && Claimable(rows[i], t.recoverAt)
                           && (forall k :: 0 <= k < i ==> !Claimable(rows[k], t.recoverAt))
                           && rows'[i] == Settled(w, rows[i], t.handler))
            && (!worked ==> forall k :: 0 <= k < |rows| ==> !Claimable(rows[k], t.recoverAt))
            && forall k :: 0 <= k < |rows| && !(worked && k == i) ==>
                 rows'[k] == if rows[k].status.Running? && Claimable(rows[k], t.recoverAt)
                             then rows[k].(status := Queued, leaseUntil := None) else rows[k]
  {
    var recovered := Recovered(rows, t.recoverAt);
    forall k | 0 <= k < |rows|
      ensures recovered[k].status.Queued? <==> Claimable(rows[k], t.recoverAt)
    {
    }
    var found := FirstQueued(recovered);
    i := if found.Some? then found.value else 0;
  }

  lemma SettledWeighsLess(w: Settings, job: Job, failure: Option<string>)
    requires job.status.Queued?
    ensures var after := Settled(w, job, failure);
            && Weight(w.maxAttempts, after) < Weight(w.maxAttempts, job)
            && after.id == job.id && !after.status.Running?
  {
  }

  lemma SettlingKeepsTable(w: Settings, rows: seq<Job>, i: nat, failure: Option<string>)
    requires IdsArePositions(rows) && NoneRunning(rows) && i < |rows| && rows[i].status.Queued?
    ensures var rows' := rows[i := Settled(w, rows[i], failure)];
            && IdsArePositions(rows') && NoneRunning(rows')
            && (forall k :: 0 <= k < |rows| && Terminal(rows[k].status) ==> rows'[k] == rows[k])
  {
    SettledWeighsLess(w, rows[i], failure);
  }

  /** Every productive turn uses up some of the potential, so there can only be so many. */
  lemma TurnLowersPotential(w: Settings, rows: seq<Job>, t: Turn)
    requires IdsArePositions(rows) && NoneRunning(rows)
    ensures var (rows', worked) := AfterTurn(w, rows, t);
            && IdsArePositions(rows') && NoneRunning(rows')
            && (worked ==> Potential(w.maxAttempts, rows') < Potential(w.maxAttempts, rows))
            && (forall i :: 0 <= i < |rows| && Terminal(rows[i].status) ==> i < |rows'| && rows'[i] == rows[i])
  {
    TurnSettlesOneRow(w, rows, t);
    var found := FirstQueued(rows);
    if found.Some? {
      var i := found.value;
      var job := Settled(w, rows[i], t.handler);
      SettlingKeepsTable(w, rows, i, t.handler);
      PotentialAfterUpdate(w.maxAttempts, rows, i, job);
      SettledWeighsLess(w, rows[i], t.handler);
      assert AfterTurn(w, rows, t) == (rows[i := job], true);
    }
  }

  function AfterTurns(w: Settings, rows: seq<Job>, turns: seq<Turn>): (seq<Job>, nat)
    requires IdsArePositions(rows) && NoneRunning(rows)
    decreases |turns|
  {
    if turns == [] then (rows, 0)
    else
      TurnLowersPotential(w, rows, turns[0]);
      var (rows', worked) := AfterTurn(w, rows, turns[0]);
      var (rows'', productive) := AfterTurns(w, rows', turns[1..]);
      (rows'', productive + if worked then 1 else 0)
  }

  /** Drain: however the handlers end, at most Potential turns are productive, and once that
      many turns were made every row is completed or failed; rows that already were are
      unchanged. */
  lemma {:induction false} SingleWorkerDrains(w: Settings, rows: seq<Job>, turns: seq<Turn>)
    requires IdsArePositions(rows) && NoneRunning(rows)
    ensures var (rows', productive) := AfterTurns(w, rows, turns);
            && |rows'| == |rows|
            && productive <= Potential(w.maxAttempts, rows)
            && (|turns| >= Potential(w.maxAttempts, rows) ==>
                  forall i :: 0 <= i < |rows'| ==> Terminal(rows'[i].status))
            && (forall i :: 0 <= i < |rows| && Terminal(rows[i].status) ==> rows'[i] == rows[i])
    decreases |turns|
  {
    if turns == [] {
      NoPotentialMeansNoneQueued(w.maxAttempts, rows);
    } else {
      TurnLowersPotential(w, rows, turns[0]);
      TurnSettlesOneRow(w, rows, turns[0]);
      var (rows1, worked) := AfterTurn(w, rows, turns[0]);
      SingleWorkerDrains(w, rows1, turns[1..]);
      if !worked {
        NoPotentialMeansNoneQueued(w.maxAttempts, rows);
      }
    }
  }

  lemma {:induction false} FreshPotential(maxAttempts: int, rows: seq<Job>)
    requires forall i :: 0 <= i < |rows| ==> rows[i].status.Queued? && rows[i].attempts == 0
    ensures Potential(maxAttempts, rows) == |rows| * Max(maxAttempts, 1)
  {
    if rows != [] {
      FreshPotential(maxAttempts, rows[..|rows| - 1]);
    }
  }

  /** What the row of a job handled only by this worker can look like between turns. */
  ghost predicate Explained(w: Settings, job: Job) {
    && !job.status.Running?
    && job.attempts <= Max(w.maxAttempts, 1)
    && (job.status.Queued? ==> job.attempts == 0 || (job.attempts < w.maxAttempts && job.kind in w.kinds))
    && (job.status.Completed? ==> job.kind in w.kinds)
    && (job.status.Failed? ==> job.kind !in w.kinds || job.attempts >= w.maxAttempts)
  }

  lemma {:induction false} TurnsKeepExplained(w: Settings, rows: seq<Job>, turns: seq<Turn>)
    requires IdsArePositions(rows) && NoneRunning(rows)
    requires forall i :: 0 <= i < |rows| ==> Explained(w, rows[i])
    ensures var rows' := AfterTurns(w, rows, turns).0;
            |rows'| == |rows| && forall i :: 0 <= i < |rows'| ==> Explained(w, rows'[i])
    decreases |turns|
  {
    if turns != [] {
      TurnLowersPotential(w, rows, turns[0]);
      TurnSettlesOneRow(w, rows, turns[0]);
      TurnsKeepExplained(w, AfterTurn(w, rows, turns[0]).0, turns[1..]);
    }
  }

  /** n fresh jobs are drained within n * max_attempts productive turns. Afterwards a job is
      completed, or it failed because it has no handler or used up all its attempts. */
  lemma FreshJobsDrain(w: Settings, rows: seq<Job>, turns: seq<Turn>)
    requires IdsArePositions(rows)
    requires forall i :: 0 <= i < |rows| ==> rows[i].status.Queued? && rows[i].attempts == 0
    requires |turns| >= |rows| * Max(w.maxAttempts, 1)
    ensures NoneRunning(rows)
    ensures var (rows', productive) := AfterTurns(w, rows, turns);
            && productive <= |rows| * Max(w.maxAttempts, 1)
            && |rows'| == |rows|
            && forall i :: 0 <= i < |rows'| ==>
                 && rows'[i].attempts <= Max(w.maxAttempts, 1)
                 && ((rows'[i].status.Completed? && rows'[i].kind in w.kinds)
                     || (rows'[i].status.Failed?
                         && (rows'[i].kind !in w.kinds || rows'[i].attempts >= w.maxAttempts)))
  {
    FreshPotential(w.maxAttempts, rows);
    SingleWorkerDrains(w, rows, turns);
    TurnsKeepExplained(w, rows, turns);
    var rows' := AfterTurns(w, rows, turns).0;
    forall i | 0 <= i < |rows'|
      ensures Explained(w, rows'[i]) && Terminal(rows'[i].status)
    {
    }
  }
}
