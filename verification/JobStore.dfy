/** The durable job table: JobStore and its statements.

    The table is a sequence of rows in rowid order. Rows are only ever appended, and a fresh
    id is the position of its row, so ORDER BY rowid is the order of the sequence. */
module JobStore {
  import opened Common

  datatype Status = Queued | Running | Completed | Failed

  datatype Job = Job(
    id: nat,
    kind: string,
    payload: string,
    status: Status,
    attempts: nat,
    leaseUntil: Option<real>,
    error: Option<string>)

  const ERROR_LIMIT := 4000

  ghost predicate IdsArePositions(rows: seq<Job>) {
    forall i :: 0 <= i < |rows| ==> rows[i].id == i
  }

  // ----- the statements -----

  function Inserted(rows: seq<Job>, kind: string, payload: string): seq<Job> {
    rows + [Job(|rows|, kind, payload, Queued, 0, None, None)]
  }

  predicate LeaseExpired(job: Job, now: real) {
    job.status.Running? && job.leaseUntil.Some? && job.leaseUntil.value < now
  }

  function Recovered(rows: seq<Job>, now: real): seq<Job> {
    seq(|rows|, i requires 0 <= i < |rows| =>
      if LeaseExpired(rows[i], now) then rows[i].(status := Queued, leaseUntil := None) else rows[i])
  }

  /** UPDATE ... WHERE id = ?: an unknown id matches no row. */
  function Put(rows: seq<Job>, id: nat, job: Job): seq<Job> {
    if id < |rows| then rows[id := job] else rows
  }

  /** SELECT ... WHERE status='queued' ORDER BY rowid LIMIT 1. */
  function FirstQueued(rows: seq<Job>): (r: Option<nat>)
    ensures r.Some? ==> r.value < |rows| && rows[r.value].status.Queued?
                        && forall i :: 0 <= i < r.value ==> !rows[i].status.Queued?
    ensures r.None? ==> forall i :: 0 <= i < |rows| ==> !rows[i].status.Queued?
  {
    FirstQueuedFrom(rows, 0)
  }

  function FirstQueuedFrom(rows: seq<Job>, from: nat): (r: Option<nat>)
    requires from <= |rows|
    ensures r.Some? ==> from <= r.value < |rows| && rows[r.value].status.Queued?
                        && forall i :: from <= i < r.value ==> !rows[i].status.Queued?
    ensures r.None? ==> forall i :: from <= i < |rows| ==> !rows[i].status.Queued?
    decreases |rows| - from
  {
    if from == |rows| then None
    else if rows[from].status.Queued? then Some(from)
    else FirstQueuedFrom(rows, from + 1)
  }

  /** UPDATE ... WHERE id=? AND status='queued': does it still match the row that was read? */
  predicate StillQueued(rows: seq<Job>, id: nat) {
    id < |rows| && rows[id].status.Queued?
  }

  function Leased(rows: seq<Job>, id: nat, lease: real): seq<Job>
    requires StillQueued(rows, id)
  {
    rows[id := rows[id].(status := Running, attempts := rows[id].attempts + 1, leaseUntil := Some(lease))]
  }

  /** The Job handed to the worker is built from the row as it was read. */
  function Ticket(read: Job, lease: real): Job {
    read.(status := Running, attempts := read.attempts + 1, leaseUntil := Some(lease))
  }

  function CompletedRow(rows: seq<Job>, id: nat): seq<Job> {
    if id < |rows| then rows[id := rows[id].(status := Completed, leaseUntil := None)] else rows
  }

  function FailedRow(rows: seq<Job>, id: nat, error: string, retry: bool): seq<Job> {
    if id < |rows| then
      rows[id := rows[id].(status := if retry then Queued else Failed,
                           leaseUntil := None,
                           error := Some(error[..Min(|error|, ERROR_LIMIT)]))]
    else rows
  }

  function CountExpired(rows: seq<Job>, now: real): nat {
    if rows == [] then 0
    else CountExpired(rows[..|rows| - 1], now) + if LeaseExpired(rows[|rows| - 1], now) then 1 else 0
  }

  /** The rows a recovery at `now` requeues: running, with a lease that ended before it. */
  function Overdue(rows: seq<Job>, now: real): set<nat> {
    set i: nat | i < |rows| && rows[i].status.Running? && rows[i].leaseUntil.Some? && rows[i].leaseUntil.value < now
  }

  lemma {:induction false} CountIsSize(rows: seq<Job>, now: real)
    ensures CountExpired(rows, now) == |Overdue(rows, now)|
  {
    if rows != [] {
      var n := |rows| - 1;
      CountIsSize(rows[..n], now);
      assert Overdue(rows, now) == Overdue(rows[..n], now) + if LeaseExpired(rows[n], now) then {n} else {};
    }
  }

  // ----- the object -----

  class JobTable {
    var rows: seq<Job>

    constructor ()
      ensures rows == []
    {
      rows := [];
    }

    method Enqueue(kind: string, payload: string) returns (job: Job)
      requires IdsArePositions(rows)
      modifies this
      ensures IdsArePositions(rows)
      ensures rows == old(rows) + [job] == Inserted(old(rows), kind, payload)
      ensures job.status.Queued? && job.attempts == 0 && job.leaseUntil.None? && job.error.None?
      ensures job.kind == kind && job.payload == payload && job.id == old(|rows|)
    {
      job := Job(|rows|, kind, payload, Queued, 0, None, None);
      rows := rows + [job];
    }

    /** Requeues exactly the running rows whose lease ended before `now`. */
    method RecoverExpired(now: real) returns (count: nat)
      modifies this
      ensures rows == Recovered(old(rows), now)
      ensures |rows| == |old(rows)|
      ensures forall i :: 0 <= i < |rows| ==>
                rows[i] == (if old(rows)[i].status.Running? && old(rows)[i].leaseUntil.Some?
                               && old(rows)[i].leaseUntil.value < now
                            then old(rows)[i].(status := Queued, leaseUntil := None) else old(rows)[i])
      ensures count == |set i: nat | i < |old(rows)| && old(rows)[i].status.Running? && old(rows)[i].leaseUntil.Some?
                                     && old(rows)[i].leaseUntil.value < now|
    {
      CountIsSize(rows, now);
      assert (set i: nat | i < |rows| && rows[i].status.Running? && rows[i].leaseUntil.Some?
                           && rows[i].leaseUntil.value < now) == Overdue(rows, now);
      count := CountExpired(rows, now);
      rows := Recovered(rows, now);
    }

    /** The uninterrupted claim: the earliest queued row is leased and returned as it now
        stands; nothing changes when no row is queued. */
    method Claim(now: real, leaseSeconds: real) returns (job: Option<Job>)
      requires IdsArePositions(rows)
      modifies this
      ensures IdsArePositions(rows)
      ensures job.None? <==> forall i :: 0 <= i < |old(rows)| ==> !old(rows)[i].status.Queued?
      ensures job.None? ==> rows == old(rows)
      ensures job.Some? ==>
                && FirstQueued(old(rows)) == Some(job.value.id)
                && rows == Leased(old(rows), job.value.id, now + leaseSeconds)
                && job.value == rows[job.value.id]
                && var was := old(rows)[job.value.id];
                   rows == old(rows)[job.value.id := was.(status := Running, attempts := was.attempts + 1,
                                                          leaseUntil := Some(now + leaseSeconds))]
    {
      var lease := now + leaseSeconds;
      var found := FirstQueued(rows);
      if found.None? {
        return None;
      }
      var read := rows[found.value];
      if !StillQueued(rows, read.id) {
        return None;
      }
      rows := Leased(rows, read.id, lease);
      return Some(Ticket(read, lease));
    }

    method Complete(id: nat)
      modifies this
      ensures rows == CompletedRow(old(rows), id)
      ensures id >= |old(rows)| ==> rows == old(rows)
      ensures id < |old(rows)| ==>
                rows == old(rows)[id := old(rows)[id].(status := Completed, leaseUntil := None)]
    {
      if id < |rows| {
        rows := rows[id := rows[id].(status := Completed, leaseUntil := None)];
      }
    }

    method Fail(id: nat, error: string, retry: bool)
      modifies this
      ensures rows == FailedRow(old(rows), id, error, retry)
      ensures id >= |old(rows)| ==> rows == old(rows)
      ensures id < |old(rows)| ==>
                && |rows| == |old(rows)| && rows == old(rows)[id := rows[id]]
                && rows[id].status == (if retry then Queued else Failed) && rows[id].leaseUntil.None?
                && rows[id].error == Some(if |error| <= 4000 then error else error[..4000])
                && rows[id] == old(rows)[id].(status := rows[id].status, leaseUntil := None, error := rows[id].error)
    {
      var kept := if |error| <= ERROR_LIMIT then error else error[..ERROR_LIMIT];
      assert kept == error[..Min(|error|, ERROR_LIMIT)];
      if id < |rows| {
        rows := rows[id := rows[id].(status := if retry then Queued else Failed,
                                     leaseUntil := None, error := Some(kept))];
      }
    }

    method Get(id: nat) returns (job: Option<Job>)
      ensures job == if id < |rows| then Some(rows[id]) else None
    {
      job := if id < |rows| then Some(rows[id]) else None;
    }
  }
}
