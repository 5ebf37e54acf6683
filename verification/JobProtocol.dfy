/** Many workers on one job table.

    Workers claim, crash, lose leases and report late: complete and fail never check the
    lease. A claim is split as in the code, into the SELECT that reads the earliest queued
    row and the UPDATE that takes it if its status is still 'queued'; anything may happen in
    between. A claim whose row had another attempts count when it was taken than when it was
    read is called stale: the worker is told an attempt number that is too low. */
module JobProtocol {
  import opened Common
  import opened JobStore

  datatype Hand =
    | Reading(read: Job)
    | Holding(job: Job, number: nat)  // number: the row's attempts once it was taken

  /** Per row: how often its lease was recovered, which of its claims were stale, and which
      of its claims ended in a retry. */
  datatype History = History(recoveries: nat, stale: set<nat>, retried: set<nat>)

  datatype Sys = Sys(rows: seq<Job>, hands: map<nat, Hand>, history: seq<History>)

  datatype Event =
    | Enqueue(kind: string, payload: string)
    | Recover(now: real)
    | Read(worker: nat)
    | Take(worker: nat, lease: real)
    | Succeed(worker: nat)
    | HandlerFails(worker: nat, error: string)
    | NoHandler(worker: nat)
    | Crash(worker: nat)

  function Init(): Sys {
    Sys([], map[], [])
  }

  predicate Enabled(s: Sys, e: Event) {
    match e
    case Enqueue(_, _) => true
    case Recover(_) => true
    case Read(w) => w !in s.hands && FirstQueued(s.rows).Some?
    case Take(w, _) => w in s.hands && s.hands[w].Reading?
    case Succeed(w) => w in s.hands && s.hands[w].Holding?
    case HandlerFails(w, _) => w in s.hands && s.hands[w].Holding?
    case NoHandler(w) => w in s.hands && s.hands[w].Holding?
    case Crash(w) => w in s.hands
  }

  function Taken(s: Sys, w: nat, lease: real): Sys
    requires |s.history| == |s.rows| && Enabled(s, Take(w, lease))
  {
    var read := s.hands[w].read;
    if !StillQueued(s.rows, read.id) then s.(hands := s.hands - {w})
    else
      var number := s.rows[read.id].attempts + 1;
      var h := s.history[read.id];
      s.(rows := Leased(s.rows, read.id, lease),
         hands := s.hands[w := Holding(Ticket(read, lease), number)],
         history := s.history[read.id := if read.attempts == s.rows[read.id].attempts then h
                                         else h.(stale := h.stale + {number})])
  }

  function FailedBy(s: Sys, w: nat, error: string, retry: bool): Sys
    requires |s.history| == |s.rows| && w in s.hands && s.hands[w].Holding?
  {
    var id := s.hands[w].job.id;
    s.(rows := FailedRow(s.rows, id, error, retry),
       hands := s.hands - {w},
       history := if retry && id < |s.history|
                  then s.history[id := s.history[id].(retried := s.history[id].retried + {s.hands[w].number})]
                  else s.history)
  }

  function Apply(maxAttempts: int, s: Sys, e: Event): (s': Sys)
    requires |s.history| == |s.rows| && Enabled(s, e)
    ensures |s'.history| == |s'.rows|
  {
    match e
    case Enqueue(kind, payload) =>
      s.(rows := Inserted(s.rows, kind, payload), history := s.history + [History(0, {}, {})])
    case Recover(now) =>
      s.(rows := Recovered(s.rows, now),
         history := seq(|s.history|, i requires 0 <= i < |s.history| =>
           if LeaseExpired(s.rows[i], now)
           then s.history[i].(recoveries := s.history[i].recoveries + 1) else s.history[i]))
    case Read(w) => s.(hands := s.hands[w := Reading(s.rows[FirstQueued(s.rows).value])])
    case Take(w, lease) => Taken(s, w, lease)
    case Succeed(w) => s.(rows := CompletedRow(s.rows, s.hands[w].job.id), hands := s.hands - {w})
    case HandlerFails(w, error) => FailedBy(s, w, error, s.hands[w].job.attempts < maxAttempts)
    case NoHandler(w) => FailedBy(s, w, "no handler for job kind: " + s.hands[w].job.kind, false)
    case Crash(w) => s.(hands := s.hands - {w})
  }

  function Run(maxAttempts: int, events: seq<Event>): (r: Option<Sys>)
    ensures r.Some? ==> |r.value.history| == |r.value.rows|
  {
    if events == [] then Some(Init())
    else
      match Run(maxAttempts, events[..|events| - 1])
      case None => None
      case Some(s) =>
        if Enabled(s, events[|events| - 1]) then Some(Apply(maxAttempts, s, events[|events| - 1])) else None
  }

  // ----- the invariant -----

  /** Attempt numbers a claim can carry and still be retried. */
  function Retryable(maxAttempts: int): (r: set<nat>)
    ensures forall n :: n in r <==> 1 <= n < maxAttempts
    decreases maxAttempts
  {
    if maxAttempts <= 1 then {} else Retryable(maxAttempts - 1) + {maxAttempts - 1}
  }

  /** Every claim consumed one way of being queued: the insert, a recovery, or the retry of
      a distinct earlier claim. */
  ghost predicate RowCounts(maxAttempts: int, job: Job, h: History) {
    && job.attempts + (if job.status.Queued? then 1 else 0) <= 1 + h.recoveries + |h.retried|
    && h.retried <= h.stale + Retryable(maxAttempts)
    && forall n :: n in h.retried ==> 1 <= n <= job.attempts
  }

  ghost predicate HandInv(s: Sys, w: nat)
    requires w in s.hands && |s.history| == |s.rows|
  {
    match s.hands[w]
    case Reading(read) => read.id < |s.rows| && read.attempts <= s.rows[read.id].attempts
    case Holding(job, number) =>
      && job.id < |s.rows|
      && 1 <= number <= s.rows[job.id].attempts
      && number !in s.history[job.id].retried
      && (job.attempts == number || number in s.history[job.id].stale)
  }

  ghost predicate DistinctNumbers(s: Sys) {
    forall v, w ::
      (v in s.hands && w in s.hands && v != w && s.hands[v].Holding? && s.hands[w].Holding?
       && s.hands[v].job.id == s.hands[w].job.id) ==> s.hands[v].number != s.hands[w].number
  }

  ghost predicate Inv(maxAttempts: int, s: Sys) {
    && |s.history| == |s.rows|
    && IdsArePositions(s.rows)
    && (forall i :: 0 <= i < |s.rows| ==> RowCounts(maxAttempts, s.rows[i], s.history[i]))
    && (forall w :: w in s.hands ==> HandInv(s, w))
    && DistinctNumbers(s)
  }

  lemma {:induction false} InitInv(maxAttempts: int)
    ensures Inv(maxAttempts, Init())
  {
  }

  lemma {:induction false} TakeKeepsHand(maxAttempts: int, s: Sys, w: nat, lease: real, v: nat)
    requires Inv(maxAttempts, s) && Enabled(s, Take(w, lease)) && v in Taken(s, w, lease).hands
    ensures HandInv(Taken(s, w, lease), v)
  {
    assert HandInv(s, w);
    if v != w {
      assert HandInv(s, v);
    } else {
      assert RowCounts(maxAttempts, s.rows[s.hands[w].read.id], s.history[s.hands[w].read.id]);
    }
  }

  /** The number of a new claim is higher than those handed out before. */
  lemma {:induction false} TakeKeepsDistinct(maxAttempts: int, s: Sys, w: nat, lease: real)
    requires Inv(maxAttempts, s) && Enabled(s, Take(w, lease))
    ensures DistinctNumbers(Taken(s, w, lease))
  {
    var s' := Taken(s, w, lease);
    forall u, v | u in s'.hands && v in s'.hands && u != v && s'.hands[u].Holding? && s'.hands[v].Holding?
                   && s'.hands[u].job.id == s'.hands[v].job.id
      ensures s'.hands[u].number != s'.hands[v].number
    {
      assert u != w ==> HandInv(s, u);
      assert v != w ==> HandInv(s, v);
    }
  }

  lemma {:induction false} TakeKeepsInv(maxAttempts: int, s: Sys, w: nat, lease: real)
    requires Inv(maxAttempts, s) && Enabled(s, Take(w, lease))
    ensures Inv(maxAttempts, Taken(s, w, lease))
  {
    TakeKeepsDistinct(maxAttempts, s, w, lease);
    forall v | v in Taken(s, w, lease).hands
      ensures HandInv(Taken(s, w, lease), v)
    {
      TakeKeepsHand(maxAttempts, s, w, lease, v);
    }
  }

  lemma {:induction false} FailKeepsInv(maxAttempts: int, s: Sys, w: nat, error: string, retry: bool)
    requires Inv(maxAttempts, s) && w in s.hands && s.hands[w].Holding?
    requires retry ==> s.hands[w].job.attempts < maxAttempts
    ensures Inv(maxAttempts, FailedBy(s, w, error, retry))
  {
    assert HandInv(s, w);
    var s' := FailedBy(s, w, error, retry);
    var id := s.hands[w].job.id;
    assert RowCounts(maxAttempts, s.rows[id], s.history[id]);
    assert RowCounts(maxAttempts, s'.rows[id], s'.history[id]);
    forall v | v in s'.hands
      ensures HandInv(s', v)
    {
      assert HandInv(s, v);
    }
  }

  predicate OtherStep(e: Event) {
    !e.Take? && !e.HandlerFails? && !e.NoHandler?
  }

  lemma {:induction false} OtherStepKeepsRow(maxAttempts: int, s: Sys, e: Event, i: nat)
    requires Inv(maxAttempts, s) && Enabled(s, e) && OtherStep(e)
    requires i < |Apply(maxAttempts, s, e).rows|
    ensures var s' := Apply(maxAttempts, s, e);
            s'.rows[i].id == i && RowCounts(maxAttempts, s'.rows[i], s'.history[i])
  {
    if i < |s.rows| {
      assert RowCounts(maxAttempts, s.rows[i], s.history[i]);
    }
    assert e.Succeed? ==> HandInv(s, e.worker);
  }

  lemma {:induction false} OtherStepKeepsHand(maxAttempts: int, s: Sys, e: Event, v: nat)
    requires Inv(maxAttempts, s) && Enabled(s, e) && OtherStep(e)
    requires v in Apply(maxAttempts, s, e).hands
    ensures HandInv(Apply(maxAttempts, s, e), v)
  {
    if v in s.hands {
      assert HandInv(s, v);
    }
  }

  lemma {:induction false} OtherStepKeepsHolders(maxAttempts: int, s: Sys, e: Event, v: nat)
    requires |s.history| == |s.rows| && Enabled(s, e) && OtherStep(e)
    requires v in Apply(maxAttempts, s, e).hands && Apply(maxAttempts, s, e).hands[v].Holding?
    ensures v in s.hands && s.hands[v] == Apply(maxAttempts, s, e).hands[v]
  {
  }

  lemma {:induction false} OtherStepKeepsInv(maxAttempts: int, s: Sys, e: Event)
    requires Inv(maxAttempts, s) && Enabled(s, e) && OtherStep(e)
    ensures Inv(maxAttempts, Apply(maxAttempts, s, e))
  {
    var s' := Apply(maxAttempts, s, e);
    forall v | v in s'.hands
      ensures HandInv(s', v)
    {
      OtherStepKeepsHand(maxAttempts, s, e, v);
    }
    forall i | 0 <= i < |s'.rows|
      ensures s'.rows[i].id == i && RowCounts(maxAttempts, s'.rows[i], s'.history[i])
    {
      OtherStepKeepsRow(maxAttempts, s, e, i);
    }
    forall v | v in s'.hands && s'.hands[v].Holding?
      ensures v in s.hands && s.hands[v] == s'.hands[v]
    {
      OtherStepKeepsHolders(maxAttempts, s, e, v);
    }
  }

  lemma {:induction false} StepKeepsInv(maxAttempts: int, s: Sys, e: Event)
    requires Inv(maxAttempts, s) && Enabled(s, e)
    ensures Inv(maxAttempts, Apply(maxAttempts, s, e))
  {
    match e
    case Take(w, lease) => TakeKeepsInv(maxAttempts, s, w, lease);
    case HandlerFails(w, error) =>
      FailKeepsInv(maxAttempts, s, w, error, s.hands[w].job.attempts < maxAttempts);
    case NoHandler(w) =>
      FailKeepsInv(maxAttempts, s, w, "no handler for job kind: " + s.hands[w].job.kind, false);
    case _ => OtherStepKeepsInv(maxAttempts, s, e);
  }

  lemma {:induction false} ReachableInv(maxAttempts: int, events: seq<Event>)
    requires Run(maxAttempts, events).Some?
    ensures Inv(maxAttempts, Run(maxAttempts, events).value)
  {
    if events == [] {
      InitInv(maxAttempts);
    } else {
      ReachableInv(maxAttempts, events[..|events| - 1]);
      StepKeepsInv(maxAttempts, Run(maxAttempts, events[..|events| - 1]).value, events[|events| - 1]);
    }
  }

  // ----- the attempts bound -----

  lemma {:induction false} RetryableSize(maxAttempts: int)
    ensures |Retryable(maxAttempts)| == Max(maxAttempts - 1, 0)
    decreases maxAttempts
  {
    if maxAttempts > 1 {
      RetryableSize(maxAttempts - 1);
    }
  }

  function Bound(maxAttempts: int, h: History): nat {
    Max(maxAttempts, 1) + h.recoveries + |h.stale|
  }

  lemma {:induction false} InvGivesBound(maxAttempts: int, s: Sys, i: nat)
    requires Inv(maxAttempts, s) && i < |s.rows|
    ensures s.rows[i].attempts <= Bound(maxAttempts, s.history[i])
  {
    var h := s.history[i];
    assert RowCounts(maxAttempts, s.rows[i], h);
    RetryableSize(maxAttempts);
    SubsetSize(h.retried, h.stale + Retryable(maxAttempts));
    assert |h.stale + Retryable(maxAttempts)| <= |h.stale| + |Retryable(maxAttempts)|;
  }

  /** Whatever the workers do, a job is attempted at most max_attempts times, plus once per
      recovered lease, plus once per stale claim. */
  lemma {:induction false} AttemptsBound(maxAttempts: int, events: seq<Event>, i: nat)
    requires Run(maxAttempts, events).Some? && i < |Run(maxAttempts, events).value.rows|
    ensures var s := Run(maxAttempts, events).value;
            && |s.history| == |s.rows|
            && s.rows[i].attempts <= Bound(maxAttempts, s.history[i])
  {
    ReachableInv(maxAttempts, events);
    InvGivesBound(maxAttempts, Run(maxAttempts, events).value, i);
  }

  /** The UPDATE of each claim directly follows its SELECT. */
  ghost predicate AtomicClaims(events: seq<Event>) {
    forall i :: 0 <= i < |events| && events[i].Take? ==> i > 0 && events[i - 1] == Read(events[i].worker)
  }

  lemma {:induction false} AtomicClaimsAreNeverStale(maxAttempts: int, events: seq<Event>)
    requires Run(maxAttempts, events).Some? && AtomicClaims(events)
    ensures forall i :: 0 <= i < |Run(maxAttempts, events).value.history| ==>
              Run(maxAttempts, events).value.history[i].stale == {}
  {
    if events != [] {
      var before, e := events[..|events| - 1], events[|events| - 1];
      AtomicClaimsAreNeverStale(maxAttempts, before);
      ReachableInv(maxAttempts, before);
      if e.Take? {
        assert before[|before| - 1] == events[|events| - 2] == Read(e.worker);
        ReachableInv(maxAttempts, before[..|before| - 1]);
      }
    }
  }

  /** With atomic claims the bound is max_attempts plus the recoveries. */
  lemma {:induction false} AttemptsBoundAtomic(maxAttempts: int, events: seq<Event>, i: nat)
    requires Run(maxAttempts, events).Some? && AtomicClaims(events)
    requires i < |Run(maxAttempts, events).value.rows|
    ensures var s := Run(maxAttempts, events).value;
            && |s.history| == |s.rows|
            && s.rows[i].attempts <= Max(maxAttempts, 1) + s.history[i].recoveries
  {
    AttemptsBound(maxAttempts, events, i);
    AtomicClaimsAreNeverStale(maxAttempts, events);
  }

  lemma {:induction false} RunOneMore(maxAttempts: int, events: seq<Event>, e: Event)
    requires Run(maxAttempts, events).Some? && Enabled(Run(maxAttempts, events).value, e)
    ensures Run(maxAttempts, events + [e]) == Some(Apply(maxAttempts, Run(maxAttempts, events).value, e))
  {
    assert (events + [e])[..|events + [e]| - 1] == events;
  }

  function Row(status: Status, attempts: nat, leaseUntil: Option<real>, error: Option<string>): Job {
    Job(0, "k", "p", status, attempts, leaseUntil, error)
  }

  // ----- waiting -----

  ghost predicate Untouched(s: Sys, w: nat, i: nat)
    requires w in s.hands
  {
    match s.hands[w]
    case Reading(read) => read.id <= i
    case Holding(job, _) => job.id <= i
  }

  /** As long as job i was never attempted it is queued, no later job was attempted, and no
      worker has so much as read a later job. */
  ghost predicate Waits(s: Sys, i: nat)
    requires i < |s.rows|
  {
    s.rows[i].attempts == 0 ==>
      && s.rows[i].status.Queued?
      && (forall k :: i < k < |s.rows| ==> s.rows[k].attempts == 0)
      && (forall w :: w in s.hands ==> Untouched(s, w, i))
  }

  lemma {:induction false} StepKeepsWaiting(maxAttempts: int, s: Sys, e: Event, i: nat)
    requires Inv(maxAttempts, s) && Enabled(s, e)
    requires i < |s.rows| && Waits(s, i)
    ensures i < |Apply(maxAttempts, s, e).rows| && Waits(Apply(maxAttempts, s, e), i)
  {
    var s' := Apply(maxAttempts, s, e);
    if s'.rows[i].attempts == 0 {
      forall w | w in s'.hands
        ensures Untouched(s', w, i)
      {
        if w in s.hands {
          assert Untouched(s, w, i);
        }
      }
      if !e.Enqueue? && !e.Recover? && !e.Read? {
        assert HandInv(s, e.worker);
        assert Untouched(s, e.worker, i);
      }
    }
  }

  lemma {:induction false} NewRowWaits(maxAttempts: int, s: Sys, kind: string, payload: string)
    requires Inv(maxAttempts, s)
    ensures Waits(Apply(maxAttempts, s, Enqueue(kind, payload)), |s.rows|)
  {
    var s' := Apply(maxAttempts, s, Enqueue(kind, payload));
    forall w | w in s'.hands
      ensures Untouched(s', w, |s.rows|)
    {
      assert HandInv(s, w);
    }
  }

  lemma {:induction false} ReachableWaits(maxAttempts: int, events: seq<Event>, i: nat)
    requires Run(maxAttempts, events).Some? && i < |Run(maxAttempts, events).value.rows|
    ensures Waits(Run(maxAttempts, events).value, i)
  {
    var before, e := events[..|events| - 1], events[|events| - 1];
    var s := Run(maxAttempts, before).value;
    ReachableInv(maxAttempts, before);
    if i < |s.rows| {
      ReachableWaits(maxAttempts, before, i);
      StepKeepsWaiting(maxAttempts, s, e, i);
    } else {
      NewRowWaits(maxAttempts, s, e.kind, e.payload);
    }
  }

  function TotalAttempts(rows: seq<Job>): nat {
    if rows == [] then 0 else TotalAttempts(rows[..|rows| - 1]) + rows[|rows| - 1].attempts
  }

  function TotalBound(maxAttempts: int, history: seq<History>): nat {
    if history == [] then 0
    else TotalBound(maxAttempts, history[..|history| - 1]) + Bound(maxAttempts, history[|history| - 1])
  }

  lemma {:induction false} TotalWithinBound(maxAttempts: int, rows: seq<Job>, history: seq<History>)
    requires |rows| == |history|
    requires forall i :: 0 <= i < |rows| ==> rows[i].attempts <= Bound(maxAttempts, history[i])
    ensures TotalAttempts(rows) <= TotalBound(maxAttempts, history)
  {
    if rows != [] {
      TotalWithinBound(maxAttempts, rows[..|rows| - 1], history[..|history| - 1]);
    }
  }

  lemma {:induction false} UnattemptedTail(rows: seq<Job>, i: nat)
    requires i <= |rows| && forall k :: i <= k < |rows| ==> rows[k].attempts == 0
    ensures TotalAttempts(rows) == TotalAttempts(rows[..i])
    decreases |rows|
  {
    if i < |rows| {
      UnattemptedTail(rows[..|rows| - 1], i);
      assert rows[..|rows| - 1][..i] == rows[..i];
    } else {
      assert rows[..i] == rows;
    }
  }

  /** These jobs lost no lease and were claimed by no one who had read them too early. */
  ghost predicate Undisturbed(history: seq<History>) {
    forall k :: 0 <= k < |history| ==> history[k].recoveries == 0 && history[k].stale == {}
  }

  lemma {:induction false} UndisturbedBound(maxAttempts: int, history: seq<History>)
    requires Undisturbed(history)
    ensures TotalBound(maxAttempts, history) == |history| * Max(maxAttempts, 1)
  {
    if history != [] {
      UndisturbedBound(maxAttempts, history[..|history| - 1]);
    }
  }

  /** Bounded waiting: at any time before job i is first claimed, the claims made so far all
      went to earlier jobs, and there were at most as many as those jobs' attempt bounds add
      up to: i times the attempts, if nothing disturbed them. */
  lemma {:induction false} FirstClaimComesInTurn(maxAttempts: int, events: seq<Event>, i: nat)
    requires Run(maxAttempts, events).Some? && i < |Run(maxAttempts, events).value.rows|
    requires Run(maxAttempts, events).value.rows[i].attempts == 0
    ensures var s := Run(maxAttempts, events).value;
            && s.rows[i].status.Queued?
            && TotalAttempts(s.rows) == TotalAttempts(s.rows[..i])
            && TotalAttempts(s.rows[..i]) <= TotalBound(maxAttempts, s.history[..i])
            && (Undisturbed(s.history[..i]) ==> TotalAttempts(s.rows) <= i * Max(maxAttempts, 1))
  {
    var s := Run(maxAttempts, events).value;
    if Undisturbed(s.history[..i]) {
      UndisturbedBound(maxAttempts, s.history[..i]);
    }
    ReachableWaits(maxAttempts, events, i);
    UnattemptedTail(s.rows, i);
    forall k | 0 <= k < i
      ensures s.rows[k].attempts <= Bound(maxAttempts, s.history[k])
    {
      AttemptsBound(maxAttempts, events, k);
    }
    TotalWithinBound(maxAttempts, s.rows[..i], s.history[..i]);
  }

  // ----- is completed final? -----

  predicate Terminal(status: Status) {
    status.Completed? || status.Failed?
  }

  /** Some worker still holds a claim on row i. */
  ghost predicate Held(s: Sys, i: nat) {
    exists w :: w in s.hands && s.hands[w].Holding? && s.hands[w].job.id == i
  }

  lemma {:induction false} TerminalStaysPut(maxAttempts: int, s: Sys, e: Event, i: nat)
    requires Inv(maxAttempts, s) && Enabled(s, e)
    requires i < |s.rows| && Terminal(s.rows[i].status) && !Held(s, i)
    ensures var s' := Apply(maxAttempts, s, e);
            i < |s'.rows| && s'.rows[i] == s.rows[i] && !Held(s', i)
  {
    var s' := Apply(maxAttempts, s, e);
    if !e.Enqueue? && !e.Recover? && !e.Read? {
      assert HandInv(s, e.worker);
    }
    forall w | w in s'.hands && s'.hands[w].Holding?
      ensures s'.hands[w].job.id != i
    {
      if w in s.hands && s.hands[w].Holding? {
        assert s.hands[w].job.id != i;
      }
    }
  }

  ghost predicate Changes(maxAttempts: int, s: Sys, e: Event, i: nat)
    requires |s.history| == |s.rows| && i < |s.rows|
  {
    Enabled(s, e) && (|Apply(maxAttempts, s, e).rows| <= i || Apply(maxAttempts, s, e).rows[i] != s.rows[i])
  }

  /** A row in a terminal status can be changed by the next step exactly when some worker
      still holds a claim on it. */
  lemma {:induction false} TerminalChangesIffHeld(maxAttempts: int, s: Sys, i: nat)
    requires Inv(maxAttempts, s) && i < |s.rows| && Terminal(s.rows[i].status)
    ensures Held(s, i) <==> exists e :: Changes(maxAttempts, s, e, i)
  {
    if Held(s, i) {
      var w :| w in s.hands && s.hands[w].Holding? && s.hands[w].job.id == i;
      var e := if s.rows[i].status.Completed? then NoHandler(w) else Succeed(w);
      assert Changes(maxAttempts, s, e, i);
    } else {
      forall e | Enabled(s, e)
        ensures !Changes(maxAttempts, s, e, i)
      {
        TerminalStaysPut(maxAttempts, s, e, i);
      }
    }
  }

  function Continue(maxAttempts: int, s: Sys, events: seq<Event>): (r: Option<Sys>)
    requires |s.history| == |s.rows|
    ensures r.Some? ==> |r.value.history| == |r.value.rows|
    decreases |events|
  {
    if events == [] then Some(s)
    else if Enabled(s, events[0]) then Continue(maxAttempts, Apply(maxAttempts, s, events[0]), events[1..])
    else None
  }

  // ----- what a lease protects -----

  /** No event is the report of a worker whose claim is on row i. */
  ghost predicate NoReportOn(maxAttempts: int, s: Sys, events: seq<Event>, i: nat)
    requires |s.history| == |s.rows|
    decreases |events|
  {
    events != [] && Enabled(s, events[0]) ==>
      && (events[0].Succeed? || events[0].HandlerFails? || events[0].NoHandler? ==>
            s.hands[events[0].worker].job.id != i)
      && NoReportOn(maxAttempts, Apply(maxAttempts, s, events[0]), events[1..], i)
  }

  ghost predicate NoRecoveryAfter(events: seq<Event>, lease: real) {
    forall k :: 0 <= k < |events| && events[k].Recover? ==> events[k].now <= lease
  }

  lemma {:induction false} LeaseHoldsOnce(maxAttempts: int, s: Sys, e: Event, i: nat, lease: real)
    requires Inv(maxAttempts, s) && Enabled(s, e)
    requires i < |s.rows| && s.rows[i].status.Running? && s.rows[i].leaseUntil == Some(lease)
    requires e.Recover? ==> e.now <= lease
    requires e.Succeed? || e.HandlerFails? || e.NoHandler? ==> s.hands[e.worker].job.id != i
    ensures var s' := Apply(maxAttempts, s, e);
            i < |s'.rows| && s'.rows[i] == s.rows[i] && s'.history[i] == s.history[i]
  {
  }

  /** A leased row stays as it is, and is not recovered, through any events of which none is a
      recovery after the end of its lease or the report of a worker holding it. */
  lemma {:induction false} LeaseProtects(maxAttempts: int, s: Sys, events: seq<Event>, i: nat, lease: real)
    requires Inv(maxAttempts, s) && Continue(maxAttempts, s, events).Some?
    requires i < |s.rows| && s.rows[i].status.Running? && s.rows[i].leaseUntil == Some(lease)
    requires NoRecoveryAfter(events, lease) && NoReportOn(maxAttempts, s, events, i)
    ensures var s' := Continue(maxAttempts, s, events).value;
            i < |s'.rows| && s'.rows[i] == s.rows[i] && s'.history[i].recoveries == s.history[i].recoveries
    decreases |events|
  {
    if events != [] {
      LeaseHoldsOnce(maxAttempts, s, events[0], i, lease);
      StepKeepsInv(maxAttempts, s, events[0]);
      LeaseProtects(maxAttempts, Apply(maxAttempts, s, events[0]), events[1..], i, lease);
    }
  }

  /** A recovery requeues a row, and counts it as recovered, if and only if the row is running
      and its lease ended before. */
  lemma {:induction false} RecoveredIffLeaseEnded(maxAttempts: int, s: Sys, now: real, i: nat)
    requires |s.history| == |s.rows| && i < |s.rows|
    ensures var s' := Apply(maxAttempts, s, Recover(now));
            if s.rows[i].status.Running? && s.rows[i].leaseUntil.Some? && s.rows[i].leaseUntil.value < now
            then s'.rows[i].status.Queued? && s'.rows[i].leaseUntil.None?
                 && s'.rows[i].attempts == s.rows[i].attempts
                 && s'.history[i].recoveries == s.history[i].recoveries + 1
            else s'.rows[i] == s.rows[i] && s'.history[i] == s.history[i]
  {
  }

  /** A job that is taken with a lease: no recovery until the lease has ended gives it to anyone
      else, and the first one after that does, if no report on it came in between. */
  lemma {:induction false} LeaseDecidesRecovery(maxAttempts: int, events: seq<Event>, w: nat, lease: real, more: seq<Event>, now: real)
    requires Run(maxAttempts, events).Some? && Enabled(Run(maxAttempts, events).value, Take(w, lease))
    requires var s := Run(maxAttempts, events).value;
             var taken := Apply(maxAttempts, s, Take(w, lease));
             && w in taken.hands
             && Continue(maxAttempts, taken, more).Some?
             && NoRecoveryAfter(more, lease) && NoReportOn(maxAttempts, taken, more, taken.hands[w].job.id)
    ensures var s := Run(maxAttempts, events).value;
            var taken := Apply(maxAttempts, s, Take(w, lease));
            var i := taken.hands[w].job.id;
            var held := Continue(maxAttempts, taken, more).value;
            && i < |s.rows| && i < |held.rows|
            && held.rows[i] == s.rows[i].(status := Running, attempts := s.rows[i].attempts + 1, leaseUntil := Some(lease))
            && held.history[i].recoveries == s.history[i].recoveries
            && var after := Apply(maxAttempts, held, Recover(now));
               if lease < now
               then after.rows[i] == held.rows[i].(status := Queued, leaseUntil := None)
                    && after.history[i].recoveries == held.history[i].recoveries + 1
               else after.rows[i] == held.rows[i] && after.history[i].recoveries == held.history[i].recoveries
  {
    ReachableInv(maxAttempts, events);
    var s := Run(maxAttempts, events).value;
    StepKeepsInv(maxAttempts, s, Take(w, lease));
    assert HandInv(s, w);
    var taken := Apply(maxAttempts, s, Take(w, lease));
    LeaseProtects(maxAttempts, taken, more, taken.hands[w].job.id, lease);
  }

  /** Once nobody holds a claim on a completed or failed row, no continuation changes it. */
  lemma {:induction false} TerminalIsFinal(maxAttempts: int, s: Sys, i: nat, events: seq<Event>)
    requires Inv(maxAttempts, s) && i < |s.rows| && Terminal(s.rows[i].status) && !Held(s, i)
    requires Continue(maxAttempts, s, events).Some?
    ensures var s' := Continue(maxAttempts, s, events).value;
            i < |s'.rows| && s'.rows[i] == s.rows[i]
    decreases |events|
  {
    if events != [] {
      TerminalStaysPut(maxAttempts, s, events[0], i);
      StepKeepsInv(maxAttempts, s, events[0]);
      TerminalIsFinal(maxAttempts, Apply(maxAttempts, s, events[0]), i, events[1..]);
    }
  }

  /** A row whose lease was never recovered has at most one holder, only while running. */
  ghost predicate SoleHolder(s: Sys, i: nat)
    requires i < |s.rows| == |s.history|
  {
    s.history[i].recoveries == 0 ==>
      forall w :: w in s.hands && s.hands[w].Holding? && s.hands[w].job.id == i ==>
        s.rows[i].status.Running? && s.hands[w].number == s.rows[i].attempts
  }

  lemma {:induction false} StepKeepsSoleHolder(maxAttempts: int, s: Sys, e: Event, i: nat)
    requires Inv(maxAttempts, s) && Enabled(s, e) && i < |s.rows| && SoleHolder(s, i)
    ensures SoleHolder(Apply(maxAttempts, s, e), i)
  {
    var s' := Apply(maxAttempts, s, e);
    if !e.Enqueue? && !e.Recover? && !e.Read? {
      assert HandInv(s, e.worker);
    }
  }

  lemma {:induction false} ReachableSoleHolder(maxAttempts: int, events: seq<Event>, i: nat)
    requires Run(maxAttempts, events).Some? && i < |Run(maxAttempts, events).value.rows|
    ensures SoleHolder(Run(maxAttempts, events).value, i)
  {
    var before, e := events[..|events| - 1], events[|events| - 1];
    var s := Run(maxAttempts, before).value;
    ReachableInv(maxAttempts, before);
    if i < |s.rows| {
      ReachableSoleHolder(maxAttempts, before, i);
      StepKeepsSoleHolder(maxAttempts, s, e, i);
    } else {
      forall w | w in s.hands
        ensures s.hands[w].Holding? ==> s.hands[w].job.id != i
      {
        assert HandInv(s, w);
      }
    }
  }

  /** For a job whose lease was never recovered, completed and failed are final. */
  lemma {:induction false} NeverRecoveredMeansFinal(maxAttempts: int, events: seq<Event>, i: nat, more: seq<Event>)
    requires Run(maxAttempts, events).Some?
    requires var s := Run(maxAttempts, events).value;
             && i < |s.rows| && s.history[i].recoveries == 0 && Terminal(s.rows[i].status)
             && Continue(maxAttempts, s, more).Some?
    ensures var s, s' := Run(maxAttempts, events).value,
                         Continue(maxAttempts, Run(maxAttempts, events).value, more).value;
            i < |s'.rows| && s'.rows[i] == s.rows[i]
  {
    ReachableInv(maxAttempts, events);
    ReachableSoleHolder(maxAttempts, events, i);
    TerminalIsFinal(maxAttempts, Run(maxAttempts, events).value, i, more);
  }

  /** In general completed is not final: a worker whose lease was recovered reports a failure
      after another worker completed the job, and the job is queued again. */
  lemma {:induction false} CompletedJobRunsAgain() returns (events: seq<Event>, more: seq<Event>)
    ensures Run(3, events).Some? && Run(3, events).value.rows == [Row(Completed, 2, None, None)]
    ensures Continue(3, Run(3, events).value, more).Some?
    ensures Continue(3, Run(3, events).value, more).value.rows == [Row(Queued, 2, None, Some("late"))]
  {
    events := LateHolder();
    var e := Succeed(2);
    RunOneMore(3, events, e);
    events := events + [e];
    more := [HandlerFails(1, "late")];
    assert "late"[..4] == "late";
    assert more[1..] == [];
  }

  lemma {:induction false} LateHolder() returns (events: seq<Event>)
    ensures Run(3, events).Some?
    ensures var s := Run(3, events).value;
            && s.rows == [Row(Running, 2, Some(9.0), None)]
            && s.hands == map[1 := Holding(Row(Running, 1, Some(1.0), None), 1),
                              2 := Holding(Row(Running, 2, Some(9.0), None), 2)]
  {
    events := FirstHolder();
    RunOneMore(3, events, Recover(5.0));
    events := events + [Recover(5.0)];
    RunOneMore(3, events, Read(2));
    events := events + [Read(2)];
    RunOneMore(3, events, Take(2, 9.0));
    events := events + [Take(2, 9.0)];
  }

  lemma {:induction false} FirstHolder() returns (events: seq<Event>)
    ensures Run(3, events).Some?
    ensures var s := Run(3, events).value;
            && s.rows == [Row(Running, 1, Some(1.0), None)]
            && s.hands == map[1 := Holding(Row(Running, 1, Some(1.0), None), 1)]
  {
    events := [];
    RunOneMore(3, events, Enqueue("k", "p"));
    events := events + [Enqueue("k", "p")];
    RunOneMore(3, events, Read(1));
    events := events + [Read(1)];
    RunOneMore(3, events, Take(1, 1.0));
    events := events + [Take(1, 1.0)];
  }
}
