/**
 The PostgreSQL job store, each transaction read as one atomic step on three
 tables, and its refinement of the queue specification.

 A row carries the job status twice: in its `status` column, which the queries
 filter on, and inside the JSON state, which records are read back from.  Event
 rows are stamped by the database clock (`stamp`), not by the caller's `now`.
 */
module PostgresStore {
  import opened Wrappers
  import opened JobQueue
  import opened QueueInvariants
  import opened QueueTheorems

  // `record` holds the columns a record is parsed from; `createdAt` is written once, on insertion.
  datatype Row = Row(status: Status, record: QueueRecord, createdAt: int, updatedAt: int)

  datatype Db = Db(rows: map<string, Row>, attempts: seq<Attempt>, events: seq<Event>)

  // ---------------------------------------------------------------- queries

  /** SELECT ... FROM rca_job_attempt WHERE job_id = id, in insertion order. */
  function ListAttempts(table: seq<Attempt>, id: string): seq<Attempt> {
    if table == [] then []
    else
      var before := ListAttempts(table[..|table| - 1], id);
      if Last(table).jobId == id then before + [Last(table)] else before
  }

  function ListEvents(table: seq<Event>, id: string): seq<Event> {
    if table == [] then []
    else
      var before := ListEvents(table[..|table| - 1], id);
      if Last(table).jobId == id then before + [Last(table)] else before
  }

  /** COALESCE(MAX(sequence), 0) over the events of one job. */
  function MaxSequence(table: seq<Event>, id: string): nat {
    if table == [] then 0
    else
      var before := MaxSequence(table[..|table| - 1], id);
      if Last(table).jobId == id && Last(table).sequence > before then Last(table).sequence else before
  }

  /** UPDATE rca_job_attempt ... WHERE job_id = id AND attempt_number = number. */
  function UpdateAttempts(table: seq<Attempt>, id: string, number: nat, u: Amendment): seq<Attempt> {
    if table == [] then []
    else
      var last := Last(table);
      UpdateAttempts(table[..|table| - 1], id, number, u)
      + [if last.jobId == id && last.number == number then Amend(last, u) else last]
  }

  function InsertEvent(table: seq<Event>, id: string, t: EventType, p: Payload, stamp: int): seq<Event> {
    table + [Event(id, MaxSequence(table, id) + 1, t, p, stamp)]
  }

  predicate Eligible(row: Row, now: int) {
    Waiting(row.status) && (row.record.nextAttemptAt.None? || row.record.nextAttemptAt.value <= now)
  }

  /** ORDER BY priority DESC, created_at, job_id LIMIT 1 over the eligible rows. */
  predicate ClaimQueryReturns(db: Db, now: int, id: string) {
    && id in db.rows && Eligible(db.rows[id], now)
    && forall x <- db.rows | x != id && Eligible(db.rows[x], now) ::
         var a, b := db.rows[id], db.rows[x];
         || a.record.priority > b.record.priority
         || (a.record.priority == b.record.priority && a.createdAt < b.createdAt)
         || (a.record.priority == b.record.priority && a.createdAt == b.createdAt && StringBefore(id, x))
  }

  // ------------------------------------------------------------ transactions

  /** The owner and expiry check under FOR UPDATE. */
  predicate HoldsRowLease(row: Row, worker: string, now: int) {
    && row.record.leaseOwner == Some(worker)
    && row.record.leaseExpiresAt.Some? && !(row.record.leaseExpiresAt.value <= now)
  }

  function SetRow(db: Db, id: string, row: Row): Db { db.(rows := db.rows[id := row]) }

  function TxClaim(db: Db, id: string, worker: string, lease: int, now: int, stamp: int): Db {
    if lease <= 0 || id !in db.rows || !Eligible(db.rows[id], now) then db
    else
      var old_row := db.rows[id];
      var r := old_row.record;
      var claimed := r.(
        state := WithStatus(r.state, Running), attemptCount := r.attemptCount + 1, nextAttemptAt := None,
        leaseOwner := Some(worker), leaseExpiresAt := Some(now + lease), heartbeatAt := Some(now),
        startedAt := if r.startedAt.None? then Some(now) else r.startedAt, error := None, version := r.version + 1);
      Db(db.rows[id := Row(Running, claimed, old_row.createdAt, now)],
         db.attempts + [Attempt(id, claimed.attemptCount, worker, InProgress, now, None, None, None)],
         InsertEvent(db.events, id, JobStarted, StatusOfAttempt(Running, claimed.attemptCount), stamp))
  }

  function TxHeartbeat(db: Db, id: string, worker: string, lease: int, now: int): Db {
    if lease > 0 && id in db.rows && HoldsRowLease(db.rows[id], worker, now) && Leased(db.rows[id].status) then
      var row := db.rows[id];
      SetRow(db, id, row.(updatedAt := now, record := row.record.(
        heartbeatAt := Some(now), leaseExpiresAt := Some(now + lease), version := row.record.version + 1)))
    else db
  }

  function TxComplete(db: Db, id: string, worker: string, state: RCAState, checkpoint: Option<string>,
                      now: int, stamp: int): Db {
    if id !in db.rows || !HoldsRowLease(db.rows[id], worker, now)
       || !Leased(db.rows[id].record.state.status) then db
    else
      var row := db.rows[id];
      var r := row.record;
      var cancelled := r.state.status.CancelRequested?;
      var status := if cancelled then Cancelled else Completed;
      var final := r.(
        state := WithStatus(if cancelled then r.state else state, status),
        leaseOwner := None, leaseExpiresAt := None, heartbeatAt := None, completedAt := Some(now),
        error := None, checkpoint := checkpoint, version := r.version + 1);
      Db(db.rows[id := Row(status, final, row.createdAt, now)],
         UpdateAttempts(db.attempts, id, r.attemptCount,
                        Amendment(if cancelled then CancelledRun else Succeeded, now, None, Some(checkpoint))),
         InsertEvent(db.events, id, if cancelled then JobCancelled else JobCompleted,
                     StatusOfAttempt(status, r.attemptCount), stamp))
  }

  function TxFail(db: Db, id: string, worker: string, error: Error, retryable: bool, retryAfter: int,
                  partial: Option<RCAState>, checkpoint: Option<string>, now: int, stamp: int): Db {
    if id !in db.rows || !HoldsRowLease(db.rows[id], worker, now) then db
    else
      var row := db.rows[id];
      var r := row.record;
      var status :=
        if r.state.status.CancelRequested? then Cancelled
        else if retryable && r.attemptCount < r.maxAttempts then RetryWait
        else Failed;
      var nextAttemptAt := if status.RetryWait? then Some(now + Max(0, retryAfter)) else None;
      var updated := r.(
        state := WithStatus(if partial.Some? then partial.value else r.state, status), nextAttemptAt := nextAttemptAt,
        leaseOwner := None, leaseExpiresAt := None, heartbeatAt := None,
        completedAt := if Terminal(status) then Some(now) else None,
        error := Some(error), checkpoint := checkpoint, version := r.version + 1);
      Db(db.rows[id := Row(status, updated, row.createdAt, now)],
         UpdateAttempts(db.attempts, id, r.attemptCount,
                        Amendment(if status.Cancelled? then CancelledRun else GaveUp, now,
                                  Some(Some(error)), Some(checkpoint))),
         InsertEvent(db.events, id,
                     match status { case RetryWait => JobRetryScheduled case Cancelled => JobCancelled case _ => JobFailed },
                     AttemptFailure(status, r.attemptCount, retryable, nextAttemptAt, error), stamp))
  }

  function TxCancel(db: Db, id: string, now: int, stamp: int): Db {
    if id !in db.rows then db
    else
      var row := db.rows[id];
      var r := row.record;
      var immediate := Waiting(r.state.status);
      var status := if immediate then Cancelled else CancelRequested;
      if Terminal(r.state.status) || r.state.status.CancelRequested? || !ValidTransition(r.state.status, status) then db
      else
        var updated := r.(
          state := WithStatus(r.state, status), cancelRequestedAt := Some(now),
          completedAt := if immediate then Some(now) else r.completedAt,
          nextAttemptAt := if immediate then None else r.nextAttemptAt, version := r.version + 1);
        Db(db.rows[id := Row(status, updated, row.createdAt, now)], db.attempts,
           InsertEvent(db.events, id, if immediate then JobCancelled else JobCancelRequested, StatusOnly(status), stamp))
  }

  /** The recovery query's condition and the loop body for one returned row. */
  function TxRecover(db: Db, id: string, retryAfter: int, now: int, stamp: int): Db {
    if id !in db.rows || !Leased(db.rows[id].status) || db.rows[id].record.leaseExpiresAt.None?
       || db.rows[id].record.leaseExpiresAt.value > now then db
    else
      var row := db.rows[id];
      var r := row.record;
      var status :=
        if r.state.status.CancelRequested? then Cancelled
        else if r.attemptCount < r.maxAttempts then RetryWait
        else Failed;
      var error := LeaseExpired(status.RetryWait?);
      var updated := r.(
        state := WithStatus(r.state, status),
        nextAttemptAt := if status.RetryWait? then Some(now + Max(0, retryAfter)) else None,
        leaseOwner := None, leaseExpiresAt := None, heartbeatAt := None,
        completedAt := if Terminal(status) then Some(now) else None,
        error := Some(error), version := r.version + 1);
      Db(db.rows[id := Row(status, updated, row.createdAt, now)],
         UpdateAttempts(db.attempts, id, r.attemptCount, Amendment(Abandoned, now, Some(Some(error)), None)),
         InsertEvent(db.events, id, if status.Cancelled? then JobCancelled else JobLeaseRecovered,
                     StatusOfAttempt(status, r.attemptCount), stamp))
  }

  function TxProgress(db: Db, id: string, worker: string, name: string, body: string, now: int, stamp: int): Db {
    if PublicEventName(name) && id in db.rows && HoldsRowLease(db.rows[id], worker, now)
       && Leased(db.rows[id].record.state.status)
    then db.(events := InsertEvent(db.events, id, Workflow(name), Facts(body), stamp))
    else db
  }

  function Tx(db: Db, id: string, op: Op, stamp: int): Db {
    match op
    case Claim(w, lease, now) => TxClaim(db, id, w, lease, now, stamp)
    case Heartbeat(w, lease, now) => TxHeartbeat(db, id, w, lease, now)
    case Complete(w, state, checkpoint, now) => TxComplete(db, id, w, state, checkpoint, now, stamp)
    case Fail(w, error, retryable, retryAfter, partial, checkpoint, now) =>
      TxFail(db, id, w, error, retryable, retryAfter, partial, checkpoint, now, stamp)
    case Cancel(now) => TxCancel(db, id, now, stamp)
    case Recover(retryAfter, now) => TxRecover(db, id, retryAfter, now, stamp)
    case Progress(w, name, body, now) => TxProgress(db, id, w, name, body, now, stamp)
  }

  /** The unique constraints on job_id and idempotency_key. */
  predicate Violates(db: Db, r: QueueRecord) {
    || r.state.jobId in db.rows
    || (r.idempotencyKey.Some? && exists id <- db.rows :: db.rows[id].record.idempotencyKey == r.idempotencyKey)
  }

  function TxEnqueue(db: Db, r: QueueRecord, stamp: int): Db {
    if Violates(db, r) then db
    else
      Db(db.rows[r.state.jobId := Row(r.state.status, r, r.state.createdAt, stamp)], db.attempts,
         InsertEvent(db.events, r.state.jobId, JobQueued, StatusOnly(r.state.status), stamp))
  }

  /** What the caller is told: the row found by key, or why there is none. */
  ghost function TxEnqueueReply(db: Db, r: QueueRecord): Result<QueueRecord, QueueError> {
    if !Violates(db, r) then Success(r)
    else if r.idempotencyKey.None? || !exists id <- db.rows :: db.rows[id].record.idempotencyKey == r.idempotencyKey
    then Failure(DuplicateJob)
    else
      var id :| id in db.rows && db.rows[id].record.idempotencyKey == r.idempotencyKey;
      if db.rows[id].record.requestHash != r.requestHash then Failure(IdempotencyConflict)
      else Success(db.rows[id].record)
  }

  // -------------------------------------------------------------- refinement

  /** Events as both stores agree on them: without the clock that stamped them. */
  function Unstamped(events: seq<Event>): seq<Event> {
    seq(|events|, i requires 0 <= i < |events| => events[i].(createdAt := 0))
  }

  predicate SameJob(db: Db, id: string, j: Job)
    requires id in db.rows
  {
    && db.rows[id].status == db.rows[id].record.state.status
    && db.rows[id].record == j.record
    && ListAttempts(db.attempts, id) == j.attempts
    && Unstamped(ListEvents(db.events, id)) == Unstamped(j.events)
  }

  // The foreign keys of the attempt and event tables.
  predicate ForeignKeys(db: Db) {
    && (forall a <- db.attempts :: a.jobId in db.rows)
    && (forall e <- db.events :: e.jobId in db.rows)
  }

  predicate Refines(db: Db, s: Store) {
    && db.rows.Keys == s.jobs.Keys
    && (forall id <- s.jobs :: SameJob(db, id, s.jobs[id]))
    && ForeignKeys(db)
  }

  lemma {:induction false} UpdateSelects(table: seq<Attempt>, id: string, x: string, number: nat, u: Amendment)
    ensures x != id ==> ListAttempts(UpdateAttempts(table, id, number, u), x) == ListAttempts(table, x)
    ensures ListAttempts(UpdateAttempts(table, id, number, u), id)
         == UpdateAttempts(ListAttempts(table, id), id, number, u)
  {
    if table != [] {
      var init := table[..|table| - 1];
      UpdateSelects(init, id, x, number, u);
      var t := UpdateAttempts(table, id, number, u);
      assert t[..|t| - 1] == UpdateAttempts(init, id, number, u);
      if Last(table).jobId == id {
        var mine := ListAttempts(table, id);
        assert mine[..|mine| - 1] == ListAttempts(init, id);
      }
    }
  }

  lemma {:induction false} UpdateAt(table: seq<Attempt>, id: string, number: nat, u: Amendment, i: nat)
    requires i < |table|
    ensures |UpdateAttempts(table, id, number, u)| == |table|
    ensures UpdateAttempts(table, id, number, u)[i]
         == if table[i].jobId == id && table[i].number == number then Amend(table[i], u) else table[i]
  {
    var init := table[..|table| - 1];
    if i < |init| {
      UpdateAt(init, id, number, u, i);
    } else if init != [] {
      UpdateAt(init, id, number, u, 0);
    }
  }

  /** With attempts numbered 1..n the UPDATE hits exactly the current attempt. */
  lemma UpdateHitsOne(list: seq<Attempt>, id: string, k: nat, u: Amendment)
    requires forall i | 0 <= i < |list| :: list[i].number == i + 1 && list[i].jobId == id
    ensures UpdateAttempts(list, id, k, u)
         == if 1 <= k <= |list| then list[k - 1 := Amend(list[k - 1], u)] else list
  {
    var expected := if 1 <= k <= |list| then list[k - 1 := Amend(list[k - 1], u)] else list;
    forall i | 0 <= i < |list|
      ensures |UpdateAttempts(list, id, k, u)| == |list| && UpdateAttempts(list, id, k, u)[i] == expected[i]
    {
      UpdateAt(list, id, k, u, i);
    }
    assert UpdateAttempts(list, id, k, u) == expected;
  }

  lemma UpdateKeepsOwners(table: seq<Attempt>, id: string, number: nat, u: Amendment)
    ensures |UpdateAttempts(table, id, number, u)| == |table|
    ensures forall i | 0 <= i < |table| :: UpdateAttempts(table, id, number, u)[i].jobId == table[i].jobId
  {
    forall i | 0 <= i < |table|
      ensures |UpdateAttempts(table, id, number, u)| == |table|
      ensures UpdateAttempts(table, id, number, u)[i].jobId == table[i].jobId
    {
      UpdateAt(table, id, number, u, i);
    }
  }

  lemma {:induction false} MaxIsCount(table: seq<Event>, id: string)
    requires forall i | 0 <= i < |ListEvents(table, id)| :: ListEvents(table, id)[i].sequence == i + 1
    ensures MaxSequence(table, id) == |ListEvents(table, id)|
  {
    if table != [] {
      var before := ListEvents(table[..|table| - 1], id);
      assert forall i | 0 <= i < |before| :: before[i] == ListEvents(table, id)[i];
      MaxIsCount(table[..|table| - 1], id);
      if Last(table).jobId == id {
        assert ListEvents(table, id)[|before|] == Last(table);
      }
    }
  }

  /** Inserting an event appends it, with the next number, to its own job's log only. */
  lemma InsertSelects(table: seq<Event>, log: seq<Event>, id: string, x: string, t: EventType, p: Payload, stamp: int, now: int)
    requires Unstamped(ListEvents(table, id)) == Unstamped(log) && Numbered(log, id)
    ensures x != id ==> ListEvents(InsertEvent(table, id, t, p, stamp), x) == ListEvents(table, x)
    ensures Unstamped(ListEvents(InsertEvent(table, id, t, p, stamp), id)) == Unstamped(Appended(log, id, t, p, now))
  {
    var list := ListEvents(table, id);
    assert |Unstamped(list)| == |Unstamped(log)|;
    forall i | 0 <= i < |list|
      ensures list[i].sequence == i + 1
    {
      assert Unstamped(list)[i] == Unstamped(log)[i];
    }
    MaxIsCount(table, id);
    var after := InsertEvent(table, id, t, p, stamp);
    assert after[..|after| - 1] == table;
    var a, b := Unstamped(ListEvents(after, id)), Unstamped(Appended(log, id, t, p, now));
    forall i | 0 <= i < |list|
      ensures a[i] == b[i]
    {
      assert Unstamped(list)[i] == Unstamped(log)[i];
    }
    assert a == b;
  }

  /** A repeated cancellation is the only operation the two stores decide differently, and a
      negative recovery delay the only value they compute differently. */
  predicate Agrees(r: QueueRecord, op: Op) {
    && (op.Cancel? ==> !r.state.status.CancelRequested?)
    && (op.Recover? && Accepts(r, op) && FailedStatus(r, true).RetryWait? ==> op.retryAfter >= 0)
  }

  predicate RowMatches(db: Db, t: Db, id: string, r: QueueRecord)
    requires id in db.rows
  {
    && id in t.rows && t.rows == db.rows[id := t.rows[id]]
    && t.rows[id].record == r && t.rows[id].status == r.state.status
    && t.rows[id].createdAt == db.rows[id].createdAt
  }

  lemma ClosingRowWritten(db: Db, j: Job, id: string, op: Op, stamp: int)
    requires id in db.rows && db.rows[id].record == j.record && db.rows[id].status == j.Status()
    requires Agrees(j.record, op) && Closes(op)
    ensures RowMatches(db, Tx(db, id, op, stamp), id, Do(j, op).record)
  {
  }

  lemma OtherRowWritten(db: Db, j: Job, id: string, op: Op, stamp: int)
    requires id in db.rows && db.rows[id].record == j.record && db.rows[id].status == j.Status()
    requires Agrees(j.record, op) && !Closes(op)
    ensures RowMatches(db, Tx(db, id, op, stamp), id, Do(j, op).record)
  {
  }

  lemma RowWritten(db: Db, s: Store, id: string, op: Op, stamp: int)
    requires id in s.jobs && db.rows.Keys == s.jobs.Keys && SameJob(db, id, s.jobs[id])
    requires Agrees(s.jobs[id].record, op)
    ensures RowMatches(db, Tx(db, id, op, stamp), id, Do(s.jobs[id], op).record)
  {
    if Closes(op) {
      ClosingRowWritten(db, s.jobs[id], id, op, stamp);
    } else {
      OtherRowWritten(db, s.jobs[id], id, op, stamp);
    }
  }

  /** What the transaction writes to the attempt table. */
  function NextTable(table: seq<Attempt>, r: QueueRecord, id: string, op: Op): seq<Attempt> {
    if !Accepts(r, op) then table
    else if Closes(op) then UpdateAttempts(table, id, r.attemptCount, Closing(r, op))
    else if op.Claim? then
      table + [Attempt(id, r.attemptCount + 1, op.worker, InProgress, op.now, None, None, None)]
    else table
  }

  lemma AttemptTable(db: Db, s: Store, id: string, op: Op, stamp: int)
    requires id in s.jobs && db.rows.Keys == s.jobs.Keys && SameJob(db, id, s.jobs[id])
    requires s.jobs[id].Id() == id && Agrees(s.jobs[id].record, op)
    ensures Tx(db, id, op, stamp).attempts == NextTable(db.attempts, s.jobs[id].record, id, op)
  {
  }

  lemma AttemptsWritten(db: Db, s: Store, id: string, op: Op, stamp: int, x: string)
    requires id in s.jobs && db.rows.Keys == s.jobs.Keys && SameJob(db, id, s.jobs[id])
    requires JobInv(s.jobs[id]) && s.jobs[id].Id() == id && Agrees(s.jobs[id].record, op)
    ensures ListAttempts(Tx(db, id, op, stamp).attempts, id) == Do(s.jobs[id], op).attempts
    ensures x != id ==> ListAttempts(Tx(db, id, op, stamp).attempts, x) == ListAttempts(db.attempts, x)
  {
    AttemptTable(db, s, id, op, stamp);
    TableLists(db.attempts, s.jobs[id], op, x);
  }

  /** The ledgers read from that table: the job's own moves with the job, any other stays. */
  lemma TableLists(table: seq<Attempt>, j: Job, op: Op, x: string)
    requires JobInv(j) && ListAttempts(table, j.Id()) == j.attempts
    ensures var next := NextTable(table, j.record, j.Id(), op);
      && ListAttempts(next, j.Id()) == Do(j, op).attempts
      && (x != j.Id() ==> ListAttempts(next, x) == ListAttempts(table, x))
  {
    if Accepts(j.record, op) && Closes(op) {
      AmendedLists(table, j, Closing(j.record, op), x);
    } else if Accepts(j.record, op) && op.Claim? {
      var a := Attempt(j.Id(), j.record.attemptCount + 1, op.worker, InProgress, op.now, None, None, None);
      assert (table + [a])[..|table + [a]| - 1] == table;
    }
  }

  /** Amending the current attempt in the table amends it in the job's ledger. */
  lemma AmendedLists(table: seq<Attempt>, j: Job, u: Amendment, x: string)
    requires JobInv(j) && ListAttempts(table, j.Id()) == j.attempts && 1 <= j.record.attemptCount
    ensures var next := UpdateAttempts(table, j.Id(), j.record.attemptCount, u);
      && ListAttempts(next, j.Id()) == ReplaceAttempt(j.attempts, j.record.attemptCount, u)
      && (x != j.Id() ==> ListAttempts(next, x) == ListAttempts(table, x))
  {
    var n := j.record.attemptCount;
    UpdateSelects(table, j.Id(), x, n, u);
    UpdateHitsOne(j.attempts, j.Id(), n, u);
    ReplaceAt(j.attempts, n - 1, 0, u);
  }

  /** What the transaction writes to the event table. */
  lemma EventTable(db: Db, j: Job, id: string, op: Op, stamp: int)
    requires id in db.rows && db.rows[id].record == j.record && db.rows[id].status == j.Status()
    requires Agrees(j.record, op)
    ensures Tx(db, id, op, stamp).events ==
            if !Accepts(j.record, op) || Logged(j.record, op).None? then db.events
            else InsertEvent(db.events, id, Logged(j.record, op).value.0, Logged(j.record, op).value.1, stamp)
  {
    if Accepts(j.record, op) && op.Fail? {
      FailEvent(db, j, id, op, stamp);
    }
  }

  lemma FailEvent(db: Db, j: Job, id: string, op: Op, stamp: int)
    requires id in db.rows && db.rows[id].record == j.record && db.rows[id].status == j.Status()
    requires op.Fail? && Accepts(j.record, op)
    ensures Tx(db, id, op, stamp).events
         == InsertEvent(db.events, id, Logged(j.record, op).value.0, Logged(j.record, op).value.1, stamp)
  {
  }

  lemma EventsWritten(db: Db, s: Store, id: string, op: Op, stamp: int, x: string)
    requires id in s.jobs && db.rows.Keys == s.jobs.Keys && SameJob(db, id, s.jobs[id])
    requires JobInv(s.jobs[id]) && s.jobs[id].Id() == id && Agrees(s.jobs[id].record, op)
    ensures var t := Tx(db, id, op, stamp);
            && Unstamped(ListEvents(t.events, id)) == Unstamped(Do(s.jobs[id], op).events)
            && (x != id ==> ListEvents(t.events, x) == ListEvents(db.events, x))
            && (forall e <- t.events :: e.jobId == id || e in db.events)
  {
    var j := s.jobs[id];
    if Accepts(j.record, op) && Logged(j.record, op).Some? {
      var (ty, p) := Logged(j.record, op).value;
      InsertSelects(db.events, j.events, id, x, ty, p, stamp, op.now);
    }
    EventTable(db, j, id, op, stamp);
  }

  lemma TxSameJob(db: Db, s: Store, id: string, op: Op, stamp: int, x: string)
    requires id in s.jobs && x in s.jobs && db.rows.Keys == s.jobs.Keys
    requires SameJob(db, id, s.jobs[id]) && SameJob(db, x, s.jobs[x])
    requires JobInv(s.jobs[id]) && s.jobs[id].Id() == id && Agrees(s.jobs[id].record, op)
    ensures x in Tx(db, id, op, stamp).rows && SameJob(Tx(db, id, op, stamp), x, OnJob(s, id, op).jobs[x])
  {
    RowWritten(db, s, id, op, stamp);
    AttemptsWritten(db, s, id, op, stamp, x);
    EventsWritten(db, s, id, op, stamp, x);
  }

  lemma TxForeignKeys(db: Db, s: Store, id: string, op: Op, stamp: int)
    requires id in s.jobs && db.rows.Keys == s.jobs.Keys && SameJob(db, id, s.jobs[id])
    requires JobInv(s.jobs[id]) && s.jobs[id].Id() == id && Agrees(s.jobs[id].record, op) && ForeignKeys(db)
    ensures ForeignKeys(Tx(db, id, op, stamp)) && Tx(db, id, op, stamp).rows.Keys == db.rows.Keys
  {
    RowWritten(db, s, id, op, stamp);
    EventsWritten(db, s, id, op, stamp, id);
    AttemptOwners(db, s, id, op, stamp);
  }

  lemma AttemptOwners(db: Db, s: Store, id: string, op: Op, stamp: int)
    requires id in s.jobs && db.rows.Keys == s.jobs.Keys && SameJob(db, id, s.jobs[id])
    requires s.jobs[id].Id() == id && Agrees(s.jobs[id].record, op) && ForeignKeys(db)
    ensures forall a <- Tx(db, id, op, stamp).attempts :: a.jobId in db.rows
  {
    AttemptTable(db, s, id, op, stamp);
    if Closes(op) {
      UpdateKeepsOwners(db.attempts, id, s.jobs[id].record.attemptCount, Closing(s.jobs[id].record, op));
    }
  }

  lemma AssembleRefines(t: Db, n: Store)
    requires t.rows.Keys == n.jobs.Keys && ForeignKeys(t)
    requires forall x <- n.jobs :: SameJob(t, x, n.jobs[x])
    ensures Refines(t, n)
  {
  }

  lemma OnJobKeys(s: Store, id: string, op: Op)
    ensures OnJob(s, id, op).jobs.Keys == s.jobs.Keys
  {
  }

  /** One transaction on one job refines the queue's operation on it. */
  lemma TxRefines(db: Db, s: Store, id: string, op: Op, stamp: int)
    requires id in s.jobs && JobInv(s.jobs[id]) && s.jobs[id].Id() == id
    requires Refines(db, s) && Agrees(s.jobs[id].record, op)
    ensures Refines(Tx(db, id, op, stamp), OnJob(s, id, op))
  {
    var n := OnJob(s, id, op);
    OnJobKeys(s, id, op);
    TxForeignKeys(db, s, id, op, stamp);
    forall x | x in n.jobs
      ensures x in Tx(db, id, op, stamp).rows && SameJob(Tx(db, id, op, stamp), x, n.jobs[x])
    {
      TxSameJob(db, s, id, op, stamp, x);
    }
    AssembleRefines(Tx(db, id, op, stamp), n);
  }

  /** The agreement condition is exact: where it fails, the two stores write different jobs. */
  lemma AgreesExactly(db: Db, s: Store, id: string, op: Op, stamp: int)
    requires id in s.jobs && JobInv(s.jobs[id]) && s.jobs[id].Id() == id
    requires db.rows.Keys == s.jobs.Keys && SameJob(db, id, s.jobs[id])
    ensures id in Tx(db, id, op, stamp).rows
    ensures SameJob(Tx(db, id, op, stamp), id, Do(s.jobs[id], op)) <==> Agrees(s.jobs[id].record, op)
  {
    if Agrees(s.jobs[id].record, op) {
      TxSameJob(db, s, id, op, stamp, id);
    }
  }

  // ---------------------------------------------------------------- enqueue

  lemma InsertFirst(db: Db, id: string, t: EventType, p: Payload, stamp: int, x: string)
    requires id !in db.rows && ForeignKeys(db)
    ensures ListAttempts(db.attempts, id) == []
    ensures ListEvents(InsertEvent(db.events, id, t, p, stamp), id) == [Event(id, 1, t, p, stamp)]
    ensures x != id ==> ListEvents(InsertEvent(db.events, id, t, p, stamp), x) == ListEvents(db.events, x)
  {
    NoStrayRows(db.attempts, db.events, id);
    MaxIsCount(db.events, id);
    assert InsertEvent(db.events, id, t, p, stamp)[..|db.events|] == db.events;
  }

  lemma {:induction false} NoStrayRows(attempts: seq<Attempt>, events: seq<Event>, id: string)
    requires (forall a <- attempts :: a.jobId != id) && (forall e <- events :: e.jobId != id)
    ensures ListAttempts(attempts, id) == [] && ListEvents(events, id) == []
    decreases |attempts| + |events|
  {
    if attempts != [] {
      assert Last(attempts) in attempts && forall a <- attempts[..|attempts| - 1] :: a in attempts;
      NoStrayRows(attempts[..|attempts| - 1], events, id);
    } else if events != [] {
      assert Last(events) in events && forall e <- events[..|events| - 1] :: e in events;
      NoStrayRows(attempts, events[..|events| - 1], id);
    }
  }

  /** The unique constraints refuse exactly the records the in-memory store refuses. */
  lemma ViolatesIffKnown(db: Db, s: Store, r: QueueRecord)
    requires WellFormed(s) && IndexInv(s) && Refines(db, s)
    ensures Violates(db, r) <==> !IsNew(s, r)
    ensures TxEnqueueReply(db, r) == EnqueueReply(s, r)
  {
    forall id | id in s.jobs
      ensures db.rows[id].record == s.jobs[id].record
    {
      assert SameJob(db, id, s.jobs[id]);
    }
    if r.idempotencyKey.Some? && r.idempotencyKey.value in s.index {
      var id := s.index[r.idempotencyKey.value];
      assert db.rows[id].record.idempotencyKey == r.idempotencyKey;
    }
  }

  lemma QueuedRefines(db: Db, s: Store, r: QueueRecord, now: int, stamp: int)
    requires Refines(db, s) && IsNew(s, r) && !Violates(db, r) && r.state.status.Queued?
    ensures Refines(TxEnqueue(db, r, stamp), WithNew(s, r, now))
  {
    var t, n, id := TxEnqueue(db, r, stamp), WithNew(s, r, now), r.state.jobId;
    InsertFirst(db, id, JobQueued, StatusOnly(Queued), stamp, id);
    forall x | x in n.jobs
      ensures x in t.rows && SameJob(t, x, n.jobs[x])
    {
      InsertFirst(db, id, JobQueued, StatusOnly(Queued), stamp, x);
      assert x != id ==> SameJob(db, x, s.jobs[x]);
    }
    AssembleRefines(t, n);
  }

  /** A new record is stored alike exactly when it is queued: for any other status the first events differ. */
  lemma EnqueueRefinesIff(db: Db, s: Store, r: QueueRecord, now: int, stamp: int)
    requires WellFormed(s) && IndexInv(s) && Refines(db, s)
    ensures Refines(TxEnqueue(db, r, stamp), Apply(s, Enqueue(r, now))) <==> (IsNew(s, r) ==> r.state.status.Queued?)
  {
    ViolatesIffKnown(db, s, r);
    if IsNew(s, r) && r.state.status.Queued? {
      QueuedRefines(db, s, r, now, stamp);
    } else if IsNew(s, r) {
      var t, n, id := TxEnqueue(db, r, stamp), WithNew(s, r, now), r.state.jobId;
      InsertFirst(db, id, JobQueued, StatusOnly(r.state.status), stamp, id);
      assert Unstamped(ListEvents(t.events, id))[0].payload != Unstamped(n.jobs[id].events)[0].payload;
      assert !SameJob(t, id, n.jobs[id]);
    }
  }

  /** A row that changes carries the caller's clock and keeps its creation column; an event that is added, one at
      most, carries the database's. */
  lemma StampsAre(db: Db, id: string, op: Op, stamp: int)
    ensures var t := Tx(db, id, op, stamp);
      && (t.rows != db.rows ==>
            && id in db.rows && t.rows.Keys == db.rows.Keys
            && t.rows[id].updatedAt == op.now && t.rows[id].createdAt == db.rows[id].createdAt)
      && (t.events != db.events ==>
            && |t.events| == |db.events| + 1 && t.events[..|db.events|] == db.events
            && Last(t.events).createdAt == stamp && Last(t.events).jobId == id)
  {
  }

  // --------------------------------------------------------- the claim query

  lemma EligibleIffClaimable(db: Db, s: Store, id: string, now: int)
    requires Refines(db, s) && id in s.jobs
    ensures db.rows[id].record == s.jobs[id].record
    ensures Eligible(db.rows[id], now) <==> Claimable(s.jobs[id].record, now)
  {
    assert SameJob(db, id, s.jobs[id]);
  }

  /** The second and third sort key of the claim query. */
  predicate RowBefore(db: Db, a: string, b: string)
    requires a in db.rows && b in db.rows
  {
    || db.rows[a].createdAt < db.rows[b].createdAt
    || (db.rows[a].createdAt == db.rows[b].createdAt && StringBefore(a, b))
  }

  /** The creation columns and ids put `id` before every ready job of the same priority. */
  predicate FirstByColumns(db: Db, s: Store, now: int, id: string)
    requires id in s.jobs
  {
    forall x <- s.jobs | x != id && Claimable(s.jobs[x].record, now)
                         && s.jobs[x].record.priority == s.jobs[id].record.priority ::
      id in db.rows && x in db.rows && RowBefore(db, id, x)
  }

  /** What the in-memory store selects sorts no later than any ready job. */
  lemma SelectedIsFirst(s: Store, now: int, id: string)
    requires WellFormed(s) && SelectNext(s.jobs, s.order, now) == Some(id)
    ensures id in s.jobs && Claimable(s.jobs[id].record, now)
    ensures forall x <- s.jobs | Claimable(s.jobs[x].record, now) :: !Before(s.jobs[x].record, s.jobs[id].record)
  {
    SelectNextExists(s.jobs, s.order, now);
    var k: nat :| k < |s.order| && s.order[k] == id && IsFirst(s.jobs, s.order, now, k);
    forall x <- s.jobs | Claimable(s.jobs[x].record, now)
      ensures !Before(s.jobs[x].record, s.jobs[id].record)
    {
      assert x in s.order;
      var m :| 0 <= m < |s.order| && s.order[m] == x;
    }
  }

  /**
   The claim query returns the job the in-memory store selects exactly when, among the ready jobs of
   that priority, the creation columns and then the ids put it first. Ties and columns that lag
   behind the stored creation time are both covered.
   */
  lemma ClaimQueryAgreesIff(db: Db, s: Store, now: int, id: string)
    requires WellFormed(s) && Refines(db, s) && SelectNext(s.jobs, s.order, now) == Some(id)
    ensures id in s.jobs
    ensures ClaimQueryReturns(db, now, id) <==> FirstByColumns(db, s, now, id)
  {
    SelectedIsFirst(s, now, id);
    forall x <- s.jobs
      ensures x in db.rows && db.rows[x].record == s.jobs[x].record
      ensures Eligible(db.rows[x], now) <==> Claimable(s.jobs[x].record, now)
    {
      EligibleIffClaimable(db, s, x, now);
    }
  }

  /** When no job is selected the query returns no row either. */
  lemma NothingToClaim(db: Db, s: Store, now: int)
    requires WellFormed(s) && Refines(db, s)
    ensures SelectNext(s.jobs, s.order, now).None? <==> forall id <- db.rows :: !Eligible(db.rows[id], now)
  {
    SelectNextExists(s.jobs, s.order, now);
    forall x <- s.jobs
      ensures x in s.order && (Eligible(db.rows[x], now) <==> Claimable(s.jobs[x].record, now))
    {
      EligibleIffClaimable(db, s, x, now);
    }
    assert forall x <- s.order :: x in s.jobs;
    assert forall id <- db.rows :: id in s.jobs;
  }

  lemma OneAnswer(db: Db, now: int, a: string, b: string)
    requires ClaimQueryReturns(db, now, b)
    ensures ClaimQueryReturns(db, now, a) ==> a == b
  {
    StringsCompare(a, b);
  }

  // ------------------------------------------------------ the recovery query

  function TxEach(db: Db, ids: seq<string>, op: Op, stamp: int): Db {
    if ids == [] then db else Tx(TxEach(db, ids[..|ids| - 1], op, stamp), Last(ids), op, stamp)
  }

  lemma NotYetRecovered(s: Store, done: seq<string>, op: Op, id: string)
    requires StoreInv(s) && Distinct(done) && id in s.jobs && id !in done && Agrees(s.jobs[id].record, op)
    ensures id in OnEach(s, done, op).jobs
    ensures var j := OnEach(s, done, op).jobs[id]; JobInv(j) && j.Id() == id && Agrees(j.record, op)
  {
    OnEachAt(s, done, op, id);
  }

  lemma OneMoreRefines(t: Db, s: Store, done: seq<string>, op: Op, id: string, stamp: int)
    requires StoreInv(s) && Distinct(done) && id in s.jobs && id !in done && Agrees(s.jobs[id].record, op)
    requires Refines(t, OnEach(s, done, op))
    ensures Refines(Tx(t, id, op, stamp), OnJob(OnEach(s, done, op), id, op))
  {
    NotYetRecovered(s, done, op, id);
    TxRefines(t, OnEach(s, done, op), id, op, stamp);
  }

  lemma LastIsNew(ids: seq<string>)
    requires Distinct(ids) && ids != []
    ensures Distinct(ids[..|ids| - 1]) && Last(ids) !in ids[..|ids| - 1] && Last(ids) in ids
    ensures forall id <- ids[..|ids| - 1] :: id in ids
  {
  }

  /** Recovering the returned rows one after another refines recovering those jobs. */
  lemma {:induction false} EachRefines(db: Db, s: Store, ids: seq<string>, op: Op, stamp: int)
    requires StoreInv(s) && Refines(db, s) && Distinct(ids)
    requires forall id <- ids :: id in s.jobs && Agrees(s.jobs[id].record, op)
    ensures Refines(TxEach(db, ids, op, stamp), OnEach(s, ids, op))
  {
    if ids != [] {
      var init := ids[..|ids| - 1];
      LastIsNew(ids);
      EachRefines(db, s, init, op, stamp);
      OneMoreRefines(TxEach(db, init, op, stamp), s, init, op, Last(ids), stamp);
    }
  }

  /** A transaction on one row reads and writes no other row. */
  lemma TxOwnRow(db: Db, t: Db, id: string, op: Op, stamp: int, x: string)
    requires id in db.rows && id in t.rows && x in db.rows && db.rows[id] == t.rows[id]
    ensures id in Tx(db, id, op, stamp).rows && id in Tx(t, id, op, stamp).rows
    ensures Tx(db, id, op, stamp).rows[id] == Tx(t, id, op, stamp).rows[id]
    ensures Tx(db, id, op, stamp).rows.Keys == db.rows.Keys
    ensures x != id ==> Tx(db, id, op, stamp).rows[x] == db.rows[x]
  {
  }

  lemma {:induction false} EachOwnRow(db: Db, ids: seq<string>, op: Op, stamp: int, x: string)
    requires Distinct(ids) && x in db.rows && forall id <- ids :: id in db.rows
    ensures TxEach(db, ids, op, stamp).rows.Keys == db.rows.Keys && Tx(db, x, op, stamp).rows.Keys == db.rows.Keys
    ensures TxEach(db, ids, op, stamp).rows[x] == if x in ids then Tx(db, x, op, stamp).rows[x] else db.rows[x]
  {
    TxOwnRow(db, db, x, op, stamp, x);
    if ids != [] {
      var init, last := ids[..|ids| - 1], Last(ids);
      assert ids == init + [last] && forall id <- init :: id in ids;
      EachOwnRow(db, init, op, stamp, x);
      EachOwnRow(db, init, op, stamp, last);
      assert last !in init;
      TxOwnRow(TxEach(db, init, op, stamp), db, last, op, stamp, x);
    }
  }

  const BATCH := 100

  /** The recovery query: distinct stale rows, all of them unless the limit cuts the list. */
  predicate RecoveryQueryReturns(db: Db, now: int, ids: seq<string>) {
    && Distinct(ids) && |ids| <= BATCH
    && (forall id <- ids :: id in db.rows && Stale(db.rows[id].record, now))
    && (|ids| < BATCH ==> forall id <- db.rows | Stale(db.rows[id].record, now) :: id in ids)
  }

  function StaleJobs(s: Store, now: int): set<string> { set id | id in s.jobs && Stale(s.jobs[id].record, now) }

  /** The limit cuts nothing off exactly when at most 100 jobs are stale. */
  lemma RecoveryFindsAllIff(db: Db, s: Store, ids: seq<string>, now: int)
    requires Refines(db, s) && RecoveryQueryReturns(db, now, ids)
    ensures forall id <- ids :: id in StaleJobs(s, now)
    ensures |StaleJobs(s, now)| <= BATCH <==> forall id <- StaleJobs(s, now) :: id in ids
  {
    forall id <- s.jobs
      ensures id in db.rows && db.rows[id].record == s.jobs[id].record
    {
      EligibleIffClaimable(db, s, id, now);
    }
    assert forall id <- ids :: id in s.jobs;
    var found := set id | id in ids;
    DistinctSize(ids);
    assert found <= StaleJobs(s, now);
    if |StaleJobs(s, now)| <= BATCH && |ids| == BATCH {
      SubsetOfSameSize(found, StaleJobs(s, now));
    }
    if forall id <- StaleJobs(s, now) :: id in ids {
      assert StaleJobs(s, now) == found;
    }
  }

  /** At most 100 stale jobs, and no negative delay for one that is to be retried. */
  predicate RecoveryAgrees(s: Store, op: Op)
    requires op.Recover?
  {
    |StaleJobs(s, op.now)| <= BATCH && forall id <- StaleJobs(s, op.now) :: Agrees(s.jobs[id].record, op)
  }

  lemma RecoveringAll(db: Db, s: Store, ids: seq<string>, op: Op, stamp: int)
    requires StoreInv(s) && Refines(db, s) && op.Recover? && RecoveryQueryReturns(db, op.now, ids) && RecoveryAgrees(s, op)
    ensures Refines(TxEach(db, ids, op, stamp), OnAll(s, op))
  {
    RecoveryFindsAllIff(db, s, ids, op.now);
    assert forall id :: id in ids <==> id in StaleJobs(s, op.now);
    EachRefines(db, s, ids, op, stamp);
    OnEachIsOnAll(s, ids, op);
  }

  lemma RecoveringDifferently(db: Db, s: Store, ids: seq<string>, op: Op, stamp: int)
    requires Refines(db, s) && op.Recover? && RecoveryQueryReturns(db, op.now, ids) && !RecoveryAgrees(s, op)
    ensures !Refines(TxEach(db, ids, op, stamp), OnAll(s, op))
  {
    RecoveryFindsAllIff(db, s, ids, op.now);
    assert forall id <- ids :: id in StaleJobs(s, op.now);
    if |StaleJobs(s, op.now)| > BATCH {
      var x :| x in StaleJobs(s, op.now) && x !in ids;
      SkippedStaysStale(db, s, ids, op, stamp, x);
    } else {
      var x :| x in StaleJobs(s, op.now) && !Agrees(s.jobs[x].record, op);
      DelayedDifferently(db, s, ids, op, stamp, x);
    }
  }

  /** One recovery leaves the same jobs in both stores exactly then. */
  lemma RecoveryRefinesIff(db: Db, s: Store, ids: seq<string>, op: Op, stamp: int)
    requires StoreInv(s) && Refines(db, s) && op.Recover? && RecoveryQueryReturns(db, op.now, ids)
    ensures Refines(TxEach(db, ids, op, stamp), OnAll(s, op)) <==> RecoveryAgrees(s, op)
  {
    if RecoveryAgrees(s, op) {
      RecoveringAll(db, s, ids, op, stamp);
    } else {
      RecoveringDifferently(db, s, ids, op, stamp);
    }
  }

  lemma DifferentRecord(t: Db, n: Store, x: string)
    requires x in t.rows && x in n.jobs && t.rows[x].record != n.jobs[x].record
    ensures !Refines(t, n)
  {
    assert !SameJob(t, x, n.jobs[x]);
  }

  lemma RecoveredIsUnleased(r: QueueRecord, op: Op)
    requires op.Recover? && Accepts(r, op)
    ensures NextRecord(r, op) != r
  {
  }

  /** A stale row the query cut off stays as it was, but not its job in memory. */
  lemma SkippedStaysStale(db: Db, s: Store, ids: seq<string>, op: Op, stamp: int, x: string)
    requires Refines(db, s) && op.Recover? && Distinct(ids) && forall id <- ids :: id in s.jobs
    requires x in StaleJobs(s, op.now) && x !in ids
    ensures !Refines(TxEach(db, ids, op, stamp), OnAll(s, op))
  {
    EachOwnRow(db, ids, op, stamp, x);
    EligibleIffClaimable(db, s, x, op.now);
    RecoveredIsUnleased(s.jobs[x].record, op);
    DifferentRecord(TxEach(db, ids, op, stamp), OnAll(s, op), x);
  }

  lemma ClampedDelay(db: Db, r: QueueRecord, x: string, op: Op, stamp: int)
    requires x in db.rows && db.rows[x].record == r && db.rows[x].status == r.state.status
    requires op.Recover? && Accepts(r, op) && !Agrees(r, op)
    ensures x in Tx(db, x, op, stamp).rows && Tx(db, x, op, stamp).rows[x].record != NextRecord(r, op)
  {
    assert Tx(db, x, op, stamp).rows[x].record.nextAttemptAt == Some(op.now);
  }

  lemma DelayedDifferently(db: Db, s: Store, ids: seq<string>, op: Op, stamp: int, x: string)
    requires Refines(db, s) && op.Recover? && Distinct(ids) && forall id <- ids :: id in s.jobs
    requires x in StaleJobs(s, op.now) && x in ids && !Agrees(s.jobs[x].record, op)
    ensures !Refines(TxEach(db, ids, op, stamp), OnAll(s, op))
  {
    EachOwnRow(db, ids, op, stamp, x);
    assert SameJob(db, x, s.jobs[x]);
    ClampedDelay(db, s.jobs[x].record, x, op, stamp);
    DifferentRecord(TxEach(db, ids, op, stamp), OnAll(s, op), x);
  }

  lemma SubsetOfSameSize<T>(a: set<T>, b: set<T>)
    requires a <= b && |a| >= |b|
    ensures a == b
  {
    assert |b - a| == |b| - |a|;
  }

  // ------------------------------------------------------------- whole runs

  // One call on the database: the store action, the rows its query returned (for a claim or a
  // recovery) and the database clock.
  datatype Transaction = Transaction(action: Action, ids: seq<string>, stamp: int)

  /** The returned rows are what the query really returns. */
  predicate Answered(db: Db, t: Transaction) {
    match t.action
    case ClaimNext(_, _, now) =>
      if t.ids == [] then forall id <- db.rows :: !Eligible(db.rows[id], now)
      else |t.ids| == 1 && ClaimQueryReturns(db, now, t.ids[0])
    case RecoverAll(_, now) => RecoveryQueryReturns(db, now, t.ids)
    case _ => t.ids == []
  }

  function TxApply(db: Db, t: Transaction): Db {
    match t.action
    case Enqueue(r, _) => TxEnqueue(db, r, t.stamp)
    case ClaimNext(w, lease, now) => if t.ids == [] then db else Tx(db, t.ids[0], Claim(w, lease, now), t.stamp)
    case RecoverAll(retryAfter, now) => TxEach(db, t.ids, Recover(retryAfter, now), t.stamp)
    case On(id, op) => Tx(db, id, op, t.stamp)
  }

  /** Whether one call does the same in both stores. */
  predicate StepAgrees(db: Db, s: Store, a: Action) {
    match a
    case Enqueue(r, _) => IsNew(s, r) ==> r.state.status.Queued?
    case ClaimNext(_, lease, now) =>
      var next := SelectNext(s.jobs, s.order, now);
      lease > 0 && next.Some? && next.value in s.jobs ==> FirstByColumns(db, s, now, next.value)
    case RecoverAll(retryAfter, now) => RecoveryAgrees(s, Recover(retryAfter, now))
    case On(id, op) => id in s.jobs ==> Agrees(s.jobs[id].record, op)
  }

  lemma OnRefinesIff(db: Db, s: Store, id: string, op: Op, stamp: int)
    requires StoreInv(s) && Refines(db, s)
    ensures Refines(Tx(db, id, op, stamp), OnJob(s, id, op)) <==> (id in s.jobs ==> Agrees(s.jobs[id].record, op))
  {
    if id in s.jobs {
      assert JobInv(s.jobs[id]) && s.jobs[id].Id() == id && SameJob(db, id, s.jobs[id]);
      AgreesExactly(db, s, id, op, stamp);
      OnJobKeys(s, id, op);
      if Agrees(s.jobs[id].record, op) {
        TxRefines(db, s, id, op, stamp);
      } else {
        assert OnJob(s, id, op).jobs[id] == Do(s.jobs[id], op);
      }
    }
  }

  lemma RefusedLease(db: Db, s: Store, id: string, op: Op, stamp: int)
    requires op.Claim? && op.lease <= 0
    ensures Tx(db, id, op, stamp) == db && OnJob(s, id, op) == s
  {
    assert OnJob(s, id, op).jobs == s.jobs;
  }

  /** A claimed row leaves the waiting states, so two stores that claim different jobs differ. */
  lemma SameClaimIff(db: Db, s: Store, id: string, x: string, op: Op, stamp: int)
    requires StoreInv(s) && Refines(db, s) && op.Claim? && op.lease > 0 && ClaimQueryReturns(db, op.now, x)
    ensures Refines(Tx(db, x, op, stamp), OnJob(s, id, op)) <==> x == id
  {
    if x == id {
      OnRefinesIff(db, s, id, op, stamp);
    } else {
      ClaimedElsewhere(db, s, id, x, op, stamp);
    }
  }

  lemma ClaimRefinesIff(db: Db, s: Store, w: string, lease: int, now: int, ids: seq<string>, stamp: int)
    requires StoreInv(s) && Refines(db, s) && Answered(db, Transaction(ClaimNext(w, lease, now), ids, stamp))
    ensures Refines(TxApply(db, Transaction(ClaimNext(w, lease, now), ids, stamp)), Apply(s, ClaimNext(w, lease, now)))
      <==> StepAgrees(db, s, ClaimNext(w, lease, now))
  {
    var next := SelectNext(s.jobs, s.order, now);
    NothingToClaim(db, s, now);
    if next.Some? {
      RefusedOrSame(db, s, next.value, ids[0], Claim(w, lease, now), stamp);
    }
  }

  lemma RefusedOrSame(db: Db, s: Store, id: string, x: string, op: Op, stamp: int)
    requires StoreInv(s) && Refines(db, s) && op.Claim? && ClaimQueryReturns(db, op.now, x)
    requires SelectNext(s.jobs, s.order, op.now) == Some(id)
    ensures id in s.jobs
    ensures Refines(Tx(db, x, op, stamp), OnJob(s, id, op)) <==> (op.lease > 0 ==> FirstByColumns(db, s, op.now, id))
  {
    ClaimQueryAgreesIff(db, s, op.now, id);
    OneAnswer(db, op.now, id, x);
    if op.lease > 0 {
      SameClaimIff(db, s, id, x, op, stamp);
    } else {
      RefusedLease(db, s, x, op, stamp);
      RefusedLease(db, s, id, op, stamp);
    }
  }

  lemma ClaimedElsewhere(db: Db, s: Store, id: string, x: string, op: Op, stamp: int)
    requires Refines(db, s) && x in db.rows && id != x && op.Claim? && op.lease > 0 && Eligible(db.rows[x], op.now)
    ensures !Refines(Tx(db, x, op, stamp), OnJob(s, id, op))
  {
    EligibleIffClaimable(db, s, x, op.now);
    assert Tx(db, x, op, stamp).rows[x].record.state.status == Running;
    DifferentRecord(Tx(db, x, op, stamp), OnJob(s, id, op), x);
  }

  /** One call leaves both stores with the same jobs exactly when it agrees. */
  lemma StepRefinesIff(db: Db, s: Store, t: Transaction)
    requires StoreInv(s) && Refines(db, s) && Answered(db, t)
    ensures Refines(TxApply(db, t), Apply(s, t.action)) <==> StepAgrees(db, s, t.action)
  {
    match t.action
    case Enqueue(r, now) => EnqueueRefinesIff(db, s, r, now, t.stamp);
    case ClaimNext(w, lease, now) => ClaimRefinesIff(db, s, w, lease, now, t.ids, t.stamp);
    case RecoverAll(retryAfter, now) => RecoveryRefinesIff(db, s, t.ids, Recover(retryAfter, now), t.stamp);
    case On(id, op) => OnRefinesIff(db, s, id, op, t.stamp);
  }

  function TxRun(db: Db, ts: seq<Transaction>): Db
    decreases |ts|
  {
    if ts == [] then db else TxRun(TxApply(db, ts[0]), ts[1..])
  }

  function Actions(ts: seq<Transaction>): seq<Action> {
    if ts == [] then [] else [ts[0].action] + Actions(ts[1..])
  }

  predicate AllAnswered(db: Db, ts: seq<Transaction>)
    decreases |ts|
  {
    ts != [] ==> Answered(db, ts[0]) && AllAnswered(TxApply(db, ts[0]), ts[1..])
  }

  predicate AllAgree(db: Db, s: Store, ts: seq<Transaction>)
    decreases |ts|
  {
    ts != [] ==> StepAgrees(db, s, ts[0].action) && AllAgree(TxApply(db, ts[0]), Apply(s, ts[0].action), ts[1..])
  }

  /** The two stores hold the same jobs before, between and after the calls. */
  predicate SameThroughout(db: Db, s: Store, ts: seq<Transaction>)
    decreases |ts|
  {
    Refines(db, s) && (ts != [] ==> SameThroughout(TxApply(db, ts[0]), Apply(s, ts[0].action), ts[1..]))
  }

  /**
   Over whole runs of enqueues, claims, recoveries and single-job calls, whatever the database clock
   stamps, the two stores hold the same jobs throughout exactly when every call agrees.
   */
  lemma {:induction false} RunRefinesIff(db: Db, s: Store, ts: seq<Transaction>)
    requires StoreInv(s) && Refines(db, s) && AllLegal(Actions(ts)) && AllAnswered(db, ts)
    ensures SameThroughout(db, s, ts) <==> AllAgree(db, s, ts)
    ensures AllAgree(db, s, ts) ==> Refines(TxRun(db, ts), Run(s, Actions(ts)))
    decreases |ts|
  {
    if ts != [] {
      var a, rest := ts[0].action, ts[1..];
      assert Actions(ts)[0] == a && Actions(ts)[1..] == Actions(rest);
      assert forall b <- Actions(rest) :: b in Actions(ts);
      ApplyPreserves(s, a);
      StepRefinesIff(db, s, ts[0]);
      if StepAgrees(db, s, a) {
        RunRefinesIff(TxApply(db, ts[0]), Apply(s, a), rest);
      } else {
        assert !SameThroughout(TxApply(db, ts[0]), Apply(s, a), rest);
      }
    }
  }

  const NOTHING := Db(map[], [], [])

  lemma Unrolled(db: Db, s: Store, t: Transaction, rest: seq<Transaction>)
    ensures TxRun(db, [t] + rest) == TxRun(TxApply(db, t), rest)
    ensures Actions([t] + rest) == [t.action] + Actions(rest)
    ensures Run(s, Actions([t] + rest)) == Run(Apply(s, t.action), Actions(rest))
    ensures AllAnswered(db, [t] + rest) <==> Answered(db, t) && AllAnswered(TxApply(db, t), rest)
    ensures AllAgree(db, s, [t] + rest)
      <==> StepAgrees(db, s, t.action) && AllAgree(TxApply(db, t), Apply(s, t.action), rest)
  {
    assert ([t] + rest)[1..] == rest;
    assert ([t.action] + Actions(rest))[1..] == Actions(rest);
  }
}
