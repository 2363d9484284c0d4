/**
 What the operations leave behind: how an attempt ends, for how long a lease or a
 retry delay holds, and that record, attempt ledger and event log tell one story.
 */
module QueueHistory {
  import opened Wrappers
  import opened JobQueue
  import opened QueueInvariants
  import opened QueueTheorems

  // ---------------------------------------------------------------- submission

  /** A submission adds a job exactly when neither its id nor its key is known. Otherwise it writes nothing and is
      answered by the job that has the key, if the request is the same, or refused. */
  lemma EnqueueAnswers(s: Store, r: QueueRecord, now: int)
    requires StoreInv(s)
    ensures Apply(s, Enqueue(r, now)) != s <==> !KeyKnown(s, r) && r.state.jobId !in s.jobs
    ensures EnqueueReply(s, r) == Failure(DuplicateJob) <==> !KeyKnown(s, r) && r.state.jobId in s.jobs
    ensures KeyKnown(s, r) ==> exists id <- s.jobs ::
      && s.jobs[id].record.idempotencyKey == r.idempotencyKey
      && EnqueueReply(s, r) == if s.jobs[id].record.requestHash == r.requestHash then Success(s.jobs[id].record)
                               else Failure(IdempotencyConflict)
  {
    if r.idempotencyKey.Some? && r.idempotencyKey.value in s.index {
      assert s.jobs[s.index[r.idempotencyKey.value]].record.idempotencyKey == r.idempotencyKey;
    }
  }

  predicate KeyKnown(s: Store, r: QueueRecord) {
    r.idempotencyKey.Some? && exists id <- s.jobs :: s.jobs[id].record.idempotencyKey == r.idempotencyKey
  }

  /** What a submission that is taken adds: the record as it is, under its id, last in the order, with an empty ledger. */
  lemma EnqueueAdds(s: Store, r: QueueRecord, now: int)
    requires StoreInv(s) && Apply(s, Enqueue(r, now)) != s
    ensures var t, id := Apply(s, Enqueue(r, now)), r.state.jobId;
      && EnqueueReply(s, r) == Success(r) && t.order == s.order + [id] && t.jobs.Keys == s.jobs.Keys + {id}
      && (forall x <- s.jobs :: t.jobs[x] == s.jobs[x])
      && t.jobs[id].record == r && t.jobs[id].attempts == [] && |t.jobs[id].events| == 1
      && t.jobs[id].events[0] == Event(id, 1, JobQueued, StatusOnly(Queued), now)
  {
  }

  // ------------------------------------------------------- the end of an attempt

  /** The status a closing operation leads to: a requested cancellation wins, and a failure or an expired
      lease is retried while attempts are left. */
  lemma ClosingDecides(j: Job, op: Op)
    requires JobInv(j) && Accepts(j.record, op) && (op.Complete? || op.Fail? || op.Recover?)
    ensures var before, after, more := j.Status(), Do(j, op).Status(), |j.attempts| < j.record.maxAttempts;
      && (after.Cancelled? <==> before.CancelRequested?)
      && (after.Completed? <==> before.Running? && op.Complete?)
      && (after.RetryWait? <==> before.Running? && more && (op.Recover? || (op.Fail? && op.retryable)))
      && (after.Failed? <==> before.Running? && ((op.Recover? && !more) || (op.Fail? && !(op.retryable && more))))
  {
  }

  /**
   A closing operation ends the newest attempt and touches no other: it records when, how and with what
   error and checkpoint the attempt ended, and leaves who ran it and since when.
   */
  lemma ClosingWrites(j: Job, op: Op)
    requires JobInv(j) && Accepts(j.record, op) && (op.Complete? || op.Fail? || op.Recover?)
    ensures var k := Do(j, op);
      && |k.attempts| == |j.attempts| > 0
      && (forall i | 0 <= i < |j.attempts| - 1 :: k.attempts[i] == j.attempts[i])
      && var a, b := Last(j.attempts), Last(k.attempts);
      && (b.jobId, b.number, b.workerId, b.startedAt) == (a.jobId, a.number, a.workerId, a.startedAt)
      && b.completedAt == Some(op.now)
      && (op.Complete? ==> b.error == a.error && b.checkpoint == op.checkpoint)
      && (op.Fail? ==> b.error == Some(op.error) && b.checkpoint == op.checkpoint)
      && (op.Recover? ==> b.error == Some(LeaseExpired(k.Status().RetryWait?)) && b.checkpoint == a.checkpoint)
      && b.status == if op.Recover? then Abandoned else if k.Status().Cancelled? then CancelledRun
                     else if k.Status().Completed? then Succeeded else GaveUp
  {
    ReplaceAt(j.attempts, |j.attempts| - 1, 0, Closing(j.record, op));
  }

  /** The RCA state a closing operation stores: the result, the partial state of a failure, or the one there was. */
  lemma ClosingStores(j: Job, op: Op)
    requires JobInv(j) && Accepts(j.record, op) && (op.Complete? || op.Fail? || op.Recover?)
    ensures var k := Do(j, op);
      var stored := if op.Complete? && k.Status().Completed? then op.state
                    else if op.Fail? && op.partial.Some? then op.partial.value else j.record.state;
      && k.record.state.content == stored.content && k.record.state.createdAt == stored.createdAt
      && k.record.state.jobId == stored.jobId
  {
  }

  /** The one event a closing operation logs: the status it led to, the attempt it ended and, of a failure, why
      and until when it waits. */
  lemma ClosingLogs(j: Job, op: Op)
    requires JobInv(j) && Accepts(j.record, op) && (op.Complete? || op.Fail? || op.Recover?)
    ensures var k := Do(j, op);
      && |k.events| == |j.events| + 1 && k.events[..|j.events|] == j.events
      && var e := Last(k.events);
      && e.jobId == j.Id() && e.sequence == |j.events| + 1 && e.createdAt == op.now
      && e.payload == if op.Fail?
                      then AttemptFailure(k.Status(), |j.attempts|, op.retryable, k.record.nextAttemptAt, op.error)
                      else StatusOfAttempt(k.Status(), |j.attempts|)
  {
  }

  /** A report adds its event to the log and changes nothing else. */
  lemma ReportAppends(j: Job, op: Op)
    requires JobInv(j) && op.Progress? && Accepts(j.record, op)
    ensures var k := Do(j, op);
      && k.record == j.record && k.attempts == j.attempts
      && k.events == j.events + [Event(j.Id(), |j.events| + 1, Workflow(op.name), Facts(op.body), op.now)]
  {
  }

  /** A cancellation is refused on terminal jobs only; it ends a waiting job and asks a leased one to end. */
  lemma CancelDecides(j: Job, op: Op)
    requires JobInv(j) && op.Cancel?
    ensures Accepts(j.record, op) <==> !Terminal(j.Status())
    ensures Accepts(j.record, op) ==>
      var k := Do(j, op);
      && (k.Status().Cancelled? <==> j.attempts == [] || !Last(j.attempts).status.InProgress?)
      && (k.Status().CancelRequested? <==> !k.Status().Cancelled?)
      && k.record.cancelRequestedAt == Some(op.now) && k.attempts == j.attempts && k.record.error == j.record.error
  {
  }

  // ------------------------------------------------------------------- windows

  /** A claim or a heartbeat gives its worker exactly `lease` ticks: till then it alone can commit, and from
      then on the job is stale. */
  lemma LeaseWindow(j: Job, op: Op)
    requires JobInv(j) && Accepts(j.record, op) && (op.Claim? || op.Heartbeat?)
    ensures var r := Do(j, op).record;
      && (forall c: Op | c.Complete? || c.Fail? :: Accepts(r, c) <==> c.worker == op.worker && c.now < op.now + op.lease)
      && (forall t :: Stale(r, t) <==> op.now + op.lease <= t)
      && r.heartbeatAt == Some(op.now) && op.lease > 0
  {
  }

  /** A retried job can be claimed exactly from its delay on, which a failure never makes negative. */
  lemma RetryWindow(j: Job, op: Op)
    requires JobInv(j) && Accepts(j.record, op) && (op.Fail? || op.Recover?) && Do(j, op).Status().RetryWait?
    ensures var delay := if op.Fail? && op.retryAfter < 0 then 0 else op.retryAfter;
      forall t :: Claimable(Do(j, op).record, t) <==> op.now + delay <= t
  {
  }

  /** A recovery leaves no stale job behind, and does nothing to any other job. */
  lemma RecoveryLeavesNoneStale(s: Store, retryAfter: int, now: int, id: string)
    requires StoreInv(s) && id in s.jobs
    ensures var t := Apply(s, RecoverAll(retryAfter, now));
      && id in t.jobs && !Stale(t.jobs[id].record, now)
      && (t.jobs[id] != s.jobs[id] <==> Stale(s.jobs[id].record, now))
  {
    assert JobInv(s.jobs[id]);
  }

  ghost predicate Begins(name: string, prefix: string) { exists rest :: name == prefix + rest }

  lemma BeginsIff(name: string, prefix: string)
    ensures Begins(name, prefix) <==> prefix <= name
  {
    if prefix <= name {
      assert name == prefix + name[|prefix|..];
    }
  }

  /** A worker can report under names of four families only, so never under one of the queue's own. */
  lemma ReportedNames(name: string)
    ensures PublicEventName(name) <==>
      || Begins(name, "investigation_") || Begins(name, "planner_") || Begins(name, "action_") || Begins(name, "agent_")
    ensures Begins(name, "job_") ==> !PublicEventName(name)
  {
    BeginsIff(name, "investigation_");
    BeginsIff(name, "planner_");
    BeginsIff(name, "action_");
    BeginsIff(name, "agent_");
    BeginsIff(name, "job_");
    assert "job_" <= name ==> name[0] == 'j';
  }

  /** The store calls that write the record, each of which moves its version by one. */
  function Writes(j: Job, ops: seq<Op>): nat
    decreases |ops|
  {
    if ops == [] then 0
    else Writes(Do(j, ops[0]), ops[1..]) + if Accepts(j.record, ops[0]) && !ops[0].Progress? then 1 else 0
  }

  lemma {:induction false} VersionCountsWrites(j: Job, ops: seq<Op>)
    ensures DoAll(j, ops).record.version == j.record.version + Writes(j, ops)
    ensures Writes(j, ops) == 0 ==> DoAll(j, ops).record == j.record
    decreases |ops|
  {
    if ops != [] {
      VersionCountsWrites(Do(j, ops[0]), ops[1..]);
    }
  }

  // --------------------------------------------------- record, ledger and log agree

  /** Each type of event reports its own statuses. */
  predicate TypeFits(e: Event) {
    match e.eventType
    case JobQueued => e.payload == StatusOnly(Queued)
    case JobStarted => e.payload.StatusOfAttempt? && e.payload.status.Running?
    case JobCompleted => e.payload.StatusOfAttempt? && e.payload.status.Completed?
    case JobCancelled => !e.payload.Facts? && e.payload.status.Cancelled?
    case JobFailed => e.payload.AttemptFailure? && e.payload.status.Failed?
    case JobRetryScheduled => e.payload.AttemptFailure? && e.payload.status.RetryWait? && e.payload.retryable
    case JobCancelRequested => e.payload == StatusOnly(CancelRequested)
    case JobLeaseRecovered => e.payload.StatusOfAttempt? && (e.payload.status.RetryWait? || e.payload.status.Failed?)
    case Workflow(name) => e.payload.Facts? && PublicEventName(name)
  }

  /** An event that names an attempt was logged as that attempt started or ended, and knows its error. */
  predicate Attributed(e: Event, attempts: seq<Attempt>) {
    match e.payload
    case StatusOfAttempt(_, n) =>
      1 <= n <= |attempts|
      && if e.eventType.JobStarted? then attempts[n - 1].startedAt == e.createdAt
         else attempts[n - 1].completedAt == Some(e.createdAt)
    case AttemptFailure(_, n, _, _, error) =>
      1 <= n <= |attempts| && attempts[n - 1].completedAt == Some(e.createdAt) && attempts[n - 1].error == Some(error)
    case _ => true
  }

  predicate LogTells(events: seq<Event>, attempts: seq<Attempt>) {
    forall e <- events :: TypeFits(e) && Attributed(e, attempts)
  }

  /** How one attempt may look, running, or ended with others after it or as the last one. */
  predicate AttemptTells(a: Attempt, last: bool) {
    match a.status
    case InProgress => last && a.completedAt.None? && a.error.None? && a.checkpoint.None?
    case Succeeded => last && a.completedAt.Some? && a.error.None?
    case CancelledRun => last && a.completedAt.Some?
    case GaveUp => a.completedAt.Some? && a.error.Some?
    case Abandoned => a.completedAt.Some? && a.error.Some? && a.error.value.LeaseExpired? && a.checkpoint.None?
  }

  predicate AttemptsTell(attempts: seq<Attempt>) {
    forall i | 0 <= i < |attempts| :: AttemptTells(attempts[i], i == |attempts| - 1)
  }

  /** The checkpoint of the last attempt whose worker could still commit one. */
  function LastCheckpoint(attempts: seq<Attempt>): Option<Option<string>> {
    if attempts == [] then None
    else if Last(attempts).status.InProgress? || Last(attempts).status.Abandoned?
    then LastCheckpoint(attempts[..|attempts| - 1])
    else Some(Last(attempts).checkpoint)
  }

  predicate CheckpointTells(checkpoint: Option<string>, attempts: seq<Attempt>) {
    LastCheckpoint(attempts).Some? ==> checkpoint == LastCheckpoint(attempts).value
  }

  /** What the record repeats of the last event. */
  predicate RecordFitsLog(r: QueueRecord, e: Event) {
    && (Terminal(r.state.status) ==> r.completedAt == Some(e.createdAt))
    && (r.state.status.RetryWait? && e.payload.AttemptFailure? ==> r.nextAttemptAt == e.payload.nextAttemptAt)
  }

  /** What the record repeats of the first and the last attempt. */
  predicate RecordFitsLedger(r: QueueRecord, first: Attempt, a: Attempt) {
    var st := r.state.status;
    && r.startedAt == Some(first.startedAt) && r.error == a.error
    && (st.Completed? <==> a.status.Succeeded?)
    && (st.Completed? || st.Failed? ==> r.completedAt == a.completedAt)
    && (st.Failed? || st.RetryWait? ==> a.status.GaveUp? || a.status.Abandoned?)
    && (a.status.CancelledRun? ==> st.Cancelled? && r.completedAt == a.completedAt)
  }

  predicate RecordTells(j: Job)
    requires j.events != []
  {
    && CheckpointTells(j.record.checkpoint, j.attempts)
    && RecordFitsLog(j.record, Last(j.events))
    && (j.attempts != [] ==> RecordFitsLedger(j.record, j.attempts[0], Last(j.attempts)))
  }

  /** Starts and ends of the attempts as a reader of the log sees them. */
  function Spans(events: seq<Event>): seq<(int, Option<int>)> {
    if events == [] then []
    else
      var before, e := Spans(events[..|events| - 1]), Last(events);
      if e.eventType.JobStarted? then before + [(e.createdAt, None)]
      else if before != [] && Last(before).1.None? && !e.payload.Facts? && !Leased(e.payload.status)
      then before[|before| - 1 := (Last(before).0, Some(e.createdAt))]
      else before
  }

  function SpansOf(attempts: seq<Attempt>): seq<(int, Option<int>)> {
    seq(|attempts|, i requires 0 <= i < |attempts| => (attempts[i].startedAt, attempts[i].completedAt))
  }

  /** One story: the record repeats the ledger, and the log alone gives every attempt's start and end. */
  predicate Tells(j: Job) {
    && j.events != [] && LogTells(j.events, j.attempts) && AttemptsTell(j.attempts) && RecordTells(j)
    && Spans(j.events) == SpansOf(j.attempts)
  }

  // ------------------------------------------------------------------- one step

  lemma AttributedKept(e: Event, before: seq<Attempt>, after: seq<Attempt>)
    requires Attributed(e, before) && AttemptsTell(before) && AttemptsEvolve(before, after)
    ensures Attributed(e, after)
  {
  }

  lemma LogTellsStep(j: Job, op: Op)
    requires JobInv(j) && LogTells(j.events, j.attempts) && AttemptsTell(j.attempts) && Accepts(j.record, op)
    ensures LogTells(Do(j, op).events, Do(j, op).attempts)
  {
    var k := Do(j, op);
    AttemptsStep(j.record, j.attempts, op);
    forall e | e in j.events
      ensures TypeFits(e) && Attributed(e, k.attempts)
    {
      AttributedKept(e, j.attempts, k.attempts);
    }
    if Logged(j.record, op).Some? {
      assert k.events == j.events + [Last(k.events)];
      NewEventTells(j, op);
    }
  }

  lemma NewEventTells(j: Job, op: Op)
    requires JobInv(j) && Accepts(j.record, op) && Logged(j.record, op).Some?
    ensures Do(j, op).events != []
    ensures TypeFits(Last(Do(j, op).events)) && Attributed(Last(Do(j, op).events), Do(j, op).attempts)
  {
    if op.Complete? || op.Fail? || op.Recover? {
      ClosingWrites(j, op);
    }
  }

  lemma AttemptsTellStep(j: Job, op: Op)
    requires JobInv(j) && AttemptsTell(j.attempts) && RecordInv(j.record) && Accepts(j.record, op)
    requires j.attempts != [] && Waiting(j.Status()) ==>
      Last(j.attempts).status.GaveUp? || Last(j.attempts).status.Abandoned?
    ensures AttemptsTell(Do(j, op).attempts)
  {
    if op.Complete? || op.Fail? || op.Recover? {
      ClosingWrites(j, op);
    }
  }

  lemma CheckpointStep(attempts: seq<Attempt>, a: Attempt)
    ensures LastCheckpoint(attempts + [a])
      == if a.status.InProgress? || a.status.Abandoned? then LastCheckpoint(attempts) else Some(a.checkpoint)
  {
    assert (attempts + [a])[..|attempts|] == attempts;
  }

  lemma CheckpointTellsStep(j: Job, op: Op)
    requires JobInv(j) && CheckpointTells(j.record.checkpoint, j.attempts) && AttemptsTell(j.attempts)
    requires Accepts(j.record, op)
    ensures CheckpointTells(Do(j, op).record.checkpoint, Do(j, op).attempts)
  {
    var k := Do(j, op);
    if op.Complete? || op.Fail? || op.Recover? {
      ClosingWrites(j, op);
      ClosedCheckpoint(j.attempts, k.attempts);
    } else if op.Claim? {
      assert k.attempts == j.attempts + [Last(k.attempts)];
      CheckpointStep(j.attempts, Last(k.attempts));
    }
  }

  /** Closing the running attempt adds its checkpoint, unless it was abandoned. */
  lemma ClosedCheckpoint(before: seq<Attempt>, after: seq<Attempt>)
    requires |before| == |after| > 0 && Last(before).status.InProgress? && !Last(after).status.InProgress?
    requires forall i | 0 <= i < |before| - 1 :: after[i] == before[i]
    ensures LastCheckpoint(after)
      == if Last(after).status.Abandoned? then LastCheckpoint(before) else Some(Last(after).checkpoint)
  {
    var init := before[..|before| - 1];
    assert before == init + [Last(before)] && after == init + [Last(after)];
    CheckpointStep(init, Last(before));
    CheckpointStep(init, Last(after));
  }

  lemma RecordFitsLogStep(j: Job, op: Op)
    requires JobInv(j) && RecordFitsLog(j.record, Last(j.events)) && Accepts(j.record, op)
    ensures Do(j, op).events != [] && RecordFitsLog(Do(j, op).record, Last(Do(j, op).events))
  {
  }

  lemma RecordFitsLedgerStep(j: Job, op: Op)
    requires JobInv(j) && AttemptsTell(j.attempts) && Accepts(j.record, op)
    requires j.attempts != [] ==> RecordFitsLedger(j.record, j.attempts[0], Last(j.attempts))
    ensures var k := Do(j, op);
      k.attempts != [] ==> RecordFitsLedger(k.record, k.attempts[0], Last(k.attempts))
  {
    if op.Complete? || op.Fail? || op.Recover? {
      ClosingWrites(j, op);
    }
  }

  lemma RecordTellsStep(j: Job, op: Op)
    requires JobInv(j) && Tells(j) && Accepts(j.record, op)
    ensures Do(j, op).events != [] && RecordTells(Do(j, op))
  {
    CheckpointTellsStep(j, op);
    RecordFitsLogStep(j, op);
    RecordFitsLedgerStep(j, op);
  }

  lemma SpansAppend(events: seq<Event>, e: Event)
    ensures var before := Spans(events);
      Spans(events + [e]) ==
        if e.eventType.JobStarted? then before + [(e.createdAt, None)]
        else if before != [] && Last(before).1.None? && !e.payload.Facts? && !Leased(e.payload.status)
        then before[|before| - 1 := (Last(before).0, Some(e.createdAt))]
        else before
  {
    assert (events + [e])[..|events|] == events;
  }

  /** Closing the running attempt closes the open span, and nothing else does. */
  lemma SpansClosed(before: seq<Attempt>, after: seq<Attempt>, spans: seq<(int, Option<int>)>, now: int)
    requires |before| == |after| > 0 && spans == SpansOf(before)
    requires forall i | 0 <= i < |before| - 1 :: after[i] == before[i]
    requires Last(after).startedAt == Last(before).startedAt && Last(after).completedAt == Some(now)
    ensures SpansOf(after) == spans[|spans| - 1 := (Last(spans).0, Some(now))]
  {
  }

  /** The event that ends an attempt. */
  lemma ClosingEvent(j: Job, op: Op)
    requires Accepts(j.record, op) && (op.Complete? || op.Fail? || op.Recover?)
    ensures var k := Do(j, op);
      && k.events != [] && k.events == j.events + [Last(k.events)]
      && var e := Last(k.events);
      && e.createdAt == op.now && !e.eventType.JobStarted? && !e.payload.Facts? && !Leased(e.payload.status)
  {
  }

  lemma ClosingSpans(j: Job, op: Op)
    requires JobInv(j) && Tells(j) && Accepts(j.record, op) && (op.Complete? || op.Fail? || op.Recover?)
    ensures Spans(Do(j, op).events) == SpansOf(Do(j, op).attempts)
  {
    var k := Do(j, op);
    ClosingEvent(j, op);
    ClosingWrites(j, op);
    SpansEnd(j, k.attempts, Last(k.events));
  }

  lemma SpansEnd(j: Job, after: seq<Attempt>, e: Event)
    requires |after| == |j.attempts| > 0 && Spans(j.events) == SpansOf(j.attempts) && Last(j.attempts).completedAt.None?
    requires forall i | 0 <= i < |after| - 1 :: after[i] == j.attempts[i]
    requires Last(after).startedAt == Last(j.attempts).startedAt && Last(after).completedAt == Some(e.createdAt)
    requires !e.eventType.JobStarted? && !e.payload.Facts? && !Leased(e.payload.status)
    ensures Spans(j.events + [e]) == SpansOf(after)
  {
    SpansAppend(j.events, e);
    SpansClosed(j.attempts, after, Spans(j.events), e.createdAt);
  }

  lemma OtherSpans(j: Job, op: Op)
    requires JobInv(j) && Tells(j) && Accepts(j.record, op) && !(op.Complete? || op.Fail? || op.Recover?)
    ensures Spans(Do(j, op).events) == SpansOf(Do(j, op).attempts)
  {
    var k := Do(j, op);
    if Logged(j.record, op).Some? {
      SpansAppend(j.events, Last(k.events));
    }
    if op.Claim? {
      assert SpansOf(k.attempts) == SpansOf(j.attempts) + [(op.now, None)];
    }
  }

  lemma SpansStep(j: Job, op: Op)
    requires JobInv(j) && Tells(j) && Accepts(j.record, op)
    ensures Spans(Do(j, op).events) == SpansOf(Do(j, op).attempts)
  {
    if op.Complete? || op.Fail? || op.Recover? {
      ClosingSpans(j, op);
    } else {
      OtherSpans(j, op);
    }
  }

  lemma StepTells(j: Job, op: Op)
    requires JobInv(j) && Tells(j)
    ensures Tells(Do(j, op))
  {
    if Accepts(j.record, op) {
      LogTellsStep(j, op);
      AttemptsTellStep(j, op);
      RecordTellsStep(j, op);
      SpansStep(j, op);
    }
  }

  lemma FreshTells(r: QueueRecord, now: int)
    requires Fresh(r)
    ensures Tells(EnqueuedJob(r, now))
  {
    SpansAppend([], EnqueuedJob(r, now).events[0]);
    assert EnqueuedJob(r, now).events == [] + [EnqueuedJob(r, now).events[0]];
  }

  // --------------------------------------------------------------- whole runs

  predicate AllTell(s: Store) { forall id <- s.jobs :: Tells(s.jobs[id]) }

  lemma ApplyTells(s: Store, a: Action)
    requires StoreInv(s) && AllTell(s) && Legal(a)
    ensures AllTell(Apply(s, a))
  {
    forall id | id in Apply(s, a).jobs
      ensures Tells(Apply(s, a).jobs[id])
    {
      if id in s.jobs {
        ApplyOnJob(s, a, id);
        if LocalOp(s, a, id).Some? {
          StepTells(s.jobs[id], LocalOp(s, a, id).value);
        }
      } else {
        FreshTells(a.record, a.now);
      }
    }
  }

  lemma {:induction false} RunTells(s: Store, actions: seq<Action>)
    requires StoreInv(s) && AllTell(s) && AllLegal(actions)
    ensures AllTell(Run(s, actions))
    decreases |actions|
  {
    if actions != [] {
      assert actions[0] in actions && forall a <- actions[1..] :: a in actions;
      ApplyPreserves(s, actions[0]);
      ApplyTells(s, actions[0]);
      RunTells(Apply(s, actions[0]), actions[1..]);
    }
  }

  /** In every reachable state the record, the ledger and the log of a job tell one story. */
  lemma HistoryAgrees(actions: seq<Action>, id: string)
    requires AllLegal(actions) && id in Run(EMPTY, actions).jobs
    ensures Tells(Run(EMPTY, actions).jobs[id])
  {
    RunTells(EMPTY, actions);
  }
}
