/**
 The leased job queue, as one specification.

 A job is its queue record, its attempt ledger and its event log.  Every
 mutation the store offers on a single job is an `Op`; `Accepts` says when the
 store performs it and `Do` what it then writes.  A store is a map of jobs with
 the insertion order of its dictionary and an idempotency index; `Apply` runs
 one `Action`, and `Run` runs any interleaving of them.

 Times are integer ticks of one clock, and every step receives its own `now`:
 nothing here assumes that successive steps see increasing times.
 */
module JobQueue {
  import opened Wrappers

  datatype Status =
    | Queued | Pending | Running | RetryWait | CancelRequested
    | Completed | Failed | Cancelled | Skipped

  predicate Terminal(s: Status) { s.Completed? || s.Failed? || s.Cancelled? }
  predicate Leased(s: Status) { s.Running? || s.CancelRequested? }
  predicate Waiting(s: Status) { s.Queued? || s.RetryWait? }

  /** The transition table of the job lifecycle. */
  function AllowedNext(s: Status): set<Status> {
    match s
    case Queued => {Running, Cancelled}
    case Running => {Completed, Failed, RetryWait, CancelRequested}
    case RetryWait => {Running, Cancelled}
    case CancelRequested => {Cancelled}
    case Pending => {Queued, Running, Cancelled}
    case Skipped | Completed | Failed | Cancelled => {}
  }

  predicate ValidTransition(current: Status, next: Status) {
    current == next || next in AllowedNext(current)
  }

  // `content` stands for the whole RCA state apart from what the queue reads.
  datatype RCAState = RCAState(jobId: string, createdAt: int, status: Status, content: string)

  datatype Error = WorkerError(body: string) | LeaseExpired(retryable: bool)

  datatype QueueRecord = QueueRecord(
    state: RCAState,
    request: string,
    requestHash: string,
    idempotencyKey: Option<string>,
    runtimeConfig: string,
    priority: nat,
    attemptCount: nat,
    maxAttempts: nat,
    nextAttemptAt: Option<int>,
    leaseOwner: Option<string>,
    leaseExpiresAt: Option<int>,
    heartbeatAt: Option<int>,
    cancelRequestedAt: Option<int>,
    startedAt: Option<int>,
    completedAt: Option<int>,
    error: Option<Error>,
    checkpoint: Option<string>,
    version: nat)

  datatype AttemptStatus = InProgress | Succeeded | GaveUp | CancelledRun | Abandoned

  datatype Attempt = Attempt(
    jobId: string,
    number: nat,
    workerId: string,
    status: AttemptStatus,
    startedAt: int,
    completedAt: Option<int>,
    error: Option<Error>,
    checkpoint: Option<string>)

  datatype EventType =
    | JobQueued | JobStarted | JobCompleted | JobCancelled | JobFailed
    | JobRetryScheduled | JobCancelRequested | JobLeaseRecovered
    | Workflow(name: string)

  datatype Payload =
    | StatusOnly(status: Status)
    | StatusOfAttempt(status: Status, attemptNumber: nat)
    | AttemptFailure(status: Status, attemptNumber: nat, retryable: bool,
                     nextAttemptAt: Option<int>, error: Error)
    | Facts(body: string)

  datatype Event = Event(jobId: string, sequence: nat, eventType: EventType, payload: Payload, createdAt: int)

  datatype Job = Job(record: QueueRecord, attempts: seq<Attempt>, events: seq<Event>)
  {
    function Status(): Status { record.state.status }
    function Id(): string { record.state.jobId }
  }

  // ---------------------------------------------------------------- ledgers

  function Appended(events: seq<Event>, jobId: string, t: EventType, p: Payload, now: int): seq<Event> {
    events + [Event(jobId, |events| + 1, t, p, now)]
  }

  // The fields of one attempt a step overwrites; None leaves a field alone.
  datatype Amendment = Amendment(
    status: AttemptStatus,
    completedAt: int,
    error: Option<Option<Error>>,
    checkpoint: Option<Option<string>>)

  function Amend(a: Attempt, u: Amendment): Attempt {
    a.(status := u.status,
       completedAt := Some(u.completedAt),
       error := if u.error.Some? then u.error.value else a.error,
       checkpoint := if u.checkpoint.Some? then u.checkpoint.value else a.checkpoint)
  }

  /** The first attempt with that number is amended; without one nothing changes. */
  function ReplaceAttempt(attempts: seq<Attempt>, number: nat, u: Amendment): seq<Attempt> {
    if attempts == [] then []
    else if attempts[0].number == number then [Amend(attempts[0], u)] + attempts[1..]
    else [attempts[0]] + ReplaceAttempt(attempts[1..], number, u)
  }

  // ------------------------------------------------------------- operations

  datatype Op =
    | Claim(worker: string, lease: int, now: int)
    | Heartbeat(worker: string, lease: int, now: int)
    | Complete(worker: string, state: RCAState, checkpoint: Option<string>, now: int)
    | Fail(worker: string, error: Error, retryable: bool, retryAfter: int,
           partial: Option<RCAState>, checkpoint: Option<string>, now: int)
    | Cancel(now: int)
    | Recover(retryAfter: int, now: int)
    | Progress(worker: string, name: string, body: string, now: int)

  predicate OwnsActiveLease(r: QueueRecord, worker: string, now: int) {
    r.leaseOwner == Some(worker) && r.leaseExpiresAt.Some? && r.leaseExpiresAt.value > now
  }

  predicate Claimable(r: QueueRecord, now: int) {
    Waiting(r.state.status) && (r.nextAttemptAt.Some? ==> r.nextAttemptAt.value <= now)
  }

  predicate Stale(r: QueueRecord, now: int) {
    Leased(r.state.status) && r.leaseExpiresAt.Some? && r.leaseExpiresAt.value <= now
  }

  predicate PublicEventName(name: string) {
    "investigation_" <= name || "planner_" <= name || "action_" <= name || "agent_" <= name
  }

  /** Whether the store performs the operation; otherwise it raises or returns nothing. */
  predicate Accepts(r: QueueRecord, op: Op) {
    match op
    case Claim(_, lease, now) => lease > 0 && Claimable(r, now)
    case Heartbeat(w, lease, now) => lease > 0 && Leased(r.state.status) && OwnsActiveLease(r, w, now)
    case Complete(w, _, _, now) => OwnsActiveLease(r, w, now) && Leased(r.state.status)
    case Fail(w, _, _, _, _, _, now) => OwnsActiveLease(r, w, now)
    case Cancel(_) => Waiting(r.state.status) || Leased(r.state.status)
    case Recover(_, now) => Stale(r, now)
    case Progress(w, name, _, now) =>
      PublicEventName(name) && OwnsActiveLease(r, w, now) && Leased(r.state.status)
  }

  function WithStatus(s: RCAState, status: Status): RCAState { s.(status := status) }

  function CompletedStatus(r: QueueRecord): Status {
    if r.state.status.CancelRequested? then Cancelled else Completed
  }

  function FailedStatus(r: QueueRecord, retryable: bool): Status {
    if r.state.status.CancelRequested? then Cancelled
    else if retryable && r.attemptCount < r.maxAttempts then RetryWait
    else Failed
  }

  function CancelledStatus(r: QueueRecord): Status {
    if Waiting(r.state.status) then Cancelled else CancelRequested
  }

  function Unleased(r: QueueRecord): QueueRecord {
    r.(leaseOwner := None, leaseExpiresAt := None, heartbeatAt := None)
  }

  /** The record written by an accepted operation. */
  function NextRecord(r: QueueRecord, op: Op): QueueRecord
    requires Accepts(r, op)
  {
    match op
    case Claim(w, lease, now) =>
      r.(state := WithStatus(r.state, Running), attemptCount := r.attemptCount + 1,
         nextAttemptAt := None, leaseOwner := Some(w), leaseExpiresAt := Some(now + lease),
         heartbeatAt := Some(now), startedAt := if r.startedAt.Some? then r.startedAt else Some(now),
         error := None, version := r.version + 1)
    case Heartbeat(_, lease, now) =>
      r.(heartbeatAt := Some(now), leaseExpiresAt := Some(now + lease), version := r.version + 1)
    case Complete(_, state, checkpoint, now) =>
      var final := if r.state.status.CancelRequested? then r.state else state;
      Unleased(r).(state := WithStatus(final, CompletedStatus(r)), completedAt := Some(now),
                   checkpoint := checkpoint, error := None, version := r.version + 1)
    case Fail(_, error, retryable, retryAfter, partial, checkpoint, now) =>
      var next := FailedStatus(r, retryable);
      var base := if partial.Some? then partial.value else r.state;
      Unleased(r).(state := WithStatus(base, next),
                   nextAttemptAt := if next.RetryWait? then Some(now + Max(0, retryAfter)) else None,
                   completedAt := if Terminal(next) then Some(now) else None,
                   error := Some(error), checkpoint := checkpoint, version := r.version + 1)
    case Cancel(now) =>
      var immediate := Waiting(r.state.status);
      r.(state := WithStatus(r.state, CancelledStatus(r)), cancelRequestedAt := Some(now),
         completedAt := if immediate then Some(now) else r.completedAt,
         nextAttemptAt := if immediate then None else r.nextAttemptAt,
         version := r.version + 1)
    case Recover(retryAfter, now) =>
      var next := FailedStatus(r, true);
      Unleased(r).(state := WithStatus(r.state, next),
                   nextAttemptAt := if next.RetryWait? then Some(now + retryAfter) else None,
                   completedAt := if Terminal(next) then Some(now) else None,
                   error := Some(LeaseExpired(next.RetryWait?)), version := r.version + 1)
    case Progress(_, _, _, _) => r
  }

  predicate Closes(op: Op) { op.Complete? || op.Fail? || op.Recover? }

  /** How an accepted closing operation amends the current attempt. */
  function Closing(r: QueueRecord, op: Op): Amendment
    requires Closes(op)
  {
    match op
    case Complete(_, _, checkpoint, now) =>
      Amendment(if CompletedStatus(r).Cancelled? then CancelledRun else Succeeded, now, None, Some(checkpoint))
    case Fail(_, error, retryable, _, _, checkpoint, now) =>
      Amendment(if FailedStatus(r, retryable).Cancelled? then CancelledRun else GaveUp, now,
                Some(Some(error)), Some(checkpoint))
    case Recover(_, now) =>
      Amendment(Abandoned, now, Some(Some(LeaseExpired(FailedStatus(r, true).RetryWait?))), None)
  }

  /** The attempt ledger after an accepted operation on a job with record `r`. */
  function NextAttempts(r: QueueRecord, attempts: seq<Attempt>, op: Op): seq<Attempt> {
    if Closes(op) then ReplaceAttempt(attempts, r.attemptCount, Closing(r, op))
    else if op.Claim? then
      attempts + [Attempt(r.state.jobId, r.attemptCount + 1, op.worker, InProgress, op.now, None, None, None)]
    else attempts
  }

  /** The event an accepted operation logs, if it logs one. */
  function Logged(r: QueueRecord, op: Op): Option<(EventType, Payload)>
    requires Accepts(r, op)
  {
    match op
    case Claim(_, _, _) => Some((JobStarted, StatusOfAttempt(Running, r.attemptCount + 1)))
    case Heartbeat(_, _, _) => None
    case Complete(_, _, _, _) =>
      var final := CompletedStatus(r);
      Some((if final.Cancelled? then JobCancelled else JobCompleted, StatusOfAttempt(final, r.attemptCount)))
    case Fail(_, error, retryable, _, _, _, _) =>
      var next := FailedStatus(r, retryable);
      Some((if next.RetryWait? then JobRetryScheduled else if next.Cancelled? then JobCancelled else JobFailed,
            AttemptFailure(next, r.attemptCount, retryable, NextRecord(r, op).nextAttemptAt, error)))
    case Cancel(_) =>
      Some((if Waiting(r.state.status) then JobCancelled else JobCancelRequested, StatusOnly(CancelledStatus(r))))
    case Recover(_, _) =>
      var next := FailedStatus(r, true);
      Some((if next.Cancelled? then JobCancelled else JobLeaseRecovered, StatusOfAttempt(next, r.attemptCount)))
    case Progress(_, name, body, _) => Some((Workflow(name), Facts(body)))
  }

  function NextEvents(r: QueueRecord, events: seq<Event>, op: Op): seq<Event>
    requires Accepts(r, op)
  {
    match Logged(r, op)
    case None => events
    case Some((t, p)) => Appended(events, r.state.jobId, t, p, op.now)
  }

  /** One operation on one job; a refused operation writes nothing. */
  function Do(j: Job, op: Op): Job {
    if Accepts(j.record, op)
    then Job(NextRecord(j.record, op), NextAttempts(j.record, j.attempts, op), NextEvents(j.record, j.events, op))
    else j
  }

  // A supplied state must describe the job it is committed to: the store does not check it.
  predicate Carries(op: Op, jobId: string) {
    && (op.Complete? ==> op.state.jobId == jobId)
    && (op.Fail? && op.partial.Some? ==> op.partial.value.jobId == jobId)
  }

  // ------------------------------------------------------------------ store

  datatype Store = Store(jobs: map<string, Job>, order: seq<string>, index: map<string, string>)

  predicate WellFormed(s: Store) {
    && (forall id <- s.order :: id in s.jobs)
    && (forall id <- s.jobs :: id in s.order && s.jobs[id].Id() == id)
    && (forall k <- s.index :: s.index[k] in s.jobs)
  }

  const EMPTY := Store(map[], [], map[])

  /** Sort key (-priority, created_at): strictly earlier. */
  predicate Before(a: QueueRecord, b: QueueRecord) {
    a.priority > b.priority || (a.priority == b.priority && a.state.createdAt < b.state.createdAt)
  }

  /** The first job, in insertion order, that sorts no later than any other claimable one. */
  function SelectNext(jobs: map<string, Job>, order: seq<string>, now: int): Option<string> {
    if order == [] then None
    else
      var best := SelectNext(jobs, order[..|order| - 1], now);
      var id := order[|order| - 1];
      if id !in jobs || !Claimable(jobs[id].record, now) then best
      else if best.Some? && best.value in jobs && !Before(jobs[id].record, jobs[best.value].record) then best
      else Some(id)
  }

  function EnqueuedJob(r: QueueRecord, now: int): Job {
    Job(r, [], Appended([], r.state.jobId, JobQueued, StatusOnly(Queued), now))
  }

  datatype Action =
    | Enqueue(record: QueueRecord, now: int)
    | ClaimNext(worker: string, lease: int, now: int)
    | RecoverAll(retryAfter: int, now: int)
    | On(id: string, op: Op)

  predicate IsNew(s: Store, r: QueueRecord) {
    && (r.idempotencyKey.Some? ==> r.idempotencyKey.value !in s.index)
    && r.state.jobId !in s.jobs
  }

  datatype QueueError =
    | IdempotencyConflict | DuplicateJob | InvalidValue | LeaseLost | NotCancellable | InvalidTransition

  /** A known key answers with its own job, for the same request only. */
  function EnqueueReply(s: Store, r: QueueRecord): Result<QueueRecord, QueueError> {
    if r.idempotencyKey.Some? && r.idempotencyKey.value in s.index && s.index[r.idempotencyKey.value] in s.jobs then
      var existing := s.jobs[s.index[r.idempotencyKey.value]].record;
      if existing.requestHash == r.requestHash then Success(existing) else Failure(IdempotencyConflict)
    else if r.state.jobId in s.jobs then Failure(DuplicateJob)
    else Success(r)
  }

  function WithNew(s: Store, r: QueueRecord, now: int): Store {
    var id := r.state.jobId;
    Store(s.jobs[id := EnqueuedJob(r, now)], s.order + [id],
          if r.idempotencyKey.Some? then s.index[r.idempotencyKey.value := id] else s.index)
  }

  function OnJob(s: Store, id: string, op: Op): Store {
    if id in s.jobs then s.(jobs := s.jobs[id := Do(s.jobs[id], op)]) else s
  }

  function OnAll(s: Store, op: Op): Store {
    s.(jobs := map id | id in s.jobs :: Do(s.jobs[id], op))
  }

  /** One store step.  Only enqueueing adds a job; no step removes one. */
  function Apply(s: Store, a: Action): Store {
    match a
    case Enqueue(r, now) => if IsNew(s, r) then WithNew(s, r, now) else s
    case ClaimNext(w, lease, now) =>
      var next := SelectNext(s.jobs, s.order, now);
      if next.Some? then OnJob(s, next.value, Claim(w, lease, now)) else s
    case RecoverAll(retryAfter, now) => OnAll(s, Recover(retryAfter, now))
    case On(id, op) => OnJob(s, id, op)
  }

  /** What an action does to one given job. */
  function LocalOp(s: Store, a: Action, id: string): Option<Op> {
    match a
    case Enqueue(_, _) => None
    case ClaimNext(w, lease, now) =>
      if SelectNext(s.jobs, s.order, now) == Some(id) then Some(Claim(w, lease, now)) else None
    case RecoverAll(retryAfter, now) => Some(Recover(retryAfter, now))
    case On(target, op) => if target == id then Some(op) else None
  }

  function Run(s: Store, actions: seq<Action>): Store
    decreases |actions|
  {
    if actions == [] then s else Run(Apply(s, actions[0]), actions[1..])
  }

  /** A record as the HTTP layer submits it. */
  predicate Fresh(r: QueueRecord) {
    && r.state.status == Queued && r.attemptCount == 0 && r.maxAttempts >= 1
    && r.nextAttemptAt.None? && r.leaseOwner.None? && r.leaseExpiresAt.None? && r.heartbeatAt.None?
    && r.cancelRequestedAt.None? && r.startedAt.None? && r.completedAt.None?
  }

  predicate Legal(a: Action) {
    match a
    case Enqueue(r, _) => Fresh(r)
    case On(id, op) => Carries(op, id)
    case _ => true
  }

  predicate AllLegal(actions: seq<Action>) {
    forall a <- actions :: Legal(a)
  }
}
