/**
 What the queue promises over whole runs: replay of the event log, termination,
 cancellation, terminal immutability, fencing of leases and timing.
 */
module QueueTheorems {
  import opened Wrappers
  import opened JobQueue
  import opened QueueInvariants

  // ----------------------------------------------------------------- reading

  /** One owner, one running attempt, and it is the last: in every reachable state. */
  lemma LeaseAgreesWithLedger(actions: seq<Action>, id: string)
    requires AllLegal(actions) && id in Run(EMPTY, actions).jobs
    ensures var j := Run(EMPTY, actions).jobs[id];
            && (j.record.leaseOwner.Some? <==> Leased(j.Status()))
            && (Leased(j.Status()) <==> j.attempts != [] && Last(j.attempts).status.InProgress?)
            && (Leased(j.Status()) ==> j.record.leaseOwner == Some(Last(j.attempts).workerId))
            && (forall i | 0 <= i < |j.attempts| - 1 :: !j.attempts[i].status.InProgress?)
            && |j.attempts| == j.record.attemptCount <= j.record.maxAttempts
            && (forall i | 0 <= i < |j.attempts| :: j.attempts[i].number == i + 1)
            && (Waiting(j.Status()) ==> j.record.attemptCount < j.record.maxAttempts)
  {
    ReachableInv(actions);
  }

  /** A reader's left fold of the log: the last reported status and the attempts started. */
  function Replay(events: seq<Event>, status: Option<Status>, started: nat): (Option<Status>, nat) {
    if events == [] then (status, started)
    else
      Replay(events[1..],
             if events[0].payload.Facts? then status else Some(events[0].payload.status),
             started + if events[0].eventType.JobStarted? then 1 else 0)
  }

  lemma {:induction false} ReplayAppend(events: seq<Event>, e: Event, status: Option<Status>, started: nat)
    ensures var (st, n) := Replay(events, status, started);
            Replay(events + [e], status, started)
            == (if e.payload.Facts? then st else Some(e.payload.status),
                n + if e.eventType.JobStarted? then 1 else 0)
  {
    if events == [] {
      assert ([] + [e])[1..] == [];
    } else {
      assert (events + [e])[1..] == events[1..] + [e];
      ReplayAppend(events[1..], e,
                   if events[0].payload.Facts? then status else Some(events[0].payload.status),
                   started + if events[0].eventType.JobStarted? then 1 else 0);
    }
  }

  lemma {:induction false} ReplayIsTrace(events: seq<Event>)
    ensures Replay(events, None, 0)
         == (if Trace(events) == [] then None else Some(Last(Trace(events))), StartedCount(events))
  {
    if events != [] {
      ReplayIsTrace(events[..|events| - 1]);
      ReplayAppend(events[..|events| - 1], Last(events), None, 0);
      assert events == events[..|events| - 1] + [Last(events)];
    }
  }

  /** The log alone rebuilds status and attempt count, without gaps and along legal transitions. */
  lemma LogReplaysToRecord(actions: seq<Action>, id: string)
    requires AllLegal(actions) && id in Run(EMPTY, actions).jobs
    ensures var j := Run(EMPTY, actions).jobs[id];
            && Replay(j.events, None, 0) == (Some(j.Status()), j.record.attemptCount)
            && Numbered(j.events, id)
            && Trace(j.events) != [] && Trace(j.events)[0] == Queued
            && Chained(Trace(j.events))
  {
    ReachableInv(actions);
    ReplayIsTrace(Run(EMPTY, actions).jobs[id].events);
  }

  /** A job reports one terminal status at most, and nothing after it. */
  lemma TerminalReportedOnce(actions: seq<Action>, id: string, i: nat, k: nat)
    requires AllLegal(actions) && id in Run(EMPTY, actions).jobs
    requires i < |Run(EMPTY, actions).jobs[id].events| && k < |Run(EMPTY, actions).jobs[id].events|
    requires ReportsTerminal(Run(EMPTY, actions).jobs[id].events[i])
    ensures ReportsTerminal(Run(EMPTY, actions).jobs[id].events[k]) ==> i == k
    ensures k <= i
    ensures Terminal(Run(EMPTY, actions).jobs[id].Status())
  {
    ReachableInv(actions);
    var events := Run(EMPTY, actions).jobs[id].events;
    assert i == |events| - 1;
    assert Last(Trace(events)) == Last(events).payload.status;
  }

  /** The same key never names two jobs, and a repeated request is answered with the first. */
  lemma OneJobPerKey(actions: seq<Action>, a: string, b: string, again: QueueRecord, now: int)
    requires AllLegal(actions)
    requires a in Run(EMPTY, actions).jobs && b in Run(EMPTY, actions).jobs
    requires Run(EMPTY, actions).jobs[a].record.idempotencyKey.Some?
    requires Run(EMPTY, actions).jobs[a].record.idempotencyKey == Run(EMPTY, actions).jobs[b].record.idempotencyKey
    requires again.idempotencyKey == Run(EMPTY, actions).jobs[a].record.idempotencyKey
    ensures a == b
    ensures var s := Run(EMPTY, actions);
            && Apply(s, Enqueue(again, now)) == s
            && EnqueueReply(s, again) == if s.jobs[a].record.requestHash == again.requestHash
                                         then Success(s.jobs[a].record) else Failure(IdempotencyConflict)
  {
    ReachableInv(actions);
  }

  // ------------------------------------------------------------- termination

  function Rank(s: Status): nat {
    if s.Running? then 2 else if Terminal(s) then 0 else 1
  }

  /** Status changes a job can still make. */
  function Budget(r: QueueRecord): int { 2 * (r.maxAttempts - r.attemptCount) + Rank(r.state.status) }

  lemma BudgetStep(r: QueueRecord, op: Op)
    requires RecordInv(r) && Accepts(r, op)
    ensures Budget(NextRecord(r, op)) <= Budget(r)
    ensures NextRecord(r, op).state.status != r.state.status ==> Budget(NextRecord(r, op)) < Budget(r)
  {
  }

  function StatusChanges(j: Job, ops: seq<Op>): nat
    decreases |ops|
  {
    if ops == [] then 0
    else
      StatusChanges(Do(j, ops[0]), ops[1..]) + if Do(j, ops[0]).Status() != j.Status() then 1 else 0
  }

  /** However the steps interleave, the status changes of a job are paid from its budget. */
  lemma {:induction false} ChangesWithinBudget(j: Job, ops: seq<Op>)
    requires JobInv(j) && AllCarry(ops, j.Id())
    ensures StatusChanges(j, ops) + Budget(DoAll(j, ops).record) <= Budget(j.record)
    decreases |ops|
  {
    if ops != [] {
      assert ops[0] in ops && forall op <- ops[1..] :: op in ops;
      StepInv(j, ops[0]);
      StepEvolves(j, ops[0]);
      if Accepts(j.record, ops[0]) {
        BudgetStep(j.record, ops[0]);
      }
      ChangesWithinBudget(Do(j, ops[0]), ops[1..]);
    }
  }

  /** A queued job changes its status at most 2 * max_attempts + 1 times, in any run of the store. */
  lemma StatusChangeBound(s: Store, actions: seq<Action>, id: string)
    requires StoreInv(s) && AllLegal(actions) && id in s.jobs && s.jobs[id].Status().Queued?
    ensures StatusChanges(s.jobs[id], Ops(s, actions, id)) <= 2 * s.jobs[id].record.maxAttempts + 1
  {
    RunOnJob(s, actions, id);
    ChangesWithinBudget(s.jobs[id], Ops(s, actions, id));
    DoAllInv(s.jobs[id], Ops(s, actions, id));
  }

  const CLAIM := Claim("W", 1, 0)
  const RETRY := Fail("W", WorkerError(""), true, 0, None, None, 0)

  /** Fail every attempt but the last, which is cancelled and then found stale. */
  function LongestLife(left: nat): seq<Op> {
    if left <= 1 then [CLAIM, Cancel(0), Recover(0, 1)] else [CLAIM, RETRY] + LongestLife(left - 1)
  }

  /** A claim at time 0 followed by a retryable failure: two changes, one attempt less. */
  lemma OneRound(j: Job)
    requires JobInv(j) && Claimable(j.record, 0) && j.record.attemptCount + 1 < j.record.maxAttempts
    ensures var j1 := Do(j, CLAIM); var j2 := Do(j1, RETRY);
            && j1.Status() == Running && j2.Status() == RetryWait && Claimable(j2.record, 0)
            && JobInv(j2) && j2.record.maxAttempts == j.record.maxAttempts
            && j2.record.attemptCount == j.record.attemptCount + 1
  {
    StepInv(j, CLAIM);
    StepInv(Do(j, CLAIM), RETRY);
  }

  /** A claim that is cancelled while it runs and then found stale: three changes. */
  lemma LastRound(j: Job)
    requires Claimable(j.record, 0)
    ensures var j1 := Do(j, CLAIM); var j2 := Do(j1, Cancel(0));
            && j1.Status() == Running && j2.Status() == CancelRequested && Do(j2, Recover(0, 1)).Status() == Cancelled
  {
  }

  lemma ChangesFirst(j: Job, op: Op, rest: seq<Op>)
    ensures StatusChanges(j, [op] + rest)
      == StatusChanges(Do(j, op), rest) + if Do(j, op).Status() != j.Status() then 1 else 0
  {
    assert ([op] + rest)[1..] == rest;
  }

  lemma LastRoundSpends(j: Job)
    requires Claimable(j.record, 0)
    ensures StatusChanges(j, LongestLife(1)) == 3
  {
    var j1 := Do(j, CLAIM);
    LastRound(j);
    ChangesFirst(Do(j1, Cancel(0)), Recover(0, 1), []);
    ChangesFirst(j1, Cancel(0), [Recover(0, 1)] + []);
    ChangesFirst(j, CLAIM, [Cancel(0)] + ([Recover(0, 1)] + []));
    assert LongestLife(1) == [CLAIM] + ([Cancel(0)] + ([Recover(0, 1)] + []));
  }

  lemma RoundSpends(j: Job, rest: seq<Op>)
    requires JobInv(j) && Claimable(j.record, 0) && j.record.attemptCount + 1 < j.record.maxAttempts
    ensures StatusChanges(j, [CLAIM, RETRY] + rest) == 2 + StatusChanges(Do(Do(j, CLAIM), RETRY), rest)
  {
    OneRound(j);
    ChangesFirst(Do(j, CLAIM), RETRY, rest);
    ChangesFirst(j, CLAIM, [RETRY] + rest);
    assert [CLAIM, RETRY] + rest == [CLAIM] + ([RETRY] + rest);
  }

  lemma {:induction false} LongestLifeSpendsAll(j: Job, left: nat)
    requires JobInv(j) && Claimable(j.record, 0) && left == j.record.maxAttempts - j.record.attemptCount
    ensures StatusChanges(j, LongestLife(left)) == 2 * left + 1
    decreases left
  {
    if left == 1 {
      LastRoundSpends(j);
    } else {
      OneRound(j);
      RoundSpends(j, LongestLife(left - 1));
      LongestLifeSpendsAll(Do(Do(j, CLAIM), RETRY), left - 1);
    }
  }

  lemma LongestLifeCarries(left: nat, id: string)
    ensures AllCarry(LongestLife(left), id)
  {
  }

  /** Every claim among the operations finds the job claimable. */
  predicate ClaimsReady(j: Job, ops: seq<Op>)
    decreases |ops|
  {
    ops != [] ==>
      && (ops[0].Claim? ==> Claimable(j.record, ops[0].now))
      && ClaimsReady(Do(j, ops[0]), ops[1..])
  }

  lemma ReadyFirst(j: Job, op: Op, rest: seq<Op>)
    requires (op.Claim? ==> Claimable(j.record, op.now)) && ClaimsReady(Do(j, op), rest)
    ensures ClaimsReady(j, [op] + rest)
  {
    assert ([op] + rest)[1..] == rest;
  }

  lemma LastRoundReady(j: Job)
    requires Claimable(j.record, 0)
    ensures ClaimsReady(j, LongestLife(1))
  {
    var j1 := Do(j, CLAIM);
    ReadyFirst(Do(j1, Cancel(0)), Recover(0, 1), []);
    ReadyFirst(j1, Cancel(0), [Recover(0, 1)] + []);
    ReadyFirst(j, CLAIM, [Cancel(0)] + ([Recover(0, 1)] + []));
    assert LongestLife(1) == [CLAIM] + ([Cancel(0)] + ([Recover(0, 1)] + []));
  }

  lemma RoundReady(j: Job, rest: seq<Op>)
    requires Claimable(j.record, 0) && ClaimsReady(Do(Do(j, CLAIM), RETRY), rest)
    ensures ClaimsReady(j, [CLAIM, RETRY] + rest)
  {
    ReadyFirst(Do(j, CLAIM), RETRY, rest);
    ReadyFirst(j, CLAIM, [RETRY] + rest);
    assert [CLAIM, RETRY] + rest == [CLAIM] + ([RETRY] + rest);
  }

  lemma {:induction false} LongestLifeReady(j: Job, left: nat)
    requires JobInv(j) && Claimable(j.record, 0) && left == j.record.maxAttempts - j.record.attemptCount
    ensures ClaimsReady(j, LongestLife(left))
    decreases left
  {
    if left == 1 {
      LastRoundReady(j);
    } else {
      OneRound(j);
      LongestLifeReady(Do(Do(j, CLAIM), RETRY), left - 1);
      RoundReady(j, LongestLife(left - 1));
      assert LongestLife(left) == [CLAIM, RETRY] + LongestLife(left - 1);
    }
  }

  /** The store call that performs an operation on the only job there is. */
  function AsAction(op: Op, id: string): Action {
    match op
    case Claim(w, lease, now) => ClaimNext(w, lease, now)
    case Recover(retryAfter, now) => RecoverAll(retryAfter, now)
    case _ => On(id, op)
  }

  function AsActions(ops: seq<Op>, id: string): seq<Action> {
    if ops == [] then [] else [AsAction(ops[0], id)] + AsActions(ops[1..], id)
  }

  predicate OnlyJob(s: Store, id: string) { s.order == [id] && s.jobs.Keys == {id} }

  lemma OnlyJobStep(s: Store, id: string, op: Op)
    requires OnlyJob(s, id) && (op.Claim? ==> Claimable(s.jobs[id].record, op.now))
    ensures OnlyJob(Apply(s, AsAction(op, id)), id) && LocalOp(s, AsAction(op, id), id) == Some(op)
    ensures Apply(s, AsAction(op, id)).jobs[id] == Do(s.jobs[id], op)
  {
    if op.Claim? {
      assert [id][..0] == [] && SelectNext(s.jobs, [], op.now) == None;
      assert SelectNext(s.jobs, s.order, op.now) == Some(id);
    }
  }

  lemma {:induction false} OnlyJobRun(s: Store, id: string, ops: seq<Op>)
    requires OnlyJob(s, id) && ClaimsReady(s.jobs[id], ops) && AllCarry(ops, id)
    ensures AllLegal(AsActions(ops, id)) && Ops(s, AsActions(ops, id), id) == ops
    decreases |ops|
  {
    if ops != [] {
      assert ops[0] in ops && forall op <- ops[1..] :: op in ops;
      OnlyJobStep(s, id, ops[0]);
      OnlyJobRun(Apply(s, AsAction(ops[0], id)), id, ops[1..]);
      assert AsActions(ops, id)[1..] == AsActions(ops[1..], id);
    }
  }

  /** The store after one submission. */
  function OneQueued(r: QueueRecord): Store { Apply(EMPTY, Enqueue(r, 0)) }

  lemma OneQueuedIs(r: QueueRecord)
    requires Fresh(r)
    ensures OnlyJob(OneQueued(r), r.state.jobId) && OneQueued(r).jobs[r.state.jobId] == EnqueuedJob(r, 0)
  {
    assert OneQueued(r) == WithNew(EMPTY, r, 0);
  }

  lemma OneQueuedInv(r: QueueRecord)
    requires Fresh(r)
    ensures StoreInv(OneQueued(r))
  {
    var s, a := EMPTY, Enqueue(r, 0);
    assert Legal(a) && StoreInv(s);
    ApplyPreserves(s, a);
  }

  /** From the empty store and for every max_attempts some run of real calls meets the bound, so no smaller one holds. */
  lemma StatusChangeBoundIsTight(r: QueueRecord)
    requires Fresh(r)
    ensures var s, id := OneQueued(r), r.state.jobId;
      var actions := AsActions(LongestLife(r.maxAttempts), id);
      && AllLegal([Enqueue(r, 0)] + actions) && Run(EMPTY, [Enqueue(r, 0)] + actions) == Run(s, actions)
      && id in s.jobs && s.jobs[id].Status().Queued?
      && StatusChanges(s.jobs[id], Ops(s, actions, id)) == 2 * r.maxAttempts + 1
  {
    var s, id, ops := OneQueued(r), r.state.jobId, LongestLife(r.maxAttempts);
    OneQueuedIs(r);
    LongestLifeCarries(r.maxAttempts, id);
    LongestLifeReady(s.jobs[id], r.maxAttempts);
    LongestLifeSpendsAll(s.jobs[id], r.maxAttempts);
    OnlyJobRun(s, id, ops);
    assert ([Enqueue(r, 0)] + AsActions(ops, id))[1..] == AsActions(ops, id);
  }

  /** The store once a worker has claimed the one job. */
  function OneRunning(r: QueueRecord): Store { Apply(OneQueued(r), ClaimNext("W", 9, 0)) }

  lemma OneRunningJob(r: QueueRecord)
    requires Fresh(r)
    ensures OnlyJob(OneRunning(r), r.state.jobId)
    ensures OneRunning(r).jobs[r.state.jobId] == Do(EnqueuedJob(r, 0), Claim("W", 9, 0))
  {
    assert OneQueued(r) == WithNew(EMPTY, r, 0);
    OnlyJobStep(OneQueued(r), r.state.jobId, Claim("W", 9, 0));
  }

  lemma OneRunningIs(r: QueueRecord)
    requires Fresh(r)
    ensures var s, id := OneRunning(r), r.state.jobId;
      && StoreInv(s) && id in s.jobs && OnlyJob(s, id) && s.jobs[id] == Do(EnqueuedJob(r, 0), Claim("W", 9, 0))
      && |s.jobs[id].events| == 2 && s.jobs[id].Status() == Running && OwnsActiveLease(s.jobs[id].record, "W", 1)
  {
    OneQueuedInv(r);
    OneRunningJob(r);
    ApplyPreserves(OneQueued(r), ClaimNext("W", 9, 0));
  }

  // ------------------------------------------------- cancellation, terminality

  /** Once cancellation was requested the job can only stay requested or end cancelled. */
  lemma CancellationSticks(s: Store, actions: seq<Action>, id: string)
    requires StoreInv(s) && AllLegal(actions) && id in s.jobs
    requires s.jobs[id].record.cancelRequestedAt.Some?
    ensures id in Run(s, actions).jobs
    ensures var st := Run(s, actions).jobs[id].Status(); st.CancelRequested? || st.Cancelled?
  {
    RunPreserves(s, actions);
  }

  /** A terminal job is never written again: record, attempts and log stay as they are. */
  lemma TerminalForever(s: Store, actions: seq<Action>, id: string)
    requires StoreInv(s) && AllLegal(actions) && id in s.jobs && Terminal(s.jobs[id].Status())
    ensures id in Run(s, actions).jobs && Run(s, actions).jobs[id] == s.jobs[id]
  {
    RunPreserves(s, actions);
  }

  /** An attempt leaves `running` once: how it ended is then fixed for ever. */
  lemma FinishedAttemptIsFixed(s: Store, actions: seq<Action>, id: string, i: nat)
    requires StoreInv(s) && AllLegal(actions) && id in s.jobs && i < |s.jobs[id].attempts|
    requires !s.jobs[id].attempts[i].status.InProgress?
    ensures id in Run(s, actions).jobs && i < |Run(s, actions).jobs[id].attempts|
    ensures Run(s, actions).jobs[id].attempts[i] == s.jobs[id].attempts[i]
  {
    RunPreserves(s, actions);
  }

  // ---------------------------------------------------------------- fencing

  /** Operations a worker performs under its lease. */
  predicate UnderLease(op: Op) { op.Complete? || op.Fail? || op.Heartbeat? || op.Progress? }

  /** The arguments the store asks of a heartbeat or a progress event, whoever sends it. */
  predicate WellMade(op: Op) {
    && (op.Heartbeat? ==> op.lease > 0)
    && (op.Progress? ==> PublicEventName(op.name))
  }

  /** The store takes a result, a failure, a heartbeat or a progress event exactly from the worker of the
      newest attempt, while that attempt runs and its lease lives. */
  lemma CommitAcceptedIff(s: Store, id: string, op: Op)
    requires StoreInv(s) && id in s.jobs && UnderLease(op)
    ensures var j := s.jobs[id];
            Accepts(j.record, op) <==>
            && WellMade(op)
            && j.attempts != [] && Last(j.attempts).status.InProgress?
            && Last(j.attempts).workerId == op.worker
            && j.record.leaseExpiresAt.value > op.now
  {
  }

  predicate ClaimsAs(op: Op, w: string) { op.Claim? && op.worker == w }

  /** Attempts added by operations in which `w` does not claim belong to other workers. */
  lemma {:induction false} OthersTookOver(j: Job, ops: seq<Op>, w: string)
    requires JobInv(j) && AllCarry(ops, j.Id()) && forall op <- ops :: !ClaimsAs(op, w)
    ensures forall i | |j.attempts| <= i < |DoAll(j, ops).attempts| :: DoAll(j, ops).attempts[i].workerId != w
    decreases |ops|
  {
    if ops != [] {
      assert ops[0] in ops && forall op <- ops[1..] :: op in ops;
      var k := Do(j, ops[0]);
      StepAddsOther(j, ops[0], w);
      OthersTookOver(k, ops[1..], w);
      DoAllEvolves(k, ops[1..]);
    }
  }

  /** One operation adds an attempt at most, and one of `w` only when `w` claims. */
  lemma StepAddsOther(j: Job, op: Op, w: string)
    requires JobInv(j) && Carries(op, j.Id()) && !ClaimsAs(op, w)
    ensures var k := Do(j, op);
            && JobInv(k) && k.Id() == j.Id() && |j.attempts| <= |k.attempts| <= |j.attempts| + 1
            && (|k.attempts| > |j.attempts| ==> Last(k.attempts).workerId != w)
  {
    StepInv(j, op);
    StepEvolves(j, op);
    if Accepts(j.record, op) && Closes(op) {
      ReplaceAt(j.attempts, |j.attempts| - 1, 0, Closing(j.record, op));
    }
  }

  lemma {:induction false} DoAllEvolves(j: Job, ops: seq<Op>)
    requires JobInv(j) && AllCarry(ops, j.Id())
    ensures AttemptsEvolve(j.attempts, DoAll(j, ops).attempts)
    decreases |ops|
  {
    if ops != [] {
      assert ops[0] in ops && forall op <- ops[1..] :: op in ops;
      StepInv(j, ops[0]);
      StepEvolves(j, ops[0]);
      DoAllEvolves(Do(j, ops[0]), ops[1..]);
    }
  }

  /** After a takeover the former owner can write nothing, whatever clock it carries. */
  lemma TakeoverFencesOldWorker(s: Store, actions: seq<Action>, id: string, op: Op)
    requires StoreInv(s) && AllLegal(actions) && id in s.jobs && UnderLease(op)
    requires forall o <- Ops(s, actions, id) :: !ClaimsAs(o, op.worker)
    ensures id in Run(s, actions).jobs
    ensures |Run(s, actions).jobs[id].attempts| > |s.jobs[id].attempts| ==>
              !Accepts(Run(s, actions).jobs[id].record, op)
  {
    var j, ops := s.jobs[id], Ops(s, actions, id);
    RunOnJob(s, actions, id);
    OthersTookOver(j, ops, op.worker);
    DoAllInv(j, ops);
  }

  // ------------------------------------------------------------ claim order

  /** Position `k` holds a claimable job that sorts first, the earliest inserted among equals. */
  predicate IsFirst(jobs: map<string, Job>, order: seq<string>, now: int, k: nat)
    requires k < |order| && forall id <- order :: id in jobs
  {
    && Claimable(jobs[order[k]].record, now)
    && forall m | 0 <= m < |order| && Claimable(jobs[order[m]].record, now) ::
         && !Before(jobs[order[m]].record, jobs[order[k]].record)
         && (m < k ==> Before(jobs[order[k]].record, jobs[order[m]].record))
  }

  lemma {:induction false} SelectNextNoneIff(jobs: map<string, Job>, order: seq<string>, now: int)
    requires forall id <- order :: id in jobs
    ensures SelectNext(jobs, order, now).None? <==> forall id <- order :: !Claimable(jobs[id].record, now)
  {
    if order != [] {
      var init, id := order[..|order| - 1], order[|order| - 1];
      assert forall x <- order :: x in init || x == id;
      assert forall x <- init :: x in order;
      SelectNextNoneIff(jobs, init, now);
    }
  }

  lemma {:induction false} SelectNextExists(jobs: map<string, Job>, order: seq<string>, now: int)
    requires forall id <- order :: id in jobs
    ensures SelectNext(jobs, order, now).None? <==> forall id <- order :: !Claimable(jobs[id].record, now)
    ensures SelectNext(jobs, order, now).Some? ==>
              exists k: nat :: k < |order| && order[k] == SelectNext(jobs, order, now).value
                               && IsFirst(jobs, order, now, k)
  {
    SelectNextNoneIff(jobs, order, now);
    if order != [] {
      var init, id := order[..|order| - 1], order[|order| - 1];
      assert forall x <- init :: x in order;
      SelectNextExists(jobs, init, now);
      var best := SelectNext(jobs, init, now);
      if SelectNext(jobs, order, now).Some? {
        if SelectNext(jobs, order, now) == best {
          var k: nat :| k < |init| && init[k] == best.value && IsFirst(jobs, init, now, k);
          assert order[k] == best.value && IsFirst(jobs, order, now, k);
        } else {
          assert IsFirst(jobs, order, now, |init|);
        }
      }
    }
  }

  /** A claim takes exactly the first claimable job: none of higher priority, or as high and
      created earlier, is passed over, and ties go to the one enqueued first. */
  lemma ClaimTakesFirst(s: Store, now: int, k: nat)
    requires WellFormed(s) && Distinct(s.order) && k < |s.order|
    ensures SelectNext(s.jobs, s.order, now) == Some(s.order[k]) <==> IsFirst(s.jobs, s.order, now, k)
  {
    SelectNextExists(s.jobs, s.order, now);
    if IsFirst(s.jobs, s.order, now, k) {
      assert s.order[k] in s.order;
      var m: nat :| m < |s.order| && s.order[m] == SelectNext(s.jobs, s.order, now).value
                    && IsFirst(s.jobs, s.order, now, m);
      assert m == k;
    }
  }

  // ----------------------------------------------------------------- timing

  /** From `last` on, no operation on the job comes more than `h` after its worker's latest
      heartbeat, and the worker has not committed yet. */
  predicate KeptAlive(ops: seq<Op>, w: string, lease: int, h: int, last: int)
    decreases |ops|
  {
    ops == [] ||
    var op := ops[0];
    && last <= op.now <= last + h
    && !((op.Complete? || op.Fail?) && op.worker == w)
    && if op.Heartbeat? && op.worker == w
       then op.lease == lease && KeptAlive(ops[1..], w, lease, h, op.now)
       else KeptAlive(ops[1..], w, lease, h, last)
  }

  predicate HoldsLease(r: QueueRecord, w: string, attempt: nat, expires: int) {
    && Leased(r.state.status) && r.attemptCount == attempt
    && r.leaseOwner == Some(w) && r.leaseExpiresAt == Some(expires)
  }

  lemma {:induction false} OpsKeepLease(j: Job, ops: seq<Op>, w: string, attempt: nat, lease: int, h: int, last: int)
    requires 0 < h < lease && HoldsLease(j.record, w, attempt, last + lease) && KeptAlive(ops, w, lease, h, last)
    ensures DoAll(j, ops).record.leaseExpiresAt.Some?
    ensures HoldsLease(DoAll(j, ops).record, w, attempt, DoAll(j, ops).record.leaseExpiresAt.value)
    decreases |ops|
  {
    if ops != [] {
      var beat := ops[0].Heartbeat? && ops[0].worker == w;
      OpsKeepLease(Do(j, ops[0]), ops[1..], w, attempt, lease, h, if beat then ops[0].now else last);
    }
  }

  /** Heartbeats closer together than the lease: whatever else runs, no recovery and no other
      worker takes the job before its worker commits. */
  lemma HeartbeatsKeepLease(
      s: Store, actions: seq<Action>, id: string, w: string, attempt: nat, lease: int, h: int, last: int)
    requires id in s.jobs && 0 < h < lease
    requires HoldsLease(s.jobs[id].record, w, attempt, last + lease)
    requires KeptAlive(Ops(s, actions, id), w, lease, h, last)
    ensures id in Run(s, actions).jobs
    ensures exists expires :: HoldsLease(Run(s, actions).jobs[id].record, w, attempt, expires)
  {
    RunOnJob(s, actions, id);
    OpsKeepLease(s.jobs[id], Ops(s, actions, id), w, attempt, lease, h, last);
  }

  predicate WaitsUntil(j: Job, t: int) {
    (j.Status().RetryWait? && j.record.nextAttemptAt == Some(t)) || j.Status().Cancelled?
  }

  /** A job waiting for its retry time is not restarted by any operation issued before it. */
  lemma {:induction false} NotClaimedEarly(j: Job, ops: seq<Op>, t: int)
    requires JobInv(j) && AllCarry(ops, j.Id()) && WaitsUntil(j, t) && forall op <- ops :: op.now < t
    ensures WaitsUntil(DoAll(j, ops), t)
    decreases |ops|
  {
    if ops != [] {
      assert ops[0] in ops && forall op <- ops[1..] :: op in ops;
      StepInv(j, ops[0]);
      StepEvolves(j, ops[0]);
      NotClaimedEarly(Do(j, ops[0]), ops[1..], t);
    }
  }

  lemma RetryableFailureWaits(j: Job, fail: Op)
    requires fail.Fail? && fail.retryable && Accepts(j.record, fail)
    requires j.Status().Running? && j.record.attemptCount < j.record.maxAttempts
    ensures WaitsUntil(Do(j, fail), fail.now + Max(0, fail.retryAfter))
  {
  }

  lemma BackoffOfJob(j: Job, fail: Op, later: seq<Op>)
    requires JobInv(j) && AllCarry([fail] + later, j.Id())
    requires fail.Fail? && fail.retryable && Accepts(j.record, fail)
    requires j.Status().Running? && j.record.attemptCount < j.record.maxAttempts
    requires forall op <- later :: op.now < fail.now + Max(0, fail.retryAfter)
    ensures WaitsUntil(DoAll(Do(j, fail), later), fail.now + Max(0, fail.retryAfter))
  {
    assert ([fail] + later)[0] == fail && forall op <- later :: op in [fail] + later;
    RetryableFailureWaits(j, fail);
    StepInv(j, fail);
    StepEvolves(j, fail);
    NotClaimedEarly(Do(j, fail), later, fail.now + Max(0, fail.retryAfter));
  }

  /** After a retryable failure nothing issued before its delay is over restarts the job. */
  lemma BackoffHolds(s: Store, actions: seq<Action>, id: string, fail: Op, later: seq<Op>)
    requires StoreInv(s) && AllLegal(actions) && id in s.jobs
    requires Ops(s, actions, id) == [fail] + later
    requires fail.Fail? && fail.retryable && Accepts(s.jobs[id].record, fail)
    requires s.jobs[id].Status().Running? && s.jobs[id].record.attemptCount < s.jobs[id].record.maxAttempts
    requires forall op <- later :: op.now < fail.now + Max(0, fail.retryAfter)
    ensures id in Run(s, actions).jobs && WaitsUntil(Run(s, actions).jobs[id], fail.now + Max(0, fail.retryAfter))
  {
    RunOnJob(s, actions, id);
    BackoffOfJob(s.jobs[id], fail, later);
    assert ([fail] + later)[0] == fail && ([fail] + later)[1..] == later;
  }
}
