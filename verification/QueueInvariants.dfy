/**
 What every step of the queue keeps, and what therefore holds in every
 reachable state: lease, attempt ledger and event log always agree.
 */
module QueueInvariants {
  import opened Wrappers
  import opened JobQueue

  function Last<T>(s: seq<T>): T
    requires s != []
  {
    s[|s| - 1]
  }

  // ------------------------------------------------------------- invariants

  /** Which fields are set is decided by the status and the attempt count alone. */
  predicate RecordInv(r: QueueRecord) {
    var st := r.state.status;
    && r.maxAttempts >= 1
    && r.attemptCount <= r.maxAttempts
    && !st.Pending? && !st.Skipped?
    && (Waiting(st) ==> r.attemptCount < r.maxAttempts)
    && (st.Queued? ==> r.attemptCount == 0)
    && (r.leaseOwner.Some? <==> Leased(st))
    && (r.leaseExpiresAt.Some? <==> Leased(st))
    && (r.heartbeatAt.Some? <==> Leased(st))
    && (r.cancelRequestedAt.Some? <==> st.CancelRequested? || st.Cancelled?)
    && (r.nextAttemptAt.Some? <==> st.RetryWait?)
    && (r.completedAt.Some? <==> Terminal(st))
    && (r.startedAt.Some? <==> r.attemptCount > 0)
  }

  /** Attempts are numbered 1..n; only the last can be running, exactly while the job is leased. */
  predicate LedgerInv(r: QueueRecord, attempts: seq<Attempt>) {
    && |attempts| == r.attemptCount
    && (forall i | 0 <= i < |attempts| ::
          && attempts[i].number == i + 1
          && attempts[i].jobId == r.state.jobId
          && (attempts[i].status.InProgress? <==> i == |attempts| - 1 && Leased(r.state.status)))
    && (Leased(r.state.status) ==> attempts != [] && r.leaseOwner == Some(Last(attempts).workerId))
  }

  /** The statuses the log reports, in order. */
  function Trace(events: seq<Event>): seq<Status> {
    if events == [] then []
    else
      var before := Trace(events[..|events| - 1]);
      var p := Last(events).payload;
      if p.Facts? then before else before + [p.status]
  }

  function StartedCount(events: seq<Event>): nat {
    if events == [] then 0
    else StartedCount(events[..|events| - 1]) + if Last(events).eventType.JobStarted? then 1 else 0
  }

  predicate Numbered(events: seq<Event>, jobId: string) {
    forall i | 0 <= i < |events| :: events[i].sequence == i + 1 && events[i].jobId == jobId
  }

  predicate Chained(trace: seq<Status>) {
    forall i | 0 <= i < |trace| - 1 :: ValidTransition(trace[i], trace[i + 1])
  }

  predicate ReportsTerminal(e: Event) { !e.payload.Facts? && Terminal(e.payload.status) }

  /** The log replays to the record, obeys the transition table and ends with the terminal event. */
  predicate LogInv(r: QueueRecord, events: seq<Event>) {
    var trace := Trace(events);
    && Numbered(events, r.state.jobId)
    && trace != [] && trace[0] == Queued && Last(trace) == r.state.status
    && Chained(trace)
    && StartedCount(events) == r.attemptCount
    && (forall i | 0 <= i < |events| :: ReportsTerminal(events[i]) ==> i == |events| - 1)
  }

  predicate JobInv(j: Job) {
    RecordInv(j.record) && LedgerInv(j.record, j.attempts) && LogInv(j.record, j.events)
  }

  /** One job per idempotency key, and the index finds it. */
  predicate IndexInv(s: Store) {
    && (forall k <- s.index :: s.index[k] in s.jobs && s.jobs[s.index[k]].record.idempotencyKey == Some(k))
    && (forall id <- s.jobs :: s.jobs[id].record.idempotencyKey.Some? ==>
          var k := s.jobs[id].record.idempotencyKey.value; k in s.index && s.index[k] == id)
  }

  predicate StoreInv(s: Store) {
    && WellFormed(s) && Distinct(s.order) && IndexInv(s)
    && (forall id <- s.jobs :: JobInv(s.jobs[id]))
  }

  // ------------------------------------------------------------ single steps

  lemma {:induction false} ReplaceAt(attempts: seq<Attempt>, k: nat, offset: nat, u: Amendment)
    requires k < |attempts|
    requires forall i | 0 <= i < |attempts| :: attempts[i].number == offset + i + 1
    ensures ReplaceAttempt(attempts, offset + k + 1, u) == attempts[k := Amend(attempts[k], u)]
  {
    if k > 0 {
      ReplaceAt(attempts[1..], k - 1, offset + 1, u);
    }
  }

  lemma RecordStep(r: QueueRecord, op: Op)
    requires RecordInv(r) && Accepts(r, op)
    ensures RecordInv(NextRecord(r, op))
  {
  }

  lemma LedgerStep(r: QueueRecord, attempts: seq<Attempt>, op: Op)
    requires RecordInv(r) && LedgerInv(r, attempts) && Accepts(r, op) && Carries(op, r.state.jobId)
    ensures LedgerInv(NextRecord(r, op), NextAttempts(r, attempts, op))
  {
    if Closes(op) {
      ReplaceAt(attempts, |attempts| - 1, 0, Closing(r, op));
    }
  }

  lemma TraceAppend(events: seq<Event>, e: Event)
    ensures Trace(events + [e]) == Trace(events) + if e.payload.Facts? then [] else [e.payload.status]
    ensures StartedCount(events + [e]) == StartedCount(events) + if e.eventType.JobStarted? then 1 else 0
  {
    assert (events + [e])[..|events|] == events;
  }

  /** No operation is accepted on a terminal job. */
  lemma TerminalRefuses(r: QueueRecord, op: Op)
    requires RecordInv(r) && Terminal(r.state.status)
    ensures !Accepts(r, op)
  {
  }

  /** Every accepted operation moves along the transition table, whoever checked it. */
  lemma StatusStep(r: QueueRecord, op: Op)
    requires RecordInv(r) && Accepts(r, op)
    ensures ValidTransition(r.state.status, NextRecord(r, op).state.status)
    ensures Logged(r, op).None? || Logged(r, op).value.1.Facts? ==> NextRecord(r, op).state.status == r.state.status
    ensures Logged(r, op).Some? && !Logged(r, op).value.1.Facts? ==>
              Logged(r, op).value.1.status == NextRecord(r, op).state.status
    ensures Logged(r, op).Some? && Logged(r, op).value.0.JobStarted? <==> op.Claim?
  {
  }

  lemma LogStep(r: QueueRecord, events: seq<Event>, op: Op)
    requires RecordInv(r) && LogInv(r, events) && Accepts(r, op) && Carries(op, r.state.jobId)
    ensures LogInv(NextRecord(r, op), NextEvents(r, events, op))
  {
    StatusStep(r, op);
    match Logged(r, op)
    case None =>
    case Some((t, p)) =>
      TraceAppend(events, Event(r.state.jobId, |events| + 1, t, p, op.now));
      forall i | 0 <= i < |events|
        ensures !ReportsTerminal(events[i])
      {
        if ReportsTerminal(events[i]) {
          assert Last(Trace(events)) == events[i].payload.status;
          TerminalRefuses(r, op);
          assert false;
        }
      }
  }

  predicate SameEnvelope(r: QueueRecord, q: QueueRecord) {
    && q.state.jobId == r.state.jobId
    && q.maxAttempts == r.maxAttempts
    && q.idempotencyKey == r.idempotencyKey
    && q.requestHash == r.requestHash
    && q.priority == r.priority
    && (r.cancelRequestedAt.Some? ==> q.cancelRequestedAt.Some?)
  }

  /** Attempts are only added; who ran one never changes, nor anything about a finished one. */
  predicate AttemptsEvolve(before: seq<Attempt>, after: seq<Attempt>) {
    && |before| <= |after|
    && forall i | 0 <= i < |before| ::
         && after[i].workerId == before[i].workerId
         && after[i].startedAt == before[i].startedAt
         && (!before[i].status.InProgress? ==> after[i] == before[i])
  }

  /** What no operation can undo. */
  predicate Evolves(j: Job, k: Job) {
    && SameEnvelope(j.record, k.record)
    && AttemptsEvolve(j.attempts, k.attempts)
    && j.events <= k.events
    && (Terminal(j.Status()) ==> k == j)
  }

  lemma EnvelopeStep(r: QueueRecord, op: Op)
    requires RecordInv(r) && Accepts(r, op) && Carries(op, r.state.jobId)
    ensures SameEnvelope(r, NextRecord(r, op))
  {
  }

  lemma AttemptsStep(r: QueueRecord, attempts: seq<Attempt>, op: Op)
    requires RecordInv(r) && LedgerInv(r, attempts) && Accepts(r, op)
    ensures AttemptsEvolve(attempts, NextAttempts(r, attempts, op))
  {
    if Closes(op) {
      ReplaceAt(attempts, |attempts| - 1, 0, Closing(r, op));
    }
  }

  lemma StepInv(j: Job, op: Op)
    requires JobInv(j) && Carries(op, j.Id())
    ensures JobInv(Do(j, op))
  {
    if Accepts(j.record, op) {
      RecordStep(j.record, op);
      LedgerStep(j.record, j.attempts, op);
      LogStep(j.record, j.events, op);
    }
  }

  lemma StepEvolves(j: Job, op: Op)
    requires JobInv(j) && Carries(op, j.Id())
    ensures Evolves(j, Do(j, op))
  {
    if Accepts(j.record, op) {
      EnvelopeStep(j.record, op);
      AttemptsStep(j.record, j.attempts, op);
      if Terminal(j.Status()) {
        TerminalRefuses(j.record, op);
        assert false;
      }
    }
  }

  lemma FreshJobInv(r: QueueRecord, now: int)
    requires Fresh(r)
    ensures JobInv(EnqueuedJob(r, now))
  {
    var e := Event(r.state.jobId, 1, JobQueued, StatusOnly(Queued), now);
    assert EnqueuedJob(r, now).events == [e];
    FreshLogInv(r, e);
  }

  lemma FreshLogInv(r: QueueRecord, e: Event)
    requires Fresh(r) && e.sequence == 1 && e.jobId == r.state.jobId
    requires e.eventType == JobQueued && e.payload == StatusOnly(Queued)
    ensures LogInv(r, [e])
  {
    FreshTrace(e);
  }

  lemma FreshTrace(e: Event)
    requires e.eventType == JobQueued && e.payload == StatusOnly(Queued)
    ensures Trace([e]) == [Queued] && StartedCount([e]) == 0
  {
    TraceAppend([], e);
    assert [] + [e] == [e];
  }

  lemma ApplyOnJob(s: Store, a: Action, id: string)
    requires id in s.jobs
    ensures id in Apply(s, a).jobs
    ensures Apply(s, a).jobs[id] == match LocalOp(s, a, id) case None => s.jobs[id] case Some(op) => Do(s.jobs[id], op)
  {
  }

  lemma JobStep(s: Store, a: Action, id: string)
    requires StoreInv(s) && Legal(a) && id in s.jobs
    ensures id in Apply(s, a).jobs && JobInv(Apply(s, a).jobs[id])
    ensures Evolves(s.jobs[id], Apply(s, a).jobs[id])
  {
    ApplyOnJob(s, a, id);
    if LocalOp(s, a, id).Some? {
      StepInv(s.jobs[id], LocalOp(s, a, id).value);
      StepEvolves(s.jobs[id], LocalOp(s, a, id).value);
    }
  }

  lemma EnqueueIndex(s: Store, r: QueueRecord, now: int)
    requires WellFormed(s) && IndexInv(s) && IsNew(s, r)
    ensures IndexInv(WithNew(s, r, now))
  {
    var t := WithNew(s, r, now);
    forall k | k in t.index
      ensures t.index[k] in t.jobs && t.jobs[t.index[k]].record.idempotencyKey == Some(k)
    {
      assert k in s.index || r.idempotencyKey == Some(k);
    }
  }

  lemma EnqueueStructure(s: Store, r: QueueRecord, now: int)
    requires WellFormed(s) && Distinct(s.order) && IsNew(s, r)
    ensures WellFormed(WithNew(s, r, now)) && Distinct(WithNew(s, r, now).order)
  {
    var t := WithNew(s, r, now);
    assert t.order == s.order + [r.state.jobId];
    assert t.order[|s.order|] == r.state.jobId;
    assert forall id <- s.order :: id in t.order;
  }

  /** Every store step, whatever it is, keeps the store invariant and every job's history. */
  lemma ApplyPreserves(s: Store, a: Action)
    requires StoreInv(s) && Legal(a)
    ensures StoreInv(Apply(s, a))
    ensures forall id <- s.jobs :: id in Apply(s, a).jobs && Evolves(s.jobs[id], Apply(s, a).jobs[id])
  {
    forall id | id in s.jobs
      ensures id in Apply(s, a).jobs && JobInv(Apply(s, a).jobs[id])
      ensures Evolves(s.jobs[id], Apply(s, a).jobs[id])
    {
      JobStep(s, a, id);
    }
    if a.Enqueue? {
      if IsNew(s, a.record) {
        EnqueueIndex(s, a.record, a.now);
        EnqueueStructure(s, a.record, a.now);
        FreshJobInv(a.record, a.now);
      }
    } else {
      SameKeys(s, a);
      UpdateStructure(s, a);
    }
  }

  lemma SameKeys(s: Store, a: Action)
    requires !a.Enqueue? && WellFormed(s)
    ensures Apply(s, a).jobs.Keys == s.jobs.Keys
  {
  }

  lemma UpdateStructure(s: Store, a: Action)
    requires WellFormed(s) && IndexInv(s) && !a.Enqueue?
    requires Apply(s, a).jobs.Keys == s.jobs.Keys
    requires forall id <- s.jobs :: SameEnvelope(s.jobs[id].record, Apply(s, a).jobs[id].record)
    ensures WellFormed(Apply(s, a)) && Apply(s, a).order == s.order && IndexInv(Apply(s, a))
  {
    SameStructure(s, Apply(s, a));
  }

  lemma SameStructure(s: Store, t: Store)
    requires WellFormed(s) && IndexInv(s)
    requires t.order == s.order && t.index == s.index && t.jobs.Keys == s.jobs.Keys
    requires forall id <- s.jobs :: SameEnvelope(s.jobs[id].record, t.jobs[id].record)
    ensures WellFormed(t) && IndexInv(t)
  {
    forall id | id in s.jobs
      ensures t.jobs[id].Id() == s.jobs[id].Id()
      ensures t.jobs[id].record.idempotencyKey == s.jobs[id].record.idempotencyKey
    {
      assert SameEnvelope(s.jobs[id].record, t.jobs[id].record);
    }
  }

  lemma EvolvesTransitive(a: Job, b: Job, c: Job)
    requires Evolves(a, b) && Evolves(b, c)
    ensures Evolves(a, c)
  {
  }

  // --------------------------------------------------------------- whole runs

  /** Over any interleaving: the invariant stays, jobs stay, and no history is rewritten. */
  lemma {:induction false} RunPreserves(s: Store, actions: seq<Action>)
    requires StoreInv(s) && AllLegal(actions)
    ensures StoreInv(Run(s, actions))
    ensures forall id <- s.jobs :: id in Run(s, actions).jobs && Evolves(s.jobs[id], Run(s, actions).jobs[id])
    decreases |actions|
  {
    if actions != [] {
      var t := Apply(s, actions[0]);
      assert actions[0] in actions;
      ApplyPreserves(s, actions[0]);
      assert forall a <- actions[1..] :: a in actions;
      RunPreserves(t, actions[1..]);
      forall id | id in s.jobs
        ensures Evolves(s.jobs[id], Run(s, actions).jobs[id])
      {
        EvolvesTransitive(s.jobs[id], t.jobs[id], Run(s, actions).jobs[id]);
      }
    }
  }

  lemma ReachableInv(actions: seq<Action>)
    requires AllLegal(actions)
    ensures StoreInv(Run(EMPTY, actions))
  {
    RunPreserves(EMPTY, actions);
  }

  lemma {:induction false} RunSplit(s: Store, first: seq<Action>, rest: seq<Action>)
    ensures Run(s, first + rest) == Run(Run(s, first), rest)
    decreases |first|
  {
    if first == [] {
      assert first + rest == rest;
    } else {
      assert (first + rest)[1..] == first[1..] + rest;
      RunSplit(Apply(s, first[0]), first[1..], rest);
    }
  }

  // ------------------------------------------------------- one job's own view

  function DoAll(j: Job, ops: seq<Op>): Job
    decreases |ops|
  {
    if ops == [] then j else DoAll(Do(j, ops[0]), ops[1..])
  }

  /** The operations a run performs on one job, in order. */
  function Ops(s: Store, actions: seq<Action>, id: string): seq<Op>
    requires id in s.jobs
    decreases |actions|
  {
    if actions == [] then []
    else
      var mine := LocalOp(s, actions[0], id);
      (if mine.Some? then [mine.value] else []) + Ops(Apply(s, actions[0]), actions[1..], id)
  }

  predicate AllCarry(ops: seq<Op>, id: string) {
    forall op <- ops :: Carries(op, id)
  }

  /** A run touches a job only through that job's operations. */
  lemma {:induction false} RunOnJob(s: Store, actions: seq<Action>, id: string)
    requires id in s.jobs
    ensures id in Run(s, actions).jobs
    ensures Run(s, actions).jobs[id] == DoAll(s.jobs[id], Ops(s, actions, id))
    ensures AllLegal(actions) ==> AllCarry(Ops(s, actions, id), id)
    decreases |actions|
  {
    if actions != [] {
      var t := Apply(s, actions[0]);
      ApplyOnJob(s, actions[0], id);
      RunOnJob(t, actions[1..], id);
      var mine := LocalOp(s, actions[0], id);
      if mine.Some? {
        assert Ops(s, actions, id)[1..] == Ops(t, actions[1..], id);
      } else {
        assert Ops(s, actions, id) == Ops(t, actions[1..], id);
      }
      assert actions[0] in actions && forall b <- actions[1..] :: b in actions;
    }
  }

  lemma {:induction false} DoAllInv(j: Job, ops: seq<Op>)
    requires JobInv(j) && AllCarry(ops, j.Id())
    ensures JobInv(DoAll(j, ops)) && DoAll(j, ops).Id() == j.Id()
    decreases |ops|
  {
    if ops != [] {
      assert ops[0] in ops && forall op <- ops[1..] :: op in ops;
      StepInv(j, ops[0]);
      StepEvolves(j, ops[0]);
      DoAllInv(Do(j, ops[0]), ops[1..]);
    }
  }

  // ------------------------------------------------- the same step on many jobs

  lemma {:induction false} DistinctSize(ids: seq<string>)
    requires Distinct(ids)
    ensures |set id | id in ids| == |ids|
  {
    if ids != [] {
      var init := ids[..|ids| - 1];
      DistinctSize(init);
      assert (set id | id in ids) == (set id | id in init) + {Last(ids)};
      assert Last(ids) !in (set id | id in init);
    }
  }

  function OnEach(s: Store, ids: seq<string>, op: Op): Store {
    if ids == [] then s else OnJob(OnEach(s, ids[..|ids| - 1], op), Last(ids), op)
  }

  lemma {:induction false} OnEachAt(s: Store, ids: seq<string>, op: Op, id: string)
    requires id in s.jobs && Distinct(ids)
    ensures OnEach(s, ids, op).jobs.Keys == s.jobs.Keys
    ensures OnEach(s, ids, op).order == s.order && OnEach(s, ids, op).index == s.index
    ensures OnEach(s, ids, op).jobs[id] == if id in ids then Do(s.jobs[id], op) else s.jobs[id]
  {
    if ids != [] {
      OnEachAt(s, ids[..|ids| - 1], op, id);
      assert ids == ids[..|ids| - 1] + [Last(ids)];
    }
  }

  /** Recovering the stale jobs one by one is recovering all jobs at once. */
  lemma OnEachIsOnAll(s: Store, ids: seq<string>, op: Op)
    requires Distinct(ids) && forall id :: id in ids <==> id in s.jobs && Accepts(s.jobs[id].record, op)
    ensures OnEach(s, ids, op) == OnAll(s, op)
  {
    forall id | id in s.jobs
      ensures id in OnEach(s, ids, op).jobs && OnEach(s, ids, op).jobs[id] == OnAll(s, op).jobs[id]
    {
      OnEachAt(s, ids, op, id);
    }
    OnEachKeys(s, ids, op);
    assert OnEach(s, ids, op).jobs == OnAll(s, op).jobs;
  }

  lemma OnEachKeys(s: Store, ids: seq<string>, op: Op)
    ensures OnEach(s, ids, op).jobs.Keys == s.jobs.Keys
    ensures OnEach(s, ids, op).order == s.order && OnEach(s, ids, op).index == s.index
  {
  }
}
