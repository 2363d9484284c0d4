/**
 Runs from two empty stores after which the in-memory and the PostgreSQL store,
 alike at every step before, are told apart by one more call.
 */
module StoreDifferences {
  import opened Wrappers
  import opened JobQueue
  import opened QueueInvariants
  import opened QueueTheorems
  import opened PostgresStore

  /** A legal run from two empty stores, each query answered as it really is, in which every call agrees. */
  predicate InStep(ts: seq<Transaction>) {
    AllLegal(Actions(ts)) && AllAnswered(NOTHING, ts) && AllAgree(NOTHING, EMPTY, ts)
  }

  /** The stores hold the same jobs throughout the run, and no longer after one more call. */
  predicate Diverges(ts: seq<Transaction>, last: Transaction) {
    var db, s := TxRun(NOTHING, ts), Run(EMPTY, Actions(ts));
    && InStep(ts) && SameThroughout(NOTHING, EMPTY, ts) && Answered(db, last)
    && Refines(db, s) && !Refines(TxApply(db, last), Apply(s, last.action))
  }

  lemma {:induction false} RunsOneMore(db: Db, s: Store, ts: seq<Transaction>, t: Transaction)
    ensures TxRun(db, ts + [t]) == TxApply(TxRun(db, ts), t)
    ensures Actions(ts + [t]) == Actions(ts) + [t.action]
    ensures Run(s, Actions(ts + [t])) == Apply(Run(s, Actions(ts)), t.action)
    ensures AllAnswered(db, ts + [t]) <==> AllAnswered(db, ts) && Answered(TxRun(db, ts), t)
    ensures AllAgree(db, s, ts + [t])
      <==> AllAgree(db, s, ts) && StepAgrees(TxRun(db, ts), Run(s, Actions(ts)), t.action)
    decreases |ts|
  {
    if ts == [] {
      assert ts + [t] == [t] + [];
      Unrolled(db, s, t, []);
    } else {
      var rest := ts[1..];
      assert ts + [t] == [ts[0]] + (rest + [t]) && ts == [ts[0]] + rest;
      Unrolled(db, s, ts[0], rest + [t]);
      Unrolled(db, s, ts[0], rest);
      RunsOneMore(TxApply(db, ts[0]), Apply(s, ts[0].action), rest, t);
    }
  }

  lemma InStepMore(ts: seq<Transaction>, t: Transaction)
    requires InStep(ts) && Legal(t.action) && Answered(TxRun(NOTHING, ts), t)
    requires StepAgrees(TxRun(NOTHING, ts), Run(EMPTY, Actions(ts)), t.action)
    ensures InStep(ts + [t])
    ensures TxRun(NOTHING, ts + [t]) == TxApply(TxRun(NOTHING, ts), t)
    ensures Run(EMPTY, Actions(ts + [t])) == Apply(Run(EMPTY, Actions(ts)), t.action)
  {
    RunsOneMore(NOTHING, EMPTY, ts, t);
  }

  lemma InStepSame(ts: seq<Transaction>)
    requires InStep(ts)
    ensures SameThroughout(NOTHING, EMPTY, ts) && Refines(TxRun(NOTHING, ts), Run(EMPTY, Actions(ts)))
  {
    assert Refines(NOTHING, EMPTY) && StoreInv(EMPTY);
    RunRefinesIff(NOTHING, EMPTY, ts);
  }

  /** A call that does not agree tells the stores apart. */
  lemma DisagreementDiverges(ts: seq<Transaction>, last: Transaction)
    requires InStep(ts) && Answered(TxRun(NOTHING, ts), last)
    requires !StepAgrees(TxRun(NOTHING, ts), Run(EMPTY, Actions(ts)), last.action)
    ensures Diverges(ts, last)
  {
    InStepSame(ts);
    ReachableInv(Actions(ts));
    StepRefinesIff(TxRun(NOTHING, ts), Run(EMPTY, Actions(ts)), last);
  }

  lemma NothingYet()
    ensures InStep([]) && TxRun(NOTHING, []) == NOTHING && Run(EMPTY, Actions([])) == EMPTY
  {
  }

  /** A record submitted in any other status than queued, as inline execution does. */
  lemma UnqueuedRecordDiverges(r: QueueRecord)
    requires !r.state.status.Queued?
    ensures Diverges([], Transaction(Enqueue(r, 0), [], 0))
  {
    NothingYet();
    DisagreementDiverges([], Transaction(Enqueue(r, 0), [], 0));
  }

  // ------------------------------------------------------------- one running job

  function Submitted(r: QueueRecord): Transaction { Transaction(Enqueue(r, 0), [], 0) }
  function Claimed(id: string): Transaction { Transaction(ClaimNext("W", 9, 0), [id], 0) }

  /** The claim of the only ready job: the query returns it, and both stores take it. */
  lemma OnlyReady(ts: seq<Transaction>, id: string, w: string, lease: int)
    requires InStep(ts)
    requires var s := Run(EMPTY, Actions(ts));
      && id in s.jobs && Claimable(s.jobs[id].record, 0)
      && forall x <- s.jobs :: x != id ==> !Claimable(s.jobs[x].record, 0)
    ensures var s, t := Run(EMPTY, Actions(ts)), Transaction(ClaimNext(w, lease, 0), [id], 0);
      && SelectNext(s.jobs, s.order, 0) == Some(id)
      && Answered(TxRun(NOTHING, ts), t) && StepAgrees(TxRun(NOTHING, ts), s, t.action)
  {
    var db, s := TxRun(NOTHING, ts), Run(EMPTY, Actions(ts));
    InStepSame(ts);
    ReachableInv(Actions(ts));
    SelectNextExists(s.jobs, s.order, 0);
    assert id in s.order;
    SelectedIsFirst(s, 0, SelectNext(s.jobs, s.order, 0).value);
    ClaimQueryAgreesIff(db, s, 0, id);
  }

  lemma QueuedInStep(r: QueueRecord)
    requires Fresh(r)
    ensures InStep([Submitted(r)]) && Run(EMPTY, Actions([Submitted(r)])) == OneQueued(r)
  {
    NothingYet();
    assert [] + [Submitted(r)] == [Submitted(r)];
    InStepMore([], Submitted(r));
  }

  lemma OneReady(r: QueueRecord)
    requires Fresh(r)
    ensures var s, id := OneQueued(r), r.state.jobId;
      && id in s.jobs && Claimable(s.jobs[id].record, 0)
      && forall x <- s.jobs :: x != id ==> !Claimable(s.jobs[x].record, 0)
  {
    assert OneQueued(r) == WithNew(EMPTY, r, 0);
  }

  lemma RunningInStep(r: QueueRecord)
    requires Fresh(r)
    ensures var ts := [Submitted(r), Claimed(r.state.jobId)];
      InStep(ts) && Run(EMPTY, Actions(ts)) == OneRunning(r)
  {
    var ts, claim := [Submitted(r)], Claimed(r.state.jobId);
    QueuedInStep(r);
    OneReady(r);
    OnlyReady(ts, r.state.jobId, "W", 9);
    InStepMore(ts, claim);
    assert ts + [claim] == [Submitted(r), claim];
  }

  /** What the one running job looks like to a canceller and to a recoverer. */
  lemma RunningRecord(r: QueueRecord)
    requires Fresh(r)
    ensures var q := Do(EnqueuedJob(r, 0), Claim("W", 9, 0)).record;
      && Stale(q, 9) && (r.maxAttempts >= 2 ==> !Agrees(q, Recover(-1, 9)))
      && Agrees(q, Cancel(1)) && Accepts(q, Cancel(1)) && NextRecord(q, Cancel(1)).state.status == CancelRequested
  {
  }

  /** A job that is to be retried, recovered with a negative delay. */
  lemma NegativeDelayDiverges(r: QueueRecord)
    requires Fresh(r) && r.maxAttempts >= 2
    ensures Diverges([Submitted(r), Claimed(r.state.jobId)], Transaction(RecoverAll(-1, 9), [r.state.jobId], 0))
  {
    var ts, id := [Submitted(r), Claimed(r.state.jobId)], r.state.jobId;
    RunningInStep(r);
    RunningRecord(r);
    OnlyStale(TxRun(NOTHING, ts), r);
    DisagreementDiverges(ts, Transaction(RecoverAll(-1, 9), [id], 0));
  }

  lemma OnlyStale(db: Db, r: QueueRecord)
    requires Fresh(r) && InStep([Submitted(r), Claimed(r.state.jobId)])
    requires db == TxRun(NOTHING, [Submitted(r), Claimed(r.state.jobId)])
    requires Run(EMPTY, Actions([Submitted(r), Claimed(r.state.jobId)])) == OneRunning(r)
    ensures r.state.jobId in StaleJobs(OneRunning(r), 9)
    ensures OneRunning(r).jobs[r.state.jobId] == Do(EnqueuedJob(r, 0), Claim("W", 9, 0))
    ensures RecoveryQueryReturns(db, 9, [r.state.jobId])
  {
    InStepSame([Submitted(r), Claimed(r.state.jobId)]);
    OneRunningJob(r);
    RunningRecord(r);
    EligibleIffClaimable(db, OneRunning(r), r.state.jobId, 9);
    assert db.rows.Keys == {r.state.jobId};
  }

  /** A running job that is cancelled twice. */
  lemma RepeatedCancelDiverges(r: QueueRecord)
    requires Fresh(r)
    ensures var id := r.state.jobId;
      Diverges([Submitted(r), Claimed(id), Transaction(On(id, Cancel(1)), [], 0)], Transaction(On(id, Cancel(2)), [], 0))
  {
    var ts, id := [Submitted(r), Claimed(r.state.jobId)], r.state.jobId;
    var cancel := Transaction(On(id, Cancel(1)), [], 0);
    RunningInStep(r);
    RunningRecord(r);
    OneRunningJob(r);
    InStepMore(ts, cancel);
    assert ts + [cancel] == [Submitted(r), Claimed(id), cancel];
    DisagreementDiverges(ts + [cancel], Transaction(On(id, Cancel(2)), [], 0));
  }

  // ------------------------------------------------------- more than a batch

  /** A fresh record for each number, under an id of that length. */
  function Numbered(n: nat): QueueRecord {
    QueueRecord(RCAState(seq(n, i => 'x'), 0, Queued, ""), "", "", None, "", 0, 0, 1,
                None, None, None, None, None, None, None, None, None, 0)
  }

  /** So many jobs, each with a lease that has run out by time 9. */
  predicate AllStale(s: Store, n: nat) {
    |s.jobs.Keys| == n && forall id <- s.jobs :: |id| < n && Stale(s.jobs[id].record, 9)
  }

  lemma {:induction false} ManyStale(n: nat) returns (ts: seq<Transaction>)
    ensures InStep(ts) && AllStale(Run(EMPTY, Actions(ts)), n)
  {
    if n == 0 {
      ts := [];
      NothingYet();
    } else {
      var before := ManyStale(n - 1);
      ts := OneMoreStale(before, n - 1);
    }
  }

  lemma OneMoreStale(before: seq<Transaction>, n: nat) returns (ts: seq<Transaction>)
    requires InStep(before) && AllStale(Run(EMPTY, Actions(before)), n)
    ensures InStep(ts) && AllStale(Run(EMPTY, Actions(ts)), n + 1)
  {
    var r := Numbered(n);
    var id, s := r.state.jobId, Run(EMPTY, Actions(before));
    var queued := before + [Submitted(r)];
    assert id !in s.jobs;
    OneMoreQueued(before, r);
    NothingElseReady(s, r, n);
    OnlyReady(queued, id, "W", 9);
    InStepMore(queued, Claimed(id));
    ts := queued + [Claimed(id)];
    AddedStale(s, WithNew(s, r, 0), r, n);
  }

  lemma OneMoreQueued(before: seq<Transaction>, r: QueueRecord)
    requires InStep(before) && Fresh(r) && r.idempotencyKey.None? && r.state.jobId !in Run(EMPTY, Actions(before)).jobs
    ensures InStep(before + [Submitted(r)])
    ensures Run(EMPTY, Actions(before + [Submitted(r)])) == WithNew(Run(EMPTY, Actions(before)), r, 0)
  {
    InStepMore(before, Submitted(r));
  }

  lemma NothingElseReady(s: Store, r: QueueRecord, n: nat)
    requires AllStale(s, n) && r == Numbered(n) && r.state.jobId !in s.jobs
    ensures var q, id := WithNew(s, r, 0), r.state.jobId;
      && id in q.jobs && Claimable(q.jobs[id].record, 0)
      && forall x <- q.jobs :: x != id ==> !Claimable(q.jobs[x].record, 0)
  {
    var q, id := WithNew(s, r, 0), r.state.jobId;
    assert forall x <- q.jobs :: x != id ==> x in s.jobs && q.jobs[x] == s.jobs[x];
  }

  lemma AddedStale(s: Store, q: Store, r: QueueRecord, n: nat)
    requires AllStale(s, n) && r == Numbered(n) && r.state.jobId !in s.jobs && q == WithNew(s, r, 0)
    ensures AllStale(OnJob(q, r.state.jobId, Claim("W", 9, 0)), n + 1)
  {
    var id := r.state.jobId;
    var t := OnJob(q, id, Claim("W", 9, 0));
    assert t.jobs.Keys == s.jobs.Keys + {id};
    forall x <- t.jobs ensures |x| < n + 1 && Stale(t.jobs[x].record, 9) {
      assert x == id || t.jobs[x] == s.jobs[x];
    }
  }

  /** Any `k` elements of a set that has as many, in some order. */
  lemma {:induction false} SomeOf(s: set<string>, k: nat) returns (ids: seq<string>)
    requires k <= |s|
    ensures |ids| == k && Distinct(ids) && forall id <- ids :: id in s
    decreases k
  {
    ids := [];
    if k > 0 {
      var x :| x in s;
      var rest := SomeOf(s - {x}, k - 1);
      assert forall i | 0 <= i < |rest| :: rest[i] in rest;
      ids := [x] + rest;
    }
  }

  /** The recovery query has an answer of a full batch when every job is stale. */
  lemma FullBatch(db: Db, s: Store, n: nat) returns (ids: seq<string>)
    requires Refines(db, s) && AllStale(s, n) && n >= BATCH
    ensures |ids| == BATCH && RecoveryQueryReturns(db, 9, ids)
  {
    ids := SomeOf(s.jobs.Keys, BATCH);
    forall id <- ids ensures id in db.rows && Stale(db.rows[id].record, 9) {
      EligibleIffClaimable(db, s, id, 9);
    }
  }

  lemma AllAreStale(s: Store, n: nat)
    requires AllStale(s, n)
    ensures |StaleJobs(s, 9)| == n
  {
    assert StaleJobs(s, 9) == s.jobs.Keys;
  }

  /** With 101 stale jobs one recovery leaves one behind in the database. */
  lemma LargeRecoveryDiverges() returns (ts: seq<Transaction>, ids: seq<string>)
    ensures Diverges(ts, Transaction(RecoverAll(0, 9), ids, 0))
    ensures |StaleJobs(Run(EMPTY, Actions(ts)), 9)| == BATCH + 1 && |ids| == BATCH
  {
    ts := ManyStale(BATCH + 1);
    InStepSame(ts);
    AllAreStale(Run(EMPTY, Actions(ts)), BATCH + 1);
    ids := FullBatch(TxRun(NOTHING, ts), Run(EMPTY, Actions(ts)), BATCH + 1);
    DisagreementDiverges(ts, Transaction(RecoverAll(0, 9), ids, 0));
  }

  // ------------------------------------------------- a creation time that moves

  function EarlyFailure(partial: RCAState): Op { Fail("W", WorkerError(""), true, 0, Some(partial), None, 0) }

  function Failing(id: string, partial: RCAState): Transaction { Transaction(On(id, EarlyFailure(partial)), [], 0) }
  function FirstClaim(id: string): Transaction { Transaction(ClaimNext("W", 1, 0), [id], 0) }

  /** Submit two jobs, claim the earlier, and let it fail with a partial state created after the other. */
  function Reordering(a: QueueRecord, b: QueueRecord, partial: RCAState): seq<Transaction> {
    [Submitted(a), Submitted(b), FirstClaim(a.state.jobId), Failing(a.state.jobId, partial)]
  }

  predicate Reorders(a: QueueRecord, b: QueueRecord, partial: RCAState) {
    && Fresh(a) && Fresh(b) && a.state.jobId != b.state.jobId && a.idempotencyKey.None? && b.idempotencyKey.None?
    && a.priority == b.priority && a.maxAttempts >= 2 && partial.jobId == a.state.jobId
    && a.state.createdAt < b.state.createdAt < partial.createdAt
  }

  /** Both stores with exactly two waiting jobs and the given creation columns. */
  predicate TwoJobs(db: Db, s: Store, a: string, b: string, ra: QueueRecord, rb: QueueRecord, columnA: int, columnB: int) {
    && a != b && s.order == [a, b] && s.jobs.Keys == {a, b} && db.rows.Keys == {a, b}
    && s.jobs[a].record == ra && s.jobs[b].record == rb
    && db.rows[a].createdAt == columnA && db.rows[b].createdAt == columnB
  }

  lemma OpOnFirst(db: Db, s: Store, a: string, b: string, ra: QueueRecord, rb: QueueRecord,
                                     columnA: int, columnB: int, op: Op)
    requires TwoJobs(db, s, a, b, ra, rb, columnA, columnB) && SameJob(db, a, s.jobs[a])
    requires Accepts(ra, op) && Agrees(ra, op)
    ensures TwoJobs(Tx(db, a, op, 0), OnJob(s, a, op), a, b, NextRecord(ra, op), rb, columnA, columnB)
  {
    RowWritten(db, s, a, op, 0);
    assert OnJob(s, a, op).jobs[b] == s.jobs[b] && OnJob(s, a, op).jobs[a] == Do(s.jobs[a], op);
  }

  /** With two ready jobs of one priority each store goes by its own creation time. */
  lemma EachByItsOwnTime(db: Db, s: Store, a: string, b: string, ra: QueueRecord, rb: QueueRecord,
                                            columnA: int, columnB: int, now: int)
    requires TwoJobs(db, s, a, b, ra, rb, columnA, columnB) && Refines(db, s)
    requires Claimable(ra, now) && Claimable(rb, now) && ra.priority == rb.priority
    ensures columnA < columnB ==> ClaimQueryReturns(db, now, a)
    ensures ra.state.createdAt < rb.state.createdAt ==> SelectNext(s.jobs, s.order, now) == Some(a)
    ensures ra.state.createdAt > rb.state.createdAt ==> SelectNext(s.jobs, s.order, now) == Some(b)
  {
    EligibleIffClaimable(db, s, a, now);
    EligibleIffClaimable(db, s, b, now);
    assert s.order[..1] == [a] && [a][..0] == [];
    assert SelectNext(s.jobs, [], now) == None;
    assert SelectNext(s.jobs, [a], now) == Some(a);
  }

  lemma FailedRecord(a: QueueRecord, b: QueueRecord, partial: RCAState)
    requires Reorders(a, b, partial)
    ensures var fail, claimed := EarlyFailure(partial), NextRecord(a, Claim("W", 1, 0));
      && Accepts(claimed, fail) && Agrees(claimed, fail) && Carries(fail, a.state.jobId)
      && Claimable(b, 0) && Claimable(NextRecord(claimed, fail), 0)
      && NextRecord(claimed, fail).priority == b.priority
      && NextRecord(claimed, fail).state.createdAt == partial.createdAt
  {
  }

  lemma TwoSubmitted(a: QueueRecord, b: QueueRecord, partial: RCAState)
    requires Reorders(a, b, partial)
    ensures var ts := [Submitted(a), Submitted(b)];
      && InStep(ts)
      && TwoJobs(TxRun(NOTHING, ts), Run(EMPTY, Actions(ts)), a.state.jobId, b.state.jobId, a, b,
                 a.state.createdAt, b.state.createdAt)
  {
    NothingYet();
    assert [] + [Submitted(a)] == [Submitted(a)] && [Submitted(a)] + [Submitted(b)] == [Submitted(a), Submitted(b)];
    InStepMore([], Submitted(a));
    var s := Run(EMPTY, Actions([Submitted(a)]));
    assert s == WithNew(EMPTY, a, 0);
    InStepMore([Submitted(a)], Submitted(b));
  }

  /** One more call on the first of two jobs. */
  lemma CallOnFirst(ts: seq<Transaction>, t: Transaction, a: string, b: string, ra: QueueRecord,
                                       rb: QueueRecord, columnA: int, columnB: int, op: Op)
    requires InStep(ts) && TwoJobs(TxRun(NOTHING, ts), Run(EMPTY, Actions(ts)), a, b, ra, rb, columnA, columnB)
    requires Accepts(ra, op) && Agrees(ra, op) && Legal(t.action) && Answered(TxRun(NOTHING, ts), t)
    requires TxApply(TxRun(NOTHING, ts), t) == Tx(TxRun(NOTHING, ts), a, op, 0)
    requires Apply(Run(EMPTY, Actions(ts)), t.action) == OnJob(Run(EMPTY, Actions(ts)), a, op)
    requires StepAgrees(TxRun(NOTHING, ts), Run(EMPTY, Actions(ts)), t.action)
    ensures InStep(ts + [t])
    ensures TwoJobs(TxRun(NOTHING, ts + [t]), Run(EMPTY, Actions(ts + [t])), a, b, NextRecord(ra, op), rb, columnA, columnB)
  {
    var db, s := TxRun(NOTHING, ts), Run(EMPTY, Actions(ts));
    InStepMore(ts, t);
    InStepSame(ts);
    RowsAreJobs(db, s, a);
    OpOnFirst(db, s, a, b, ra, rb, columnA, columnB, op);
  }

  lemma RowsAreJobs(db: Db, s: Store, id: string)
    requires Refines(db, s) && id in s.jobs
    ensures SameJob(db, id, s.jobs[id])
  {
  }

  /** The first claim takes the earlier job in both stores. */
  lemma EarlierClaimed(ts: seq<Transaction>, a: QueueRecord, b: QueueRecord)
    requires InStep(ts) && Fresh(a) && Fresh(b) && a.priority == b.priority && a.state.createdAt < b.state.createdAt
    requires TwoJobs(TxRun(NOTHING, ts), Run(EMPTY, Actions(ts)), a.state.jobId, b.state.jobId, a, b,
                     a.state.createdAt, b.state.createdAt)
    ensures var db, s, t := TxRun(NOTHING, ts), Run(EMPTY, Actions(ts)), FirstClaim(a.state.jobId);
      && Answered(db, t) && StepAgrees(db, s, t.action)
      && Apply(s, t.action) == OnJob(s, a.state.jobId, Claim("W", 1, 0))
  {
    var db, s := TxRun(NOTHING, ts), Run(EMPTY, Actions(ts));
    InStepSame(ts);
    ReachableInv(Actions(ts));
    EachByItsOwnTime(db, s, a.state.jobId, b.state.jobId, a, b, a.state.createdAt, b.state.createdAt, 0);
    ClaimQueryAgreesIff(db, s, 0, a.state.jobId);
  }

  lemma FirstClaimed(a: QueueRecord, b: QueueRecord, partial: RCAState)
    requires Reorders(a, b, partial)
    ensures var ts := [Submitted(a), Submitted(b), FirstClaim(a.state.jobId)];
      && InStep(ts)
      && TwoJobs(TxRun(NOTHING, ts), Run(EMPTY, Actions(ts)), a.state.jobId, b.state.jobId,
                 NextRecord(a, Claim("W", 1, 0)), b, a.state.createdAt, b.state.createdAt)
  {
    var ts, id, other := [Submitted(a), Submitted(b)], a.state.jobId, b.state.jobId;
    TwoSubmitted(a, b, partial);
    EarlierClaimed(ts, a, b);
    CallOnFirst(ts, FirstClaim(id), id, other, a, b, a.state.createdAt, b.state.createdAt, Claim("W", 1, 0));
    assert ts + [FirstClaim(id)] == [Submitted(a), Submitted(b), FirstClaim(id)];
  }

  lemma FirstFailed(a: QueueRecord, b: QueueRecord, partial: RCAState)
    requires Reorders(a, b, partial)
    ensures var ts := Reordering(a, b, partial);
      && InStep(ts)
      && TwoJobs(TxRun(NOTHING, ts), Run(EMPTY, Actions(ts)), a.state.jobId, b.state.jobId,
                 NextRecord(NextRecord(a, Claim("W", 1, 0)), EarlyFailure(partial)), b,
                 a.state.createdAt, b.state.createdAt)
  {
    var ts := [Submitted(a), Submitted(b), FirstClaim(a.state.jobId)];
    FirstClaimed(a, b, partial);
    FailedRecord(a, b, partial);
    CallOnFirst(ts, Failing(a.state.jobId, partial), a.state.jobId, b.state.jobId, NextRecord(a, Claim("W", 1, 0)), b,
                a.state.createdAt, b.state.createdAt, EarlyFailure(partial));
    assert ts + [Failing(a.state.jobId, partial)] == Reordering(a, b, partial);
  }

  /** The failed job keeps its place in the database and loses it in memory: the next claim gives different jobs. */
  lemma FailureReordersClaims(a: QueueRecord, b: QueueRecord, partial: RCAState)
    requires Reorders(a, b, partial)
    ensures var ts := Reordering(a, b, partial);
      var db, s := TxRun(NOTHING, ts), Run(EMPTY, Actions(ts));
      && Diverges(ts, Transaction(ClaimNext("V", 1, 0), [a.state.jobId], 0))
      && ClaimQueryReturns(db, 0, a.state.jobId) && SelectNext(s.jobs, s.order, 0) == Some(b.state.jobId)
  {
    var ts, id, other := Reordering(a, b, partial), a.state.jobId, b.state.jobId;
    var db, s := TxRun(NOTHING, ts), Run(EMPTY, Actions(ts));
    FirstFailed(a, b, partial);
    FailedRecord(a, b, partial);
    InStepSame(ts);
    ReachableInv(Actions(ts));
    EachByItsOwnTime(db, s, id, other, NextRecord(NextRecord(a, Claim("W", 1, 0)), EarlyFailure(partial)), b,
                     a.state.createdAt, b.state.createdAt, 0);
    ClaimQueryAgreesIff(db, s, 0, other);
    OneAnswer(db, 0, other, id);
    DisagreementDiverges(ts, Transaction(ClaimNext("V", 1, 0), [id], 0));
  }
}
