/**
 Queue workers around the store.  Each worker process carries its own id, works
 on one claimed job at a time and remembers for which attempt its result was
 computed; the store is only told the worker id.  Heartbeat threads may outlive
 their job, workers may stop anywhere, and clocks may disagree.
 */
module WorkerFleet {
  import opened Wrappers
  import opened JobQueue
  import opened QueueInvariants
  import opened QueueTheorems
  import opened QueueHistory

  // What a worker is doing: nothing, or computing a result for one attempt of one job.
  datatype Work = Idle | Busy(jobId: string, attempt: nat)

  // Workers are keyed by id: two live workers never share one.
  datatype Fleet = Fleet(store: Store, workers: map<string, Work>)

  datatype Step =
    | Joins(w: string)
    | Claims(w: string, lease: int, now: int)
    | ClaimsOne(w: string, id: string, lease: int, now: int)  // other rows are locked and skipped
    | Beats(w: string, id: string, lease: int, now: int)
    | Reports(w: string, name: string, body: string, now: int)
    | Completes(w: string, state: RCAState, checkpoint: Option<string>, now: int)
    | Fails(w: string, error: Error, retryable: bool, retryAfter: int,
            partial: Option<RCAState>, checkpoint: Option<string>, now: int)
    | Returns(w: string)  // the attempt is over for this worker, committed or not
    | Outside(action: Action)

  predicate Environment(a: Action) {
    a.Enqueue? || a.RecoverAll? || (a.On? && (a.op.Cancel? || a.op.Recover?))
  }

  predicate Enabled(f: Fleet, s: Step) {
    if s.Outside? then Environment(s.action) && Legal(s.action)
    else if s.Joins? then s.w !in f.workers
    else
      && s.w in f.workers
      && (s.Claims? || s.ClaimsOne? ==> f.workers[s.w].Idle?)
      && (s.Reports? || s.Completes? || s.Fails? ==> f.workers[s.w].Busy? && Legal(StoreAction(f, s).value))
  }

  /** The store call a step makes; a worker commits only to the job it claimed. */
  function StoreAction(f: Fleet, s: Step): Option<Action> {
    match s
    case Claims(w, lease, now) => Some(ClaimNext(w, lease, now))
    case ClaimsOne(w, id, lease, now) => Some(On(id, Claim(w, lease, now)))
    case Beats(w, id, lease, now) => Some(On(id, Heartbeat(w, lease, now)))
    case Reports(w, name, body, now) => Some(On(JobOf(f, w), Progress(w, name, body, now)))
    case Completes(w, state, checkpoint, now) => Some(On(JobOf(f, w), Complete(w, state, checkpoint, now)))
    case Fails(w, error, retryable, retryAfter, partial, checkpoint, now) =>
      Some(On(JobOf(f, w), Fail(w, error, retryable, retryAfter, partial, checkpoint, now)))
    case Joins(_) | Returns(_) => None
    case Outside(a) => Some(a)
  }

  function JobOf(f: Fleet, w: string): string {
    if w in f.workers && f.workers[w].Busy? then f.workers[w].jobId else ""
  }

  /** The job a claiming step hands out, if it hands out one. */
  function Handed(f: Fleet, s: Step): Option<string> {
    var target := match s
      case Claims(_, _, now) => SelectNext(f.store.jobs, f.store.order, now)
      case ClaimsOne(_, id, _, _) => Some(id)
      case _ => None;
    if target.Some? && target.value in f.store.jobs && s.lease > 0
       && Claimable(f.store.jobs[target.value].record, s.now)
    then target else None
  }

  function Advance(f: Fleet, s: Step): Fleet {
    if !Enabled(f, s) then f
    else
      var store := match StoreAction(f, s) case None => f.store case Some(a) => Apply(f.store, a);
      var workers :=
        if s.Joins? || s.Returns? then f.workers[s.w := Idle]
        else if (s.Claims? || s.ClaimsOne?) && Handed(f, s).Some? then
          var id := Handed(f, s).value;
          f.workers[s.w := Busy(id, f.store.jobs[id].record.attemptCount + 1)]
        else f.workers;
      Fleet(store, workers)
  }

  function Runs(f: Fleet, steps: seq<Step>): Fleet
    decreases |steps|
  {
    if steps == [] then f else Runs(Advance(f, steps[0]), steps[1..])
  }

  /** A worker's attempt is recorded under its id, and is the newest whenever it holds the lease. */
  predicate WorkInv(store: Store, w: string, work: Work) {
    work.Busy? ==>
      && work.jobId in store.jobs
      && var j := store.jobs[work.jobId];
      && 1 <= work.attempt <= |j.attempts|
      && j.attempts[work.attempt - 1].workerId == w
      && (j.record.leaseOwner == Some(w) ==> j.record.attemptCount == work.attempt)
  }

  predicate FleetInv(f: Fleet) {
    StoreInv(f.store) && forall w <- f.workers :: WorkInv(f.store, w, f.workers[w])
  }

  /** Only a claim gives a job a new owner. */
  lemma OwnerChangesByClaim(r: QueueRecord, op: Op)
    requires Accepts(r, op) && NextRecord(r, op).leaseOwner.Some? && !op.Claim?
    ensures NextRecord(r, op).leaseOwner == r.leaseOwner && NextRecord(r, op).attemptCount == r.attemptCount
  {
  }

  /** What one store step does to the owner of one job. */
  lemma OwnerStep(s: Store, a: Action, id: string)
    requires StoreInv(s) && Legal(a) && id in s.jobs
    ensures id in Apply(s, a).jobs
    ensures var r, q := s.jobs[id].record, Apply(s, a).jobs[id].record;
            q.leaseOwner.Some? ==>
              || (q.leaseOwner == r.leaseOwner && q.attemptCount == r.attemptCount)
              || (LocalOp(s, a, id).Some? && LocalOp(s, a, id).value.Claim?
                  && q.leaseOwner == Some(LocalOp(s, a, id).value.worker))
  {
    ApplyOnJob(s, a, id);
    if LocalOp(s, a, id).Some? && !LocalOp(s, a, id).value.Claim? {
      var op := LocalOp(s, a, id).value;
      if Accepts(s.jobs[id].record, op) && NextRecord(s.jobs[id].record, op).leaseOwner.Some? {
        OwnerChangesByClaim(s.jobs[id].record, op);
      }
    }
  }

  /** A store step that lets `w` claim nothing keeps what is known of `w`. */
  lemma WorkKept(s: Store, a: Action, w: string, work: Work)
    requires StoreInv(s) && Legal(a) && WorkInv(s, w, work)
    requires work.Busy? && LocalOp(s, a, work.jobId).Some? && LocalOp(s, a, work.jobId).value.Claim? ==>
               LocalOp(s, a, work.jobId).value.worker != w
    ensures WorkInv(Apply(s, a), w, work)
  {
    if work.Busy? {
      JobStep(s, a, work.jobId);
      OwnerStep(s, a, work.jobId);
    }
  }

  /** The worker that was handed a job is recorded as running its newest attempt. */
  lemma HandedWork(s: Store, a: Action, w: string, id: string)
    requires StoreInv(s) && Legal(a) && id in s.jobs
    requires LocalOp(s, a, id).Some? && LocalOp(s, a, id).value.Claim? && LocalOp(s, a, id).value.worker == w
    requires Accepts(s.jobs[id].record, LocalOp(s, a, id).value)
    ensures WorkInv(Apply(s, a), w, Busy(id, s.jobs[id].record.attemptCount + 1))
  {
    ApplyOnJob(s, a, id);
  }

  lemma StepLegal(f: Fleet, s: Step)
    requires Enabled(f, s) && StoreAction(f, s).Some?
    ensures Legal(StoreAction(f, s).value)
  {
  }

  lemma ClaimantKept(f: Fleet, s: Step)
    requires FleetInv(f) && Enabled(f, s) && (s.Claims? || s.ClaimsOne?)
    ensures WorkInv(Advance(f, s).store, s.w, Advance(f, s).workers[s.w])
  {
    var a := StoreAction(f, s).value;
    StepLegal(f, s);
    if Handed(f, s).Some? {
      HandedWork(f.store, a, s.w, Handed(f, s).value);
    } else {
      WorkKept(f.store, a, s.w, f.workers[s.w]);
    }
  }

  lemma WorkerKept(f: Fleet, s: Step, w: string)
    requires FleetInv(f) && Enabled(f, s) && w in Advance(f, s).workers
    ensures WorkInv(Advance(f, s).store, w, Advance(f, s).workers[w])
  {
    if StoreAction(f, s).Some? {
      var a := StoreAction(f, s).value;
      StepLegal(f, s);
      if (s.Claims? || s.ClaimsOne?) && s.w == w {
        ClaimantKept(f, s);
      } else {
        OthersClaim(f, s, w);
        WorkKept(f.store, a, w, f.workers[w]);
      }
    }
  }

  /** A step that is not a claim by `w` claims nothing for `w`. */
  lemma OthersClaim(f: Fleet, s: Step, w: string)
    requires Enabled(f, s) && StoreAction(f, s).Some? && !((s.Claims? || s.ClaimsOne?) && s.w == w)
    ensures forall id :: LocalOp(f.store, StoreAction(f, s).value, id).Some?
                         && LocalOp(f.store, StoreAction(f, s).value, id).value.Claim?
                         ==> LocalOp(f.store, StoreAction(f, s).value, id).value.worker != w
  {
  }

  lemma AdvanceKeepsInv(f: Fleet, s: Step)
    requires FleetInv(f)
    ensures FleetInv(Advance(f, s))
  {
    if Enabled(f, s) {
      if StoreAction(f, s).Some? {
        StepLegal(f, s);
        ApplyPreserves(f.store, StoreAction(f, s).value);
      }
      forall w | w in Advance(f, s).workers
        ensures WorkInv(Advance(f, s).store, w, Advance(f, s).workers[w])
      {
        WorkerKept(f, s, w);
      }
    }
  }

  lemma {:induction false} FleetRunInv(f: Fleet, steps: seq<Step>)
    requires FleetInv(f)
    ensures FleetInv(Runs(f, steps))
    decreases |steps|
  {
    if steps != [] {
      AdvanceKeepsInv(f, steps[0]);
      FleetRunInv(Advance(f, steps[0]), steps[1..]);
    }
  }

  /** Whatever the interleaving, a result the store accepts was computed for the newest attempt:
      it closes exactly that attempt, which its worker still runs, and touches no other. No other
      worker could have written anything to the job instead. */
  lemma AcceptedResultIsForItsOwnAttempt(steps: seq<Step>, w: string, op: Op)
    requires var f := Runs(Fleet(EMPTY, map[]), steps);
             && w in f.workers && f.workers[w].Busy? && f.workers[w].jobId in f.store.jobs
             && (op.Complete? || op.Fail?) && op.worker == w
             && Accepts(f.store.jobs[f.workers[w].jobId].record, op)
    ensures var f := Runs(Fleet(EMPTY, map[]), steps);
            var j, k := f.store.jobs[f.workers[w].jobId], f.workers[w].attempt;
            && 1 <= k == |j.attempts| && j.attempts[k - 1].workerId == w && j.attempts[k - 1].status.InProgress?
            && Do(j, op).attempts == j.attempts[k - 1 := Amend(j.attempts[k - 1], Closing(j.record, op))]
            && Do(j, op).attempts[k - 1].completedAt == Some(op.now) && !Do(j, op).attempts[k - 1].status.InProgress?
            && Do(j, op).attempts[k - 1].checkpoint == op.checkpoint
            && forall other: Op | UnderLease(other) && other.worker != w :: !Accepts(j.record, other)
  {
    FleetRunInv(Fleet(EMPTY, map[]), steps);
    var f := Runs(Fleet(EMPTY, map[]), steps);
    ClosesOwnAttempt(f.store.jobs[f.workers[w].jobId], f.workers[w].attempt, w, op);
  }

  lemma ClosesOwnAttempt(j: Job, k: nat, w: string, op: Op)
    requires JobInv(j) && (op.Complete? || op.Fail?) && op.worker == w && Accepts(j.record, op)
    requires j.record.leaseOwner == Some(w) ==> j.record.attemptCount == k
    ensures 1 <= k == |j.attempts| && j.attempts[k - 1].workerId == w && j.attempts[k - 1].status.InProgress?
    ensures Do(j, op).attempts == j.attempts[k - 1 := Amend(j.attempts[k - 1], Closing(j.record, op))]
    ensures var a := Do(j, op).attempts[k - 1];
      a.completedAt == Some(op.now) && !a.status.InProgress? && a.checkpoint == op.checkpoint
    ensures forall other: Op | UnderLease(other) && other.worker != w :: !Accepts(j.record, other)
  {
    ReplaceAt(j.attempts, |j.attempts| - 1, 0, Closing(j.record, op));
    ClosingWrites(j, op);
  }

  /** A claim that finds a job makes its worker busy with that job's newest attempt, which it now runs. */
  lemma ClaimStarts(f: Fleet, w: string, lease: int, now: int)
    requires FleetInv(f) && w in f.workers && f.workers[w].Idle? && lease > 0
    requires exists id <- f.store.jobs :: Claimable(f.store.jobs[id].record, now)
    ensures var n := Advance(f, Claims(w, lease, now));
      && w in n.workers && n.workers[w].Busy? && n.workers[w].jobId in n.store.jobs
      && var j := n.store.jobs[n.workers[w].jobId];
      && n.workers[w].attempt == |j.attempts| > 0
      && Last(j.attempts).workerId == w && Last(j.attempts).status.InProgress? && Last(j.attempts).startedAt == now
  {
    var id := HandedByClaim(f, w, lease, now);
    ApplyOnJob(f.store, ClaimNext(w, lease, now), id);
    ClaimedJob(f.store.jobs[id], Claim(w, lease, now));
  }

  lemma HandedByClaim(f: Fleet, w: string, lease: int, now: int) returns (id: string)
    requires FleetInv(f) && lease > 0 && exists id <- f.store.jobs :: Claimable(f.store.jobs[id].record, now)
    ensures Handed(f, Claims(w, lease, now)) == Some(id) == SelectNext(f.store.jobs, f.store.order, now)
    ensures id in f.store.jobs && Claimable(f.store.jobs[id].record, now)
  {
    SelectNextExists(f.store.jobs, f.store.order, now);
    id := SelectNext(f.store.jobs, f.store.order, now).value;
  }

  lemma ClaimedJob(j: Job, op: Op)
    requires JobInv(j) && op.Claim? && Accepts(j.record, op)
    ensures var k := Do(j, op);
      && |k.attempts| == |j.attempts| + 1 == j.record.attemptCount + 1
      && var a := Last(k.attempts);
      && a.workerId == op.worker && a.status.InProgress? && a.startedAt == op.now
  {
  }

  /** A result brought while the lease lives ends the worker's attempt: with the result, unless the job was to be
      cancelled. */
  lemma ResultCounts(f: Fleet, w: string, state: RCAState, checkpoint: Option<string>, now: int)
    requires FleetInv(f) && Enabled(f, Completes(w, state, checkpoint, now))
    requires f.workers[w].jobId in f.store.jobs
      && OwnsActiveLease(f.store.jobs[f.workers[w].jobId].record, w, now)
    ensures var n, id := Advance(f, Completes(w, state, checkpoint, now)), f.workers[w].jobId;
      && id in n.store.jobs && n.workers == f.workers
      && var j, k := n.store.jobs[id], f.workers[w].attempt;
      && k == |j.attempts| > 0 && j.attempts[k - 1].completedAt == Some(now)
      && (j.Status().Completed? <==> f.store.jobs[id].Status().Running?)
      && (j.Status().Completed? ==> j.record.state == state.(status := Completed) && j.record.checkpoint == checkpoint)
  {
    var id, op := f.workers[w].jobId, Complete(w, state, checkpoint, now);
    CompletesWrites(f, w, state, checkpoint, now);
    BusyWithNewest(f, w);
    ResultJob(f.store.jobs[id], op);
  }

  lemma CompletesWrites(f: Fleet, w: string, state: RCAState, checkpoint: Option<string>, now: int)
    requires Enabled(f, Completes(w, state, checkpoint, now)) && f.workers[w].jobId in f.store.jobs
    ensures var n, id := Advance(f, Completes(w, state, checkpoint, now)), f.workers[w].jobId;
      && n.workers == f.workers && id in n.store.jobs
      && n.store.jobs[id] == Do(f.store.jobs[id], Complete(w, state, checkpoint, now)) && state.jobId == id
  {
  }

  lemma BusyWithNewest(f: Fleet, w: string)
    requires FleetInv(f) && w in f.workers && f.workers[w].Busy? && f.workers[w].jobId in f.store.jobs
    ensures var j := f.store.jobs[f.workers[w].jobId];
      && JobInv(j) && j.Id() == f.workers[w].jobId
      && (j.record.leaseOwner == Some(w) ==> j.record.attemptCount == f.workers[w].attempt)
  {
  }

  lemma ResultJob(j: Job, op: Op)
    requires JobInv(j) && op.Complete? && OwnsActiveLease(j.record, op.worker, op.now) && op.state.jobId == j.Id()
    ensures var k := Do(j, op);
      && |k.attempts| == |j.attempts| == j.record.attemptCount > 0 && Last(k.attempts).completedAt == Some(op.now)
      && (k.Status().Completed? <==> j.Status().Running?)
      && (k.Status().Completed? ==> k.record.state == op.state.(status := Completed) && k.record.checkpoint == op.checkpoint)
  {
    ClosingWrites(j, op);
    ClosingDecides(j, op);
  }

  /** The ids must differ: restarted under the same id, a worker has the result of its first
      attempt accepted as that of the second. */
  lemma SharedIdAcceptsStaleResult(r: QueueRecord, stale: RCAState)
    requires Fresh(r) && r.maxAttempts >= 2 && stale.jobId == r.state.jobId
    ensures var ops := [Claim("W", 1, 0), Recover(0, 1), Claim("W", 9, 1)];
            var j := DoAll(EnqueuedJob(r, 0), ops);
            && AllCarry(ops, r.state.jobId) && |j.attempts| == 2
            && Accepts(j.record, Complete("W", stale, None, 2))
            && Do(j, Complete("W", stale, None, 2)).Status() == Completed
  {
    DoThree(EnqueuedJob(r, 0), Claim("W", 1, 0), Recover(0, 1), Claim("W", 9, 1));
    ClaimedTwice(EnqueuedJob(r, 0));
  }

  lemma DoThree(j: Job, a: Op, b: Op, c: Op)
    ensures DoAll(j, [a, b, c]) == Do(Do(Do(j, a), b), c)
  {
    assert [a, b, c][1..] == [b, c] && [b, c][1..] == [c] && [c][1..] == [];
    var j2 := Do(Do(j, a), b);
    assert DoAll(j2, [c]) == DoAll(Do(j2, c), []) == Do(j2, c);
    assert DoAll(Do(j, a), [b, c]) == DoAll(j2, [c]);
  }

  lemma ClaimedTwice(j: Job)
    requires Fresh(j.record) && j.record.maxAttempts >= 2 && j.attempts == []
    ensures var after := Do(Do(Do(j, Claim("W", 1, 0)), Recover(0, 1)), Claim("W", 9, 1));
            && |after.attempts| == 2 && after.Status() == Running
            && OwnsActiveLease(after.record, "W", 2)
  {
    var first := Do(j, Claim("W", 1, 0));
    assert first.record.attemptCount == 1 && |first.attempts| == 1 && first.attempts[0].number == 1;
    var recovered := Do(first, Recover(0, 1));
    assert recovered.Status() == RetryWait && recovered.record.nextAttemptAt == Some(1);
    assert |recovered.attempts| == 1;
  }
}
