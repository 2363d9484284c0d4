/**
 The queue worker as it runs against the in-memory store: claim, heartbeat beside
 the workflow, commit or discard, and the loop with its periodic recovery.
 Whatever other processes do to the store in between appears as store calls.
 */
module QueueWorker {
  import opened Wrappers
  import opened JobQueue
  import opened QueueInvariants
  import opened QueueTheorems
  import opened QueueHistory
  import opened InMemoryStore

  datatype Settings = Settings(lease: int, heartbeat: int, recovery: int, retryBase: int) {
    predicate Valid() { lease > 0 && heartbeat > 0 && recovery > 0 && retryBase > 0 && heartbeat < lease }
  }

  // What happens to the store while the workflow of one attempt runs.
  datatype Happening =
    | Beat(now: int)
    | Report(name: string, body: string, now: int)
    | Other(action: Action)

  // How the workflow ends. LostLease is a progress report that the store refused.
  datatype Outcome =
    | Finished(state: RCAState, checkpoint: Option<string>)
    | Raised(error: Error, retryable: bool, partial: Option<RCAState>)
    | LostLease

  // One round of the worker, as the outside world shapes it.
  datatype Round = Round(claimNow: int, between: seq<Happening>, outcome: Outcome, commitNow: int)

  const FAILED_CHECKPOINT: Option<string> := Some("workflow_failed")

  /** The calls other processes can make: everything but a claim under this worker's id. */
  predicate Outside(a: Action, w: string) {
    && Legal(a)
    && (a.ClaimNext? ==> a.worker != w)
    && (a.On? ==> !a.op.Claim? && !a.op.Recover?)
  }

  predicate Plausible(round: Round, w: string) {
    forall h <- round.between :: h.Other? ==> Outside(h.action, w)
  }

  // -------------------------------------------------------------- specification

  function Call(w: string, lease: int, id: string, h: Happening): Action {
    match h
    case Beat(now) => On(id, Heartbeat(w, lease, now))
    case Report(name, body, now) => On(id, Progress(w, name, body, now))
    case Other(a) => a
  }

  predicate BeatRefused(s: Store, id: string, w: string, lease: int, h: Happening) {
    h.Beat? && !(id in s.jobs && Accepts(s.jobs[id].record, Heartbeat(w, lease, h.now)))
  }

  /** The store calls made while the workflow runs, and whether a refused heartbeat ended the heartbeats. */
  function During(s: Store, w: string, lease: int, id: string, hs: seq<Happening>): (seq<Action>, bool) {
    if hs == [] then ([], false)
    else
      var (calls, lost) := During(s, w, lease, id, hs[..|hs| - 1]);
      var h := Last(hs);
      if h.Beat? && lost then (calls, lost)
      else (calls + [Call(w, lease, id, h)], lost || BeatRefused(Run(s, calls), id, w, lease, h))
  }

  function Pow2(n: nat): nat { if n == 0 then 1 else 2 * Pow2(n - 1) }

  /** The delay a worker asks for after its k-th attempt. */
  function RetryDelay(base: int, attempt: nat): int
    requires attempt >= 1
  {
    base * Pow2(attempt - 1)
  }

  /** The call that ends an attempt, if the worker still makes one. The workflow runs under the job's own id. */
  function Commit(w: string, base: int, id: string, attempt: nat, lost: bool, outcome: Outcome, now: int): Option<Action>
    requires attempt >= 1
  {
    match outcome
    case Finished(state, checkpoint) =>
      if lost then None else Some(On(id, Complete(w, state.(jobId := id), checkpoint, now)))
    case Raised(error, retryable, partial) =>
      var state := if partial.Some? then Some(partial.value.(jobId := id)) else None;
      Some(On(id, Fail(w, error, retryable, RetryDelay(base, attempt), state, FAILED_CHECKPOINT, now)))
    case LostLease => None
  }

  // A round that got a job: the store as claimed, the calls up to the end of the workflow, the
  // store as it then is, and the call that ends the attempt.
  datatype Turn = Turn(id: string, attempt: nat, claimed: Store, calls: seq<Action>, lost: bool, reached: Store,
                       commit: Option<Action>)

  function ClaimOf(w: string, settings: Settings, round: Round): Action { ClaimNext(w, settings.lease, round.claimNow) }

  function TurnOf(s: Store, w: string, settings: Settings, round: Round): Option<Turn> {
    var next := SelectNext(s.jobs, s.order, round.claimNow);
    if next.None? || next.value !in s.jobs then None
    else
      var id, attempt := next.value, s.jobs[next.value].record.attemptCount + 1;
      var claimed := Apply(s, ClaimOf(w, settings, round));
      var (calls, lost) := During(claimed, w, settings.lease, id, round.between);
      Some(Turn(id, attempt, claimed, calls, lost, Run(claimed, calls),
                Commit(w, settings.retryBase, id, attempt, lost, round.outcome, round.commitNow)))
  }

  /** All the store calls of one round. */
  function Calls(s: Store, w: string, settings: Settings, round: Round): seq<Action> {
    var turn := TurnOf(s, w, settings, round);
    if turn.None? then [ClaimOf(w, settings, round)]
    else
      [ClaimOf(w, settings, round)] + turn.value.calls
      + if turn.value.commit.Some? then [turn.value.commit.value] else []
  }

  /** Whether the store takes what the round commits. */
  predicate Commits(turn: Turn) {
    && turn.commit.Some? && turn.commit.value.On? && turn.id in turn.reached.jobs
    && Accepts(turn.reached.jobs[turn.id].record, turn.commit.value.op)
  }

  function CommittedRecord(turn: Turn): QueueRecord
    requires Commits(turn)
  {
    NextRecord(turn.reached.jobs[turn.id].record, turn.commit.value.op)
  }

  // One pass of the loop: the monotonic clock, the wall clock and the round.
  datatype Tick = Tick(monotonic: int, wall: int, round: Round)

  /** The store and the time of the last recovery after some passes. */
  function LoopState(s: Store, w: string, settings: Settings, ticks: seq<Tick>): (Store, int) {
    if ticks == [] then (s, 0)
    else
      var (before, last) := LoopState(s, w, settings, ticks[..|ticks| - 1]);
      var t := Last(ticks);
      var due := t.monotonic - last >= settings.recovery;
      var ready := if due then Apply(before, RecoverAll(settings.retryBase, t.wall)) else before;
      (Run(ready, Calls(ready, w, settings, t.round)), if due then t.monotonic else last)
  }

  // ------------------------------------------------------------------ the worker

  /** The store has no call that claims or recovers one given job. */
  predicate Callable(a: Action) { a.On? ==> !a.op.Claim? && !a.op.Recover? }

  /** Any one call on the store is that step of the queue; it leaves the store well-formed exactly when the
      job it was about keeps its own id. */
  method Perform(store: InMemoryRCAJobStore, a: Action)
    requires store.Valid() && Callable(a)
    modifies store
    ensures store.State() == Apply(old(store.State()), a)
    ensures store.Valid() <==> (a.On? ==> OwnId(store.State(), a.id))
  {
    match a
    case Enqueue(r, now) =>
      var _ := store.Enqueue(r, now);
    case ClaimNext(w, lease, now) =>
      var _ := store.ClaimNext(w, lease, now);
    case RecoverAll(retryAfter, now) =>
      var _ := store.RecoverStaleLeases(retryAfter, now);
    case On(id, op) =>
      PerformOn(store, id, op);
  }

  method PerformOn(store: InMemoryRCAJobStore, id: string, op: Op)
    requires store.Valid() && !op.Claim? && !op.Recover?
    modifies store
    ensures store.State() == OnJob(old(store.State()), id, op)
    ensures store.Valid() <==> OwnId(store.State(), id)
  {
    store.StateIsWellFormed();
    OwnIdIff(store.State(), id, op);
    match op
    case Heartbeat(w, lease, now) =>
      var _ := store.Heartbeat(w, id, lease, now);
    case Complete(w, state, checkpoint, now) =>
      var _ := store.Complete(w, id, state, checkpoint, now);
    case Fail(w, error, retryable, retryAfter, partial, checkpoint, now) =>
      var _ := store.FailAttempt(w, id, error, retryable, retryAfter, partial, checkpoint, now);
    case Cancel(now) =>
      var _ := store.RequestCancel(id, now);
    case Progress(w, name, body, now) =>
      var _ := store.RecordProgressEvent(w, id, name, body, now);
  }

  /** A call whose state carries the id of its job. */
  method PerformLegal(store: InMemoryRCAJobStore, a: Action)
    requires store.Valid() && Callable(a) && Legal(a)
    modifies store
    ensures store.Valid() && store.State() == Apply(old(store.State()), a)
  {
    store.StateIsWellFormed();
    if a.On? {
      CarriedIdIsKept(store.State(), a.id, a.op);
    }
    Perform(store, a);
  }

  method PerformAll(store: InMemoryRCAJobStore, actions: seq<Action>)
    requires store.Valid() && AllLegal(actions) && forall a <- actions :: Callable(a)
    modifies store
    ensures store.Valid() && store.State() == Run(old(store.State()), actions)
  {
    ghost var s := store.State();
    for i := 0 to |actions|
      invariant store.Valid() && store.State() == Run(s, actions[..i])
    {
      assert actions[i] in actions;
      RunOneMore(s, actions[..i], actions[i]);
      assert actions[..i + 1] == actions[..i] + [actions[i]];
      PerformLegal(store, actions[i]);
    }
    assert actions[..|actions|] == actions;
  }

  class RCAQueueWorker {
    const store: InMemoryRCAJobStore
    const workerId: string
    const settings: Settings

    constructor (store: InMemoryRCAJobStore, workerId: string, settings: Settings)
      ensures this.store == store && this.workerId == workerId && this.settings == settings
    {
      this.store, this.workerId, this.settings := store, workerId, settings;
    }

    /** One call while the workflow runs; a heartbeat may be refused. */
    method Happen(jobId: string, h: Happening) returns (refused: bool)
      requires store.Valid() && (h.Other? ==> Outside(h.action, workerId))
      modifies store
      ensures store.Valid()
      ensures store.State() == Apply(old(store.State()), Call(workerId, settings.lease, jobId, h))
      ensures refused == BeatRefused(old(store.State()), jobId, workerId, settings.lease, h)
    {
      refused := false;
      if h.Beat? {
        var expires := store.Heartbeat(workerId, jobId, settings.lease, h.now);
        refused := expires == Failure(InvalidValue) || expires == Success(None);
      } else {
        PerformLegal(store, Call(workerId, settings.lease, jobId, h));
      }
    }

    /** The heartbeat loop beside the workflow: the first refused heartbeat sets the flag and ends it. */
    method RunWorkflow(jobId: string, between: seq<Happening>) returns (lost: bool)
      requires store.Valid() && forall h <- between :: h.Other? ==> Outside(h.action, workerId)
      modifies store
      ensures store.Valid()
      ensures var (calls, flag) := During(old(store.State()), workerId, settings.lease, jobId, between);
        store.State() == Run(old(store.State()), calls) && lost == flag
    {
      ghost var s := store.State();
      lost := false;
      var i := 0;
      while i < |between|
        invariant i <= |between| && store.Valid()
        invariant var (calls, flag) := During(s, workerId, settings.lease, jobId, between[..i]);
          store.State() == Run(s, calls) && lost == flag
      {
        var h := between[i];
        assert h in between && between[..i + 1] == between[..i] + [h];
        OneMoreDuring(s, workerId, settings.lease, jobId, between[..i], h);
        if !(h.Beat? && lost) {
          var refused := Happen(jobId, h);
          lost := lost || refused;
        }
        i := i + 1;
      }
      assert between[..|between|] == between;
    }

    /** Commit the result, report the failure, or discard the result after a lost lease. */
    method EndAttempt(id: string, attempt: nat, lost: bool, outcome: Outcome, now: int) returns (committed: Option<QueueRecord>)
      requires store.Valid() && attempt >= 1
      modifies store
      ensures store.Valid()
      ensures var commit := Commit(workerId, settings.retryBase, id, attempt, lost, outcome, now);
        && store.State() == (if commit.Some? then Apply(old(store.State()), commit.value) else old(store.State()))
        && (committed.Some? <==> commit.Some? && id in old(store.State()).jobs
                                 && Accepts(old(store.State()).jobs[id].record, commit.value.op))
      ensures committed.Some? ==> id in store.State().jobs && committed.value == store.State().jobs[id].record
    {
      match outcome
      case Finished(state, checkpoint) =>
        if lost {
          return None;
        }
        committed := CommitResult(id, state, checkpoint, now);
      case Raised(error, retryable, partial) =>
        committed := ReportFailure(id, attempt, error, retryable, partial, now);
      case LostLease =>
        return None;
    }

    /** The workflow ran under the job's own id, so its state carries it. */
    method CommitResult(id: string, state: RCAState, checkpoint: Option<string>, now: int)
      returns (committed: Option<QueueRecord>)
      requires store.Valid()
      modifies store
      ensures var op := Complete(workerId, state.(jobId := id), checkpoint, now);
        && store.Valid() && store.State() == OnJob(old(store.State()), id, op)
        && (committed.Some? <==> id in old(store.State()).jobs && Accepts(old(store.State()).jobs[id].record, op))
      ensures committed.Some? ==> id in store.State().jobs && committed.value == store.State().jobs[id].record
    {
      store.StateIsWellFormed();
      CarriedIdIsKept(store.State(), id, Complete(workerId, state.(jobId := id), checkpoint, now));
      var r := store.Complete(workerId, id, state.(jobId := id), checkpoint, now);
      return if r.Success? then Some(r.value) else None;
    }

    method ReportFailure(id: string, attempt: nat, error: Error, retryable: bool, partial: Option<RCAState>, now: int)
      returns (committed: Option<QueueRecord>)
      requires store.Valid() && attempt >= 1
      modifies store
      ensures var state := if partial.Some? then Some(partial.value.(jobId := id)) else None;
        var op := Fail(workerId, error, retryable, RetryDelay(settings.retryBase, attempt), state, FAILED_CHECKPOINT, now);
        && store.Valid() && store.State() == OnJob(old(store.State()), id, op)
        && (committed.Some? <==> id in old(store.State()).jobs && Accepts(old(store.State()).jobs[id].record, op))
      ensures committed.Some? ==> id in store.State().jobs && committed.value == store.State().jobs[id].record
    {
      var after := RetryDelay(settings.retryBase, attempt);
      var state := if partial.Some? then Some(partial.value.(jobId := id)) else None;
      committed := StoreFailure(id, error, retryable, after, state, now);
    }

    method StoreFailure(id: string, error: Error, retryable: bool, after: int, state: Option<RCAState>, now: int)
      returns (committed: Option<QueueRecord>)
      requires store.Valid() && (state.Some? ==> state.value.jobId == id)
      modifies store
      ensures var op := Fail(workerId, error, retryable, after, state, FAILED_CHECKPOINT, now);
        && store.Valid() && store.State() == OnJob(old(store.State()), id, op)
        && (committed.Some? <==> id in old(store.State()).jobs && Accepts(old(store.State()).jobs[id].record, op))
      ensures committed.Some? ==> id in store.State().jobs && committed.value == store.State().jobs[id].record
    {
      store.StateIsWellFormed();
      CarriedIdIsKept(store.State(), id, Fail(workerId, error, retryable, after, state, FAILED_CHECKPOINT, now));
      var r := store.FailAttempt(workerId, id, error, retryable, after, state, FAILED_CHECKPOINT, now);
      return if r.Success? then Some(r.value) else None;
    }

    /** Claim, run the workflow, end the attempt; a round without a job makes one call only. */
    method RunOnce(round: Round) returns (worked: bool, committed: Option<QueueRecord>)
      requires store.Valid() && settings.Valid() && Plausible(round, workerId)
      modifies store
      ensures store.Valid()
      ensures store.State() == Run(old(store.State()), Calls(old(store.State()), workerId, settings, round))
      ensures var turn := TurnOf(old(store.State()), workerId, settings, round);
        && (worked <==> turn.Some?)
        && committed == if worked && Commits(turn.value) then Some(CommittedRecord(turn.value)) else None
    {
      ghost var s := store.State();
      var claimed := ClaimTurn(round);
      if claimed.None? {
        RunOneCall(s, ClaimOf(workerId, settings, round));
        return false, None;
      }
      RoundCalls(s, workerId, settings, round);
      committed := RunTurn(s, round, claimed.value.state.jobId, claimed.value.attemptCount);
      worked := true;
    }

    method ClaimTurn(round: Round) returns (claimed: Option<QueueRecord>)
      requires store.Valid() && settings.Valid()
      modifies store
      ensures store.Valid() && store.State() == Apply(old(store.State()), ClaimOf(workerId, settings, round))
      ensures var turn := TurnOf(old(store.State()), workerId, settings, round);
        && (claimed.Some? <==> turn.Some?)
        && (claimed.Some? ==> claimed.value.state.jobId == turn.value.id && claimed.value.attemptCount == turn.value.attempt)
    {
      store.StateIsWellFormed();
      ClaimIsTurn(store.State(), workerId, settings, round);
      var r := store.ClaimNext(workerId, settings.lease, round.claimNow);
      claimed := r.value;
    }

    /** The worker's loop: recover stale leases when it is time, then one round. `ticks` end when it is stopped. */
    method RunForever(ticks: seq<Tick>) returns (lastRecovery: int)
      requires store.Valid() && settings.Valid() && forall t <- ticks :: Plausible(t.round, workerId)
      modifies store
      ensures store.Valid()
      ensures store.State() == LoopState(old(store.State()), workerId, settings, ticks).0
      ensures lastRecovery == LoopState(old(store.State()), workerId, settings, ticks).1
    {
      ghost var s := store.State();
      lastRecovery := 0;
      for i := 0 to |ticks|
        invariant store.Valid() && (store.State(), lastRecovery) == LoopState(s, workerId, settings, ticks[..i])
      {
        assert ticks[..i + 1][..i] == ticks[..i] && ticks[i] in ticks;
        if ticks[i].monotonic - lastRecovery >= settings.recovery {
          var _ := store.RecoverStaleLeases(settings.retryBase, ticks[i].wall);
          lastRecovery := ticks[i].monotonic;
        }
        var _, _ := RunOnce(ticks[i].round);
      }
      assert ticks[..|ticks|] == ticks;
    }

    /** Run the workflow of a claimed job and end the attempt. */
    method RunTurn(ghost s: Store, round: Round, id: string, attempt: nat) returns (committed: Option<QueueRecord>)
      requires store.Valid() && Plausible(round, workerId) && TurnOf(s, workerId, settings, round).Some?
      requires var turn := TurnOf(s, workerId, settings, round).value;
        store.State() == turn.claimed && id == turn.id && attempt == turn.attempt
      modifies store
      ensures store.Valid()
      ensures var turn := TurnOf(s, workerId, settings, round).value;
        && store.State() == (if turn.commit.Some? then Apply(turn.reached, turn.commit.value) else turn.reached)
        && committed == if Commits(turn) then Some(CommittedRecord(turn)) else None
    {
      var lost := RunWorkflow(id, round.between);
      ghost var turn := TurnOf(s, workerId, settings, round).value;
      if turn.commit.Some? {
        CommitIsOurs(workerId, settings.retryBase, id, attempt, lost, round.outcome, round.commitNow);
        RecordAfter(turn.reached, id, turn.commit.value.op);
      }
      committed := EndAttempt(id, attempt, lost, round.outcome, round.commitNow);
    }
  }

  lemma RecordAfter(s: Store, id: string, op: Op)
    ensures id in s.jobs && Accepts(s.jobs[id].record, op)
      ==> OnJob(s, id, op).jobs[id].record == NextRecord(s.jobs[id].record, op)
  {
  }

  lemma RunOneCall(s: Store, a: Action)
    ensures Run(s, [a]) == Apply(s, a)
  {
    assert [a][1..] == [];
  }

  lemma RunOneMore(s: Store, calls: seq<Action>, a: Action)
    ensures Run(s, calls + [a]) == Apply(Run(s, calls), a)
  {
    RunSplit(s, calls, [a]);
    RunOneCall(Run(s, calls), a);
  }

  /** One more happening while the workflow runs. */
  lemma OneMoreDuring(s: Store, w: string, lease: int, id: string, hs: seq<Happening>, h: Happening)
    ensures var (calls, lost) := During(s, w, lease, id, hs);
      var (more, flag) := During(s, w, lease, id, hs + [h]);
      var t := Run(s, calls);
      && Run(s, more) == (if h.Beat? && lost then t else Apply(t, Call(w, lease, id, h)))
      && flag == (lost || (!(h.Beat? && lost) && BeatRefused(t, id, w, lease, h)))
  {
    assert (hs + [h])[..|hs + [h]| - 1] == hs;
    RunOneMore(s, During(s, w, lease, id, hs).0, Call(w, lease, id, h));
  }

  /** The calls of these happenings without the heartbeats. */
  function Unbeaten(w: string, lease: int, id: string, hs: seq<Happening>): seq<Action> {
    if hs == [] then []
    else Unbeaten(w, lease, id, hs[..|hs| - 1]) + if Last(hs).Beat? then [] else [Call(w, lease, id, Last(hs))]
  }

  function CallsOf(w: string, lease: int, id: string, hs: seq<Happening>): seq<Action> {
    seq(|hs|, i requires 0 <= i < |hs| => Call(w, lease, id, hs[i]))
  }

  predicate RefusedAt(s: Store, w: string, lease: int, id: string, hs: seq<Happening>, i: nat)
    requires i < |hs|
  {
    BeatRefused(Run(s, CallsOf(w, lease, id, hs[..i])), id, w, lease, hs[i])
  }

  /** The store refuses none of the first `k` happenings. */
  predicate NoneRefused(s: Store, w: string, lease: int, id: string, hs: seq<Happening>, k: nat)
    requires k <= |hs|
  {
    forall i | 0 <= i < k :: !RefusedAt(s, w, lease, id, hs, i)
  }

  lemma PrefixRefused(s: Store, w: string, lease: int, id: string, hs: seq<Happening>, h: Happening, k: nat)
    requires k <= |hs|
    ensures NoneRefused(s, w, lease, id, hs + [h], k) <==> NoneRefused(s, w, lease, id, hs, k)
    ensures k < |hs| ==> (RefusedAt(s, w, lease, id, hs + [h], k) <==> RefusedAt(s, w, lease, id, hs, k))
    ensures RefusedAt(s, w, lease, id, hs + [h], |hs|) <==> BeatRefused(Run(s, CallsOf(w, lease, id, hs)), id, w, lease, h)
  {
    forall i | 0 <= i <= |hs| ensures (hs + [h])[..i] == hs[..i] {
    }
    assert hs[..|hs|] == hs;
    forall i | 0 <= i < |hs|
      ensures RefusedAt(s, w, lease, id, hs + [h], i) <==> RefusedAt(s, w, lease, id, hs, i)
    {
    }
  }

  lemma CallsAppend(w: string, lease: int, id: string, hs: seq<Happening>, h: Happening)
    ensures CallsOf(w, lease, id, hs + [h]) == CallsOf(w, lease, id, hs) + [Call(w, lease, id, h)]
  {
  }

  lemma OneMoreCall(s: Store, w: string, lease: int, id: string, hs: seq<Happening>, h: Happening)
    ensures var (calls, lost) := During(s, w, lease, id, hs);
      During(s, w, lease, id, hs + [h])
        == if h.Beat? && lost then (calls, lost)
           else (calls + [Call(w, lease, id, h)], lost || BeatRefused(Run(s, calls), id, w, lease, h))
  {
    assert (hs + [h])[..|hs|] == hs;
  }

  /** These calls, and this flag, are what comes of the happenings when heartbeat `k` is the first one refused;
      `k` is past the last happening when none is. */
  predicate StopsAt(s: Store, w: string, lease: int, id: string, hs: seq<Happening>, k: nat, calls: seq<Action>, lost: bool)
    requires k <= |hs|
  {
    && NoneRefused(s, w, lease, id, hs, k) && (lost <==> k < |hs|)
    && if k < |hs| then RefusedAt(s, w, lease, id, hs, k)
                        && calls == CallsOf(w, lease, id, hs[..k + 1]) + Unbeaten(w, lease, id, hs[k + 1..])
       else calls == CallsOf(w, lease, id, hs)
  }

  /** Everything that happens reaches the store, in order, up to the first heartbeat it refuses; from then on
      everything but heartbeats does. */
  lemma {:induction false} StopsAtFirstRefusal(s: Store, w: string, lease: int, id: string, hs: seq<Happening>)
    returns (k: nat)
    ensures k <= |hs|
    ensures StopsAt(s, w, lease, id, hs, k, During(s, w, lease, id, hs).0, During(s, w, lease, id, hs).1)
  {
    k := 0;
    if hs != [] {
      var init, h := hs[..|hs| - 1], Last(hs);
      var (calls, lost) := During(s, w, lease, id, init);
      k := StopsAtFirstRefusal(s, w, lease, id, init);
      OneMoreCall(s, w, lease, id, init, h);
      if k < |init| {
        StillStopped(s, w, lease, id, init, h, k, calls);
      } else if BeatRefused(Run(s, calls), id, w, lease, h) {
        StopsNow(s, w, lease, id, init, h);
      } else {
        GoesOn(s, w, lease, id, init, h);
        k := |hs|;
      }
      assert init + [h] == hs;
    }
  }

  lemma StillStopped(s: Store, w: string, lease: int, id: string, hs: seq<Happening>, h: Happening, k: nat,
                     calls: seq<Action>)
    requires k < |hs| && StopsAt(s, w, lease, id, hs, k, calls, true)
    ensures StopsAt(s, w, lease, id, hs + [h], k, if h.Beat? then calls else calls + [Call(w, lease, id, h)], true)
  {
    PrefixRefused(s, w, lease, id, hs, h, k);
    assert (hs + [h])[k + 1..] == hs[k + 1..] + [h] && (hs + [h])[..k + 1] == hs[..k + 1];
    UnbeatenAppend(w, lease, id, hs[k + 1..], h);
  }

  lemma StopsNow(s: Store, w: string, lease: int, id: string, hs: seq<Happening>, h: Happening)
    requires NoneRefused(s, w, lease, id, hs, |hs|) && BeatRefused(Run(s, CallsOf(w, lease, id, hs)), id, w, lease, h)
    ensures StopsAt(s, w, lease, id, hs + [h], |hs|, CallsOf(w, lease, id, hs) + [Call(w, lease, id, h)], true)
  {
    PrefixRefused(s, w, lease, id, hs, h, |hs|);
    CallsAppend(w, lease, id, hs, h);
    assert (hs + [h])[..|hs| + 1] == hs + [h] && (hs + [h])[|hs| + 1..] == [];
  }

  lemma GoesOn(s: Store, w: string, lease: int, id: string, hs: seq<Happening>, h: Happening)
    requires NoneRefused(s, w, lease, id, hs, |hs|) && !BeatRefused(Run(s, CallsOf(w, lease, id, hs)), id, w, lease, h)
    ensures StopsAt(s, w, lease, id, hs + [h], |hs| + 1, CallsOf(w, lease, id, hs) + [Call(w, lease, id, h)], false)
  {
    PrefixRefused(s, w, lease, id, hs, h, |hs|);
    CallsAppend(w, lease, id, hs, h);
  }

  lemma UnbeatenAppend(w: string, lease: int, id: string, hs: seq<Happening>, h: Happening)
    ensures Unbeaten(w, lease, id, hs + [h]) == Unbeaten(w, lease, id, hs) + if h.Beat? then [] else [Call(w, lease, id, h)]
  {
    assert (hs + [h])[..|hs|] == hs;
  }

  /** What the claim hands to the worker. */
  lemma ClaimedRecord(s: Store, w: string, lease: int, now: int)
    requires WellFormed(s) && lease > 0 && SelectNext(s.jobs, s.order, now).Some?
    ensures var id := SelectNext(s.jobs, s.order, now).value;
      && id in s.jobs && id in Apply(s, ClaimNext(w, lease, now)).jobs
      && var r := Apply(s, ClaimNext(w, lease, now)).jobs[id].record;
      && r.state.jobId == id && r.attemptCount == s.jobs[id].record.attemptCount + 1
  {
    SelectedIsClaimable(s, now);
  }

  /** The calls of a round that has a job, one after the other. */
  lemma RoundCalls(s: Store, w: string, settings: Settings, round: Round)
    requires TurnOf(s, w, settings, round).Some?
    ensures var turn := TurnOf(s, w, settings, round).value;
      Run(s, Calls(s, w, settings, round))
        == if turn.commit.Some? then Apply(turn.reached, turn.commit.value) else turn.reached
  {
    var turn := TurnOf(s, w, settings, round).value;
    var claim := ClaimOf(w, settings, round);
    RunSplit(s, [claim], turn.calls);
    RunOneCall(s, claim);
    if turn.commit.Some? {
      RunOneMore(s, [claim] + turn.calls, turn.commit.value);
    } else {
      assert [claim] + turn.calls + [] == [claim] + turn.calls;
    }
  }

  lemma ClaimIsTurn(s: Store, w: string, settings: Settings, round: Round)
    requires WellFormed(s) && settings.lease > 0
    ensures var next, turn := SelectNext(s.jobs, s.order, round.claimNow), TurnOf(s, w, settings, round);
      && (next.Some? <==> turn.Some?)
      && (turn.Some? ==>
            && next == Some(turn.value.id) && next.value in Apply(s, ClaimOf(w, settings, round)).jobs
            && var r := Apply(s, ClaimOf(w, settings, round)).jobs[next.value].record;
            r.state.jobId == turn.value.id && r.attemptCount == turn.value.attempt)
  {
    SelectedIsClaimable(s, round.claimNow);
    if SelectNext(s.jobs, s.order, round.claimNow).Some? {
      ClaimedRecord(s, w, settings.lease, round.claimNow);
    }
  }

  // ----------------------------------------------------------------- what follows

  lemma {:induction false} DuringIsLegal(s: Store, w: string, lease: int, id: string, hs: seq<Happening>)
    requires forall h <- hs :: h.Other? ==> Outside(h.action, w)
    ensures var calls := During(s, w, lease, id, hs).0;
      AllLegal(calls) && forall a <- calls :: !(a.ClaimNext? && a.worker == w) && !(a.On? && a.op.Claim?)
  {
    if hs != [] {
      assert Last(hs) in hs && forall h <- hs[..|hs| - 1] :: h in hs;
      DuringIsLegal(s, w, lease, id, hs[..|hs| - 1]);
    }
  }

  /** Calls among which `w` claims nothing contain no claim of any job by `w`. */
  lemma {:induction false} NoClaims(s: Store, calls: seq<Action>, id: string, w: string)
    requires id in s.jobs
    requires forall a <- calls :: !(a.ClaimNext? && a.worker == w) && !(a.On? && a.op.Claim?)
    ensures forall op <- Ops(s, calls, id) :: !ClaimsAs(op, w)
    decreases |calls|
  {
    if calls != [] {
      assert calls[0] in calls && forall a <- calls[1..] :: a in calls;
      ApplyOnJob(s, calls[0], id);
      NoClaims(Apply(s, calls[0]), calls[1..], id, w);
    }
  }

  /** A commit is a result or a failure of this worker for this job. */
  lemma CommitIsOurs(w: string, base: int, id: string, attempt: nat, lost: bool, outcome: Outcome, now: int)
    requires attempt >= 1
    ensures var commit := Commit(w, base, id, attempt, lost, outcome, now);
      commit.Some? ==>
        && Legal(commit.value) && commit.value.On? && commit.value.id == id
        && (commit.value.op.Complete? || commit.value.op.Fail?) && commit.value.op.worker == w
  {
  }

  /** Without a claim by `w` in between, whatever the store still takes from `w` belongs to the attempt it had. */
  lemma NoTakeover(s: Store, calls: seq<Action>, id: string, op: Op)
    requires StoreInv(s) && AllLegal(calls) && id in s.jobs && UnderLease(op)
    requires forall a <- calls :: !(a.ClaimNext? && a.worker == op.worker) && !(a.On? && a.op.Claim?)
    requires id in Run(s, calls).jobs && Accepts(Run(s, calls).jobs[id].record, op)
    ensures JobInv(Run(s, calls).jobs[id]) && Run(s, calls).jobs[id].Id() == id
    ensures Run(s, calls).jobs[id].record.attemptCount == s.jobs[id].record.attemptCount
  {
    NoClaims(s, calls, id, op.worker);
    TakeoverFencesOldWorker(s, calls, id, op);
    RunPreserves(s, calls);
    assert JobInv(s.jobs[id]) && JobInv(Run(s, calls).jobs[id]);
  }

  /** Every round is a legal run of the queue, so all that is proved of runs holds around any number of workers. */
  lemma RoundIsLegal(s: Store, w: string, settings: Settings, round: Round)
    requires StoreInv(s) && Plausible(round, w)
    ensures AllLegal(Calls(s, w, settings, round)) && StoreInv(Run(s, Calls(s, w, settings, round)))
  {
    var turn := TurnOf(s, w, settings, round);
    if turn.Some? {
      var t := turn.value;
      DuringIsLegal(t.claimed, w, settings.lease, t.id, round.between);
      CommitIsOurs(w, settings.retryBase, t.id, t.attempt, t.lost, round.outcome, round.commitNow);
    }
    RunPreserves(s, Calls(s, w, settings, round));
  }

  /**
   What a round commits is the result of the attempt it claimed: no attempt was started since, the
   attempt it closes is its own, and a cancellation made meanwhile wins.
   */
  lemma CommitsItsOwnAttempt(s: Store, w: string, settings: Settings, round: Round)
    requires StoreInv(s) && settings.Valid() && Plausible(round, w) && TurnOf(s, w, settings, round).Some?
    requires Commits(TurnOf(s, w, settings, round).value)
    ensures var turn := TurnOf(s, w, settings, round).value;
      var after := Run(s, Calls(s, w, settings, round));
      && turn.id in after.jobs
      && var j := after.jobs[turn.id];
      && j.record.attemptCount == turn.attempt == |j.attempts|
      && Last(j.attempts).workerId == w && !Last(j.attempts).status.InProgress?
      && (j.record.cancelRequestedAt.Some? ==> j.Status().Cancelled?)
  {
    var t := TurnOf(s, w, settings, round).value;
    RoundCalls(s, w, settings, round);
    CommitIsOurs(w, settings.retryBase, t.id, t.attempt, t.lost, round.outcome, round.commitNow);
    ApplyPreserves(s, ClaimOf(w, settings, round));
    ClaimedRecord(s, w, settings.lease, round.claimNow);
    DuringIsLegal(t.claimed, w, settings.lease, t.id, round.between);
    NoTakeover(t.claimed, t.calls, t.id, t.commit.value.op);
    CommitCloses(t.reached.jobs[t.id], t.commit.value.op);
  }

  /** An accepted commit closes the newest attempt, which is the committing worker's. */
  lemma CommitCloses(j: Job, op: Op)
    requires JobInv(j) && (op.Complete? || op.Fail?) && Accepts(j.record, op) && Carries(op, j.Id())
    ensures var k := Do(j, op);
      && |k.attempts| == |j.attempts| == k.record.attemptCount == j.record.attemptCount && k.attempts != []
      && Last(k.attempts).workerId == op.worker && !Last(k.attempts).status.InProgress?
      && (k.record.cancelRequestedAt.Some? ==> k.record.state.status.Cancelled?)
  {
    StepInv(j, op);
    StepEvolves(j, op);
    ReplaceAt(j.attempts, |j.attempts| - 1, 0, Closing(j.record, op));
  }

  /** What a committed round leaves of the job is what its workflow came to, unless the job was cancelled meanwhile. */
  lemma CommitsItsOutcome(s: Store, w: string, settings: Settings, round: Round)
    requires StoreInv(s) && settings.Valid() && Plausible(round, w) && TurnOf(s, w, settings, round).Some?
    requires Commits(TurnOf(s, w, settings, round).value)
    ensures var turn := TurnOf(s, w, settings, round).value;
      var after := Run(s, Calls(s, w, settings, round));
      && turn.id in after.jobs && after.jobs[turn.id].attempts != []
      && var j := after.jobs[turn.id];
      var a := Last(j.attempts);
      && a.completedAt == Some(round.commitNow)
      && match round.outcome
         case Finished(state, checkpoint) =>
           && a.checkpoint == checkpoint && (j.Status().Completed? || j.Status().Cancelled?)
           && (j.Status().Completed? ==> j.record.state == state.(jobId := turn.id, status := Completed))
         case Raised(error, retryable, partial) =>
           && a.error == Some(error) && a.checkpoint == FAILED_CHECKPOINT && !j.Status().Completed?
           && (partial.Some? ==> j.record.state.content == partial.value.content)
           && (j.Status().RetryWait? ==> retryable)
           && (j.Status().Failed? && retryable ==> turn.attempt == j.record.maxAttempts)
         case LostLease => false
  {
    var t := TurnOf(s, w, settings, round).value;
    RoundCalls(s, w, settings, round);
    CommitIsOurs(w, settings.retryBase, t.id, t.attempt, t.lost, round.outcome, round.commitNow);
    CommitsItsOwnAttempt(s, w, settings, round);
    ApplyPreserves(s, ClaimOf(w, settings, round));
    DuringIsLegal(t.claimed, w, settings.lease, t.id, round.between);
    RunPreserves(t.claimed, t.calls);
    ClosedAs(t.reached.jobs[t.id], t.commit.value.op);
  }

  lemma ClosedAs(j: Job, op: Op)
    requires JobInv(j) && (op.Complete? || op.Fail?) && Accepts(j.record, op)
    ensures var k := Do(j, op);
      && k.attempts != [] && k.record.maxAttempts == j.record.maxAttempts
      && var a := Last(k.attempts);
      && a.completedAt == Some(op.now) && a.checkpoint == op.checkpoint
      && (op.Complete? ==>
            && (k.Status().Completed? || k.Status().Cancelled?)
            && (k.Status().Completed? ==> k.record.state == op.state.(status := Completed)))
      && (op.Fail? ==>
            && a.error == Some(op.error) && !k.Status().Completed?
            && (op.partial.Some? ==> k.record.state.content == op.partial.value.content)
            && (k.Status().RetryWait? ==> op.retryable)
            && (k.Status().Failed? && op.retryable ==> |k.attempts| == k.record.maxAttempts))
  {
    ClosingWrites(j, op);
    ClosingDecides(j, op);
    ClosingStores(j, op);
  }

  /**
   The worker's delays double: the first attempt that ends in a retryable failure is retried after the
   base, and each later one after twice the delay of the attempt before it.
   */
  lemma BackoffDoubles(w: string, settings: Settings, k: nat, r: QueueRecord, x: Outcome, t: int, lost: bool,
                       q: QueueRecord, y: Outcome, u: int, gone: bool)
    requires settings.Valid() && k >= 1 && x.Raised? && x.retryable && y.Raised? && y.retryable
    requires r.state.status.Running? && r.attemptCount == k < r.maxAttempts && OwnsActiveLease(r, w, t)
    requires q.state.status.Running? && q.attemptCount == k + 1 < q.maxAttempts && OwnsActiveLease(q, w, u)
    ensures var first := Commit(w, settings.retryBase, r.state.jobId, k, lost, x, t);
      var second := Commit(w, settings.retryBase, q.state.jobId, k + 1, gone, y, u);
      && first.Some? && first.value.On? && first.value.id == r.state.jobId && Accepts(r, first.value.op)
      && second.Some? && second.value.On? && second.value.id == q.state.jobId && Accepts(q, second.value.op)
      && var a, b := NextRecord(r, first.value.op).nextAttemptAt, NextRecord(q, second.value.op).nextAttemptAt;
      && a.Some? && b.Some? && b.value - u == 2 * (a.value - t)
      && (k == 1 ==> a.value == t + settings.retryBase)
  {
    DelayDoubles(settings.retryBase, k);
  }

  lemma DelayDoubles(base: int, k: nat)
    requires base > 0 && k >= 1
    ensures RetryDelay(base, k + 1) == 2 * RetryDelay(base, k) && RetryDelay(base, k) > 0 && RetryDelay(base, 1) == base
  {
    PowerPositive(k - 1);
    assert base * (2 * Pow2(k - 1)) == 2 * (base * Pow2(k - 1));
    assert base * Pow2(k - 1) > 0;
  }

  lemma PowerPositive(n: nat)
    ensures Pow2(n) > 0
  {
  }

  // -------------------------------------------------------------- a timely round

  /** The clock of the last heartbeat, or of the claim. */
  function LastBeat(hs: seq<Happening>, start: int): int {
    if hs == [] then start else if Last(hs).Beat? then Last(hs).now else LastBeat(hs[..|hs| - 1], start)
  }

  /** Each heartbeat, and each recovery by anyone, comes at most `gap` after the heartbeat before it, and
      nobody else commits or heartbeats under this worker's id. */
  predicate Timely(hs: seq<Happening>, w: string, gap: int, start: int) {
    hs != [] ==>
      && Timely(hs[..|hs| - 1], w, gap, start)
      && var h, previous := Last(hs), LastBeat(hs[..|hs| - 1], start);
      && (h.Beat? ==> h.now <= previous + gap)
      && (h.Other? && h.action.RecoverAll? ==> h.action.now <= previous + gap)
      && (h.Other? && h.action.On? ==>
            var op := h.action.op;
            && !op.Claim? && !op.Recover?
            && (op.Complete? || op.Fail? || op.Heartbeat? ==> op.worker != w))
  }

  /** One operation on a leased job leaves the lease alone, unless it is its worker's heartbeat or comes too late. */
  lemma LeaseKeptBy(j: Job, op: Op, w: string, attempt: nat, expires: int)
    requires HoldsLease(j.record, w, attempt, expires)
    requires op.Complete? || op.Fail? || op.Heartbeat? ==> op.worker != w
    requires op.Recover? ==> op.now < expires
    ensures HoldsLease(Do(j, op).record, w, attempt, expires)
  {
  }

  lemma BeatRenews(j: Job, w: string, attempt: nat, expires: int, lease: int, now: int)
    requires HoldsLease(j.record, w, attempt, expires) && lease > 0 && now < expires
    ensures Accepts(j.record, Heartbeat(w, lease, now))
    ensures HoldsLease(Do(j, Heartbeat(w, lease, now)).record, w, attempt, now + lease)
  {
  }

  /** One happening moves the expiry to that of the last heartbeat. */
  lemma HappeningKeepsLease(s: Store, id: string, w: string, attempt: nat, lease: int, gap: int,
                                               hs: seq<Happening>, start: int)
    requires hs != [] && Timely(hs, w, gap, start) && gap < lease && lease > 0 && id in s.jobs
    requires HoldsLease(s.jobs[id].record, w, attempt, LastBeat(hs[..|hs| - 1], start) + lease)
    ensures var t := Apply(s, Call(w, lease, id, Last(hs)));
      && id in t.jobs && HoldsLease(t.jobs[id].record, w, attempt, LastBeat(hs, start) + lease)
    ensures !BeatRefused(s, id, w, lease, Last(hs))
  {
    var h, expires := Last(hs), LastBeat(hs[..|hs| - 1], start) + lease;
    var a := Call(w, lease, id, h);
    ApplyOnJob(s, a, id);
    if h.Beat? {
      BeatRenews(s.jobs[id], w, attempt, expires, lease, h.now);
    } else if LocalOp(s, a, id).Some? {
      LeaseKeptBy(s.jobs[id], LocalOp(s, a, id).value, w, attempt, expires);
    }
  }

  /** While the happenings are timely no heartbeat is refused and the claimed attempt keeps its lease. */
  lemma {:induction false} TimelyKeepsLease(s: Store, id: string, w: string, attempt: nat, lease: int, gap: int,
                                            hs: seq<Happening>, start: int)
    requires Timely(hs, w, gap, start) && gap < lease && lease > 0 && id in s.jobs
    requires HoldsLease(s.jobs[id].record, w, attempt, start + lease)
    ensures var (calls, lost) := During(s, w, lease, id, hs);
      && !lost && id in Run(s, calls).jobs
      && HoldsLease(Run(s, calls).jobs[id].record, w, attempt, LastBeat(hs, start) + lease)
  {
    if hs != [] {
      var init := hs[..|hs| - 1];
      TimelyKeepsLease(s, id, w, attempt, lease, gap, init, start);
      var calls := During(s, w, lease, id, init).0;
      HappeningKeepsLease(Run(s, calls), id, w, attempt, lease, gap, hs, start);
      RunOneMore(s, calls, Call(w, lease, id, Last(hs)));
    }
  }

  /**
   A round whose heartbeats and commit keep closer together than the lease, as the settings ask, always
   commits its result or its failure, whatever other processes submit, cancel, claim or recover meanwhile.
   */
  lemma TimelyRoundCommits(s: Store, w: string, settings: Settings, round: Round)
    requires WellFormed(s) && settings.Valid() && TurnOf(s, w, settings, round).Some?
    requires Timely(round.between, w, settings.heartbeat, round.claimNow)
    requires round.commitNow <= LastBeat(round.between, round.claimNow) + settings.heartbeat
    requires !round.outcome.LostLease?
    ensures Commits(TurnOf(s, w, settings, round).value)
  {
    var t := TurnOf(s, w, settings, round).value;
    SelectedIsClaimable(s, round.claimNow);
    ApplyOnJob(s, ClaimOf(w, settings, round), t.id);
    TimelyKeepsLease(t.claimed, t.id, w, t.attempt, settings.lease, settings.heartbeat, round.between, round.claimNow);
    CommitTaken(t.reached.jobs[t.id], w, settings, t, round);
  }

  lemma CommitTaken(j: Job, w: string, settings: Settings, t: Turn, round: Round)
    requires t.attempt >= 1 && !t.lost && !round.outcome.LostLease?
    requires HoldsLease(j.record, w, t.attempt, LastBeat(round.between, round.claimNow) + settings.lease)
    requires round.commitNow < LastBeat(round.between, round.claimNow) + settings.lease
    ensures var commit := Commit(w, settings.retryBase, t.id, t.attempt, t.lost, round.outcome, round.commitNow);
      commit.Some? && commit.value.On? && Accepts(j.record, commit.value.op)
  {
  }
}
