/**
 The process-local job store: dictionaries overwritten in place by each method.
 Every method is tied to the queue specification, so that what is proved about
 `Apply` and `Run` holds of this object.
 */
module InMemoryStore {
  import opened Wrappers
  import opened JobQueue
  import opened QueueInvariants
  import opened QueueTheorems

  function At<T>(m: map<string, seq<T>>, id: string): seq<T> {
    if id in m then m[id] else []
  }

  function JobsOf(records: map<string, QueueRecord>, attempts: map<string, seq<Attempt>>,
                  events: map<string, seq<Event>>): map<string, Job> {
    map id | id in records :: Job(records[id], At(attempts, id), At(events, id))
  }

  predicate Consistent(records: map<string, QueueRecord>, order: seq<string>, index: map<string, string>) {
    && (forall id <- order :: id in records)
    && (forall id <- records :: id in order && records[id].state.jobId == id)
    && (forall k <- index :: index[k] in records)
    && Distinct(order)
  }

  /** The dictionaries after one job was overwritten are the old ones with that job replaced. */
  lemma Written(r0: map<string, QueueRecord>, a0: map<string, seq<Attempt>>, e0: map<string, seq<Event>>,
                r1: map<string, QueueRecord>, a1: map<string, seq<Attempt>>, e1: map<string, seq<Event>>,
                id: string, job: Job)
    requires r1 == r0[id := job.record] && At(a1, id) == job.attempts && At(e1, id) == job.events
    requires forall x | x != id :: At(a1, x) == At(a0, x) && At(e1, x) == At(e0, x)
    ensures JobsOf(r1, a1, e1) == JobsOf(r0, a0, e0)[id := job]
  {
  }

  lemma JobAt(records: map<string, QueueRecord>, attempts: map<string, seq<Attempt>>, events: map<string, seq<Event>>,
              id: string)
    requires id in records
    ensures id in JobsOf(records, attempts, events)
    ensures JobsOf(records, attempts, events)[id] == Job(records[id], At(attempts, id), At(events, id))
  {
  }

  lemma ConsistentKept(records: map<string, QueueRecord>, order: seq<string>, index: map<string, string>,
                       id: string, r: QueueRecord)
    requires Consistent(records, order, index) && id in records
    ensures Consistent(records[id := r], order, index) <==> r.state.jobId == id
  {
  }

  lemma ConsistentAdded(records: map<string, QueueRecord>, order: seq<string>, index: map<string, string>, r: QueueRecord)
    requires Consistent(records, order, index) && r.state.jobId !in records
    ensures var id := r.state.jobId;
            && Consistent(records[id := r], order + [id], index)
            && (r.idempotencyKey.Some? ==>
                  Consistent(records[id := r], order + [id], index[r.idempotencyKey.value := id]))
  {
    var id := r.state.jobId;
    assert (order + [id])[|order|] == id;
    assert forall x <- order :: x in order + [id];
  }

  lemma {:induction false} ReplaceSkips(attempts: seq<Attempt>, i: nat, number: nat, u: Amendment)
    requires i <= |attempts| && forall k | 0 <= k < i :: attempts[k].number != number
    ensures ReplaceAttempt(attempts, number, u) == attempts[..i] + ReplaceAttempt(attempts[i..], number, u)
  {
    if i > 0 {
      ReplaceSkips(attempts[1..], i - 1, number, u);
      assert attempts[1..][i - 1..] == attempts[i..];
      assert attempts[..i] == [attempts[0]] + attempts[1..][..i - 1];
    }
  }

  /** The part of the log after a cursor; sequences are the log's own numbers. */
  function EventsAfter(events: seq<Event>, cursor: nat): seq<Event> {
    if events == [] then []
    else
      var before := EventsAfter(events[..|events| - 1], cursor);
      if Last(events).sequence > cursor then before + [Last(events)] else before
  }

  /** A closing operation is its record write, its attempt amendment and its event. */
  lemma ClosingIs(s: Store, id: string, op: Op, updated: QueueRecord, t: EventType, p: Payload)
    requires id in s.jobs && s.jobs[id].Id() == id && Closes(op)
    requires Accepts(s.jobs[id].record, op) && updated == NextRecord(s.jobs[id].record, op)
    requires Logged(s.jobs[id].record, op) == Some((t, p))
    ensures var j := s.jobs[id];
      OnJob(s, id, op) == s.(jobs := s.jobs[id := Job(updated,
        ReplaceAttempt(j.attempts, j.record.attemptCount, Closing(j.record, op)),
        Appended(j.events, id, t, p, op.now))])
  {
  }

  /** The job stored under an id describes itself by that id. */
  predicate OwnId(s: Store, id: string) { id in s.jobs ==> s.jobs[id].Id() == id }

  /** The store does not look at the id of a state it is given: the job keeps its id exactly when the state it
      stores carries it. A cancelled job keeps its own state, whatever is supplied. */
  lemma OwnIdIff(s: Store, id: string, op: Op)
    requires OwnId(s, id)
    ensures OwnId(OnJob(s, id, op), id) <==>
      (id in s.jobs && Accepts(s.jobs[id].record, op) ==>
         && (op.Complete? && !s.jobs[id].Status().CancelRequested? ==> op.state.jobId == id)
         && (op.Fail? && op.partial.Some? ==> op.partial.value.jobId == id))
  {
  }

  lemma CarriedIdIsKept(s: Store, id: string, op: Op)
    requires OwnId(s, id) && Carries(op, id)
    ensures OwnId(OnJob(s, id, op), id)
  {
    OwnIdIff(s, id, op);
  }

  lemma ForeignStateKept(s: Store, id: string, op: Op)
    requires op.Complete? && id in s.jobs && OwnId(s, id) && Accepts(s.jobs[id].record, op)
    requires s.jobs[id].Status().Running? && op.state.jobId != id
    ensures var t := OnJob(s, id, op); !OwnId(t, id) && id in t.jobs && t.jobs[id].Status().Completed?
  {
    OwnIdIff(s, id, op);
  }

  /** A running job completed with the state of another job describes that other job from then on. */
  lemma ForeignStateIsStored(r: QueueRecord, other: RCAState)
    requires Fresh(r) && other.jobId != r.state.jobId
    ensures var s, id := OneRunning(r), r.state.jobId;
      var t := OnJob(s, id, Complete("W", other, None, 1));
      && OwnId(s, id) && !OwnId(t, id) && id in t.jobs && t.jobs[id].Status().Completed?
  {
    OneRunningIs(r);
    ForeignStateKept(OneRunning(r), r.state.jobId, Complete("W", other, None, 1));
  }

  lemma ClaimIs(s: Store, id: string, worker: string, lease: int, now: int, claimed: QueueRecord, attempt: Attempt)
    requires SelectNext(s.jobs, s.order, now) == Some(id) && id in s.jobs && s.jobs[id].Id() == id
    requires Accepts(s.jobs[id].record, Claim(worker, lease, now))
    requires claimed == NextRecord(s.jobs[id].record, Claim(worker, lease, now))
    requires attempt == Attempt(id, s.jobs[id].record.attemptCount + 1, worker, InProgress, now, None, None, None)
    ensures var j := s.jobs[id];
      Apply(s, ClaimNext(worker, lease, now)) == s.(jobs := s.jobs[id := Job(claimed, j.attempts + [attempt],
        Appended(j.events, id, JobStarted, StatusOfAttempt(Running, attempt.number), now))])
  {
  }

  lemma StaleCount(jobs: map<string, Job>, ids: seq<string>, now: int)
    requires Distinct(ids) && forall id :: id in ids <==> id in jobs && Stale(jobs[id].record, now)
    ensures |ids| == |set id | id in jobs && Stale(jobs[id].record, now)|
  {
    DistinctSize(ids);
    assert (set id | id in ids) == (set id | id in jobs && Stale(jobs[id].record, now));
  }

  lemma OneMore(s: Store, ids: seq<string>, i: nat, op: Op)
    requires i < |ids| && Distinct(ids) && ids[i] in s.jobs
    ensures var t := OnEach(s, ids[..i], op);
      ids[i] in t.jobs && t.jobs[ids[i]] == s.jobs[ids[i]] && OnEach(s, ids[..i + 1], op) == OnJob(t, ids[i], op)
  {
    OnEachAt(s, ids[..i], op, ids[i]);
    assert ids[i] !in ids[..i];
    assert ids[..i + 1][..i] == ids[..i];
  }

  class InMemoryRCAJobStore {
    var records: map<string, QueueRecord>
    var order: seq<string>  // insertion order of `records`
    var index: map<string, string>
    var attempts: map<string, seq<Attempt>>
    var events: map<string, seq<Event>>

    function State(): Store
      reads this
    {
      Store(JobsOf(records, attempts, events), order, index)
    }

    ghost predicate Valid()
      reads this
    {
      && Consistent(records, order, index)
      && attempts.Keys <= records.Keys && events.Keys <= records.Keys
    }

    constructor ()
      ensures Valid() && State() == EMPTY
    {
      records, order, index, attempts, events := map[], [], map[], map[], map[];
    }

    lemma StateIsWellFormed()
      requires Valid()
      ensures WellFormed(State())
    {
    }

    method AppendEvent(jobId: string, t: EventType, p: Payload, now: int) returns (e: Event)
      modifies this`events
      ensures e == Event(jobId, |old(At(events, jobId))| + 1, t, p, now)
      ensures At(events, jobId) == Appended(old(At(events, jobId)), jobId, t, p, now)
      ensures forall x | x != jobId :: At(events, x) == old(At(events, x))
      ensures events.Keys == old(events).Keys + {jobId}
    {
      var log := At(events, jobId);
      e := Event(jobId, |log| + 1, t, p, now);
      events := events[jobId := log + [e]];
    }

    method AmendAttempt(jobId: string, number: nat, u: Amendment)
      modifies this`attempts
      ensures At(attempts, jobId) == ReplaceAttempt(old(At(attempts, jobId)), number, u)
      ensures forall x | x != jobId :: At(attempts, x) == old(At(attempts, x))
      ensures attempts.Keys == old(attempts).Keys
    {
      var list := At(attempts, jobId);
      var i := 0;
      while i < |list|
        invariant i <= |list| && list == At(attempts, jobId) && attempts == old(attempts)
        invariant forall k | 0 <= k < i :: list[k].number != number
      {
        if list[i].number == number {
          ReplaceSkips(list, i, number, u);
          assert ReplaceAttempt(list, number, u) == list[i := Amend(list[i], u)];
          attempts := attempts[jobId := list[i := Amend(list[i], u)]];
          return;
        }
        i := i + 1;
      }
      ReplaceSkips(list, |list|, number, u);
    }

    /** The three writes that close an attempt: the record, its attempt and one event. */
    method CloseWrites(jobId: string, updated: QueueRecord, number: nat, u: Amendment, t: EventType, p: Payload, now: int)
      modifies this`records, this`attempts, this`events
      ensures records == old(records)[jobId := updated]
      ensures At(attempts, jobId) == ReplaceAttempt(old(At(attempts, jobId)), number, u)
      ensures At(events, jobId) == Appended(old(At(events, jobId)), jobId, t, p, now)
      ensures forall x | x != jobId :: At(attempts, x) == old(At(attempts, x)) && At(events, x) == old(At(events, x))
      ensures attempts.Keys == old(attempts).Keys && events.Keys == old(events).Keys + {jobId}
    {
      records := records[jobId := updated];
      AmendAttempt(jobId, number, u);
      var _ := AppendEvent(jobId, t, p, now);
    }

    /** A record stored under another job's id spoils the dictionary; any other keeps it. */
    method Commit(jobId: string, updated: QueueRecord, number: nat, u: Amendment, t: EventType, p: Payload, now: int)
      requires Valid() && jobId in records
      modifies this`records, this`attempts, this`events
      ensures Valid() <==> updated.state.jobId == jobId
      ensures State() == var s := old(State()); s.(jobs := s.jobs[jobId :=
                Job(updated, ReplaceAttempt(s.jobs[jobId].attempts, number, u),
                    Appended(s.jobs[jobId].events, jobId, t, p, now))])
    {
      CloseWrites(jobId, updated, number, u, t, p, now);
      JobAt(old(records), old(attempts), old(events), jobId);
      Written(old(records), old(attempts), old(events), records, attempts, events, jobId,
              Job(updated, At(attempts, jobId), At(events, jobId)));
      ConsistentKept(old(records), order, index, jobId, updated);
    }

    /** A record write with the event that reports it. */
    method LogWrites(jobId: string, updated: QueueRecord, t: EventType, p: Payload, now: int)
      modifies this`records, this`events
      ensures records == old(records)[jobId := updated]
      ensures At(events, jobId) == Appended(old(At(events, jobId)), jobId, t, p, now)
      ensures forall x | x != jobId :: At(events, x) == old(At(events, x))
      ensures events.Keys == old(events).Keys + {jobId}
    {
      records := records[jobId := updated];
      var _ := AppendEvent(jobId, t, p, now);
    }

    method WriteAndLog(jobId: string, updated: QueueRecord, t: EventType, p: Payload, now: int)
      requires Valid() && jobId in records && updated.state.jobId == jobId
      modifies this`records, this`events
      ensures Valid()
      ensures State() == var s := old(State()); s.(jobs := s.jobs[jobId :=
                Job(updated, s.jobs[jobId].attempts, Appended(s.jobs[jobId].events, jobId, t, p, now))])
    {
      LogWrites(jobId, updated, t, p, now);
      JobAt(old(records), old(attempts), old(events), jobId);
      Written(old(records), old(attempts), old(events), records, attempts, events, jobId,
              Job(updated, At(attempts, jobId), At(events, jobId)));
      ConsistentKept(old(records), order, index, jobId, updated);
    }

    /** The three writes that start an attempt. */
    method StartWrites(jobId: string, claimed: QueueRecord, attempt: Attempt, now: int)
      modifies this`records, this`attempts, this`events
      ensures records == old(records)[jobId := claimed]
      ensures At(attempts, jobId) == old(At(attempts, jobId)) + [attempt]
      ensures At(events, jobId) == Appended(old(At(events, jobId)), jobId, JobStarted,
                                            StatusOfAttempt(Running, attempt.number), now)
      ensures forall x | x != jobId :: At(attempts, x) == old(At(attempts, x)) && At(events, x) == old(At(events, x))
      ensures attempts.Keys == old(attempts).Keys + {jobId} && events.Keys == old(events).Keys + {jobId}
    {
      records := records[jobId := claimed];
      attempts := attempts[jobId := At(attempts, jobId) + [attempt]];
      var _ := AppendEvent(jobId, JobStarted, StatusOfAttempt(Running, attempt.number), now);
    }

    method Start(jobId: string, claimed: QueueRecord, attempt: Attempt, now: int)
      requires Valid() && jobId in records && claimed.state.jobId == jobId
      modifies this`records, this`attempts, this`events
      ensures Valid()
      ensures State() == var s := old(State()); s.(jobs := s.jobs[jobId :=
                Job(claimed, s.jobs[jobId].attempts + [attempt],
                    Appended(s.jobs[jobId].events, jobId, JobStarted, StatusOfAttempt(Running, attempt.number), now))])
    {
      StartWrites(jobId, claimed, attempt, now);
      JobAt(old(records), old(attempts), old(events), jobId);
      Written(old(records), old(attempts), old(events), records, attempts, events, jobId,
              Job(claimed, At(attempts, jobId), At(events, jobId)));
      ConsistentKept(old(records), order, index, jobId, claimed);
    }

    method Enqueue(record: QueueRecord, now: int) returns (r: Result<QueueRecord, QueueError>)
      requires Valid()
      modifies this
      ensures Valid() && State() == Apply(old(State()), JobQueue.Enqueue(record, now))
      ensures r == EnqueueReply(old(State()), record)
    {
      var jobId := record.state.jobId;
      if record.idempotencyKey.Some? {
        if record.idempotencyKey.value in index {
          var existing := State().jobs[index[record.idempotencyKey.value]].record;
          if existing.requestHash != record.requestHash {
            return Failure(IdempotencyConflict);
          }
          return Success(existing);
        }
      }
      if jobId in records {
        return Failure(DuplicateJob);
      }
      assert IsNew(State(), record);
      records := records[jobId := record];
      order := order + [jobId];
      if record.idempotencyKey.Some? {
        index := index[record.idempotencyKey.value := jobId];
      }
      var _ := AppendEvent(jobId, JobQueued, StatusOnly(Queued), now);
      Written(old(records), old(attempts), old(events), records, attempts, events, jobId, EnqueuedJob(record, now));
      ConsistentAdded(old(records), old(order), old(index), record);
      return Success(record);
    }

    method GetRecord(id: string) returns (r: Option<QueueRecord>)
      ensures r == if id in State().jobs then Some(State().jobs[id].record) else None
    {
      if id in records {
        return Some(records[id]);
      }
      return None;
    }

    method ListEvents(id: string, after: nat) returns (r: seq<Event>)
      ensures r == EventsAfter(At(events, id), after)
    {
      var log := At(events, id);
      var i := 0;
      r := [];
      while i < |log|
        invariant i <= |log| && r == EventsAfter(log[..i], after)
      {
        assert log[..i + 1][..i] == log[..i];
        if log[i].sequence > after {
          r := r + [log[i]];
        }
        i := i + 1;
      }
      assert log[..|log|] == log;
    }

    /** One more entry of the dictionary. */
    lemma NextSelected(jobs: map<string, Job>, list: seq<string>, i: nat, now: int)
      requires i < |list| && list[i] in jobs
      ensures var best := SelectNext(jobs, list[..i], now);
        SelectNext(jobs, list[..i + 1], now)
        == if !Claimable(jobs[list[i]].record, now) then best
           else if best.Some? && best.value in jobs && !Before(jobs[list[i]].record, jobs[best.value].record) then best
           else Some(list[i])
    {
      assert list[..i + 1][..i] == list[..i];
    }

    /** Scan the dictionary for the first job by (-priority, created_at). */
    method FirstClaimable(now: int) returns (best: Option<string>)
      requires Valid()
      ensures best == SelectNext(State().jobs, State().order, now)
    {
      best := None;
      var i := 0;
      while i < |order|
        invariant i <= |order| && best == SelectNext(State().jobs, order[..i], now)
        invariant best.Some? ==> best.value in records
      {
        var id := order[i];
        NextSelected(State().jobs, order, i, now);
        if Claimable(records[id], now) && (best.None? || Before(records[id], records[best.value])) {
          best := Some(id);
        }
        i := i + 1;
      }
      assert order[..|order|] == order;
    }

    method ClaimNext(worker: string, lease: int, now: int) returns (r: Result<Option<QueueRecord>, QueueError>)
      requires Valid()
      modifies this`records, this`attempts, this`events
      ensures Valid() && State() == Apply(old(State()), JobQueue.ClaimNext(worker, lease, now))
      ensures r.Failure? <==> lease <= 0
      ensures r.Success? ==>
                var next := SelectNext(old(State()).jobs, old(State()).order, now);
                r.value == if next.Some? && next.value in State().jobs
                           then Some(State().jobs[next.value].record) else None
    {
      if lease <= 0 {
        RefusedClaim(State(), worker, lease, now);
        return Failure(InvalidValue);
      }
      var next := FirstClaimable(now);
      if next.None? {
        return Success(None);
      }
      SelectedIsClaimable(State(), now);
      r := ClaimJob(next.value, worker, lease, now);
    }

    /** Start the selected job under a new attempt. */
    method ClaimJob(id: string, worker: string, lease: int, now: int) returns (r: Result<Option<QueueRecord>, QueueError>)
      requires Valid() && lease > 0 && SelectNext(State().jobs, State().order, now) == Some(id)
      requires id in State().jobs && Claimable(State().jobs[id].record, now)
      modifies this`records, this`attempts, this`events
      ensures Valid() && State() == Apply(old(State()), JobQueue.ClaimNext(worker, lease, now))
      ensures id in State().jobs && r == Success(Some(State().jobs[id].record))
    {
      var record := records[id];
      var jobId := record.state.jobId;
      var number := record.attemptCount + 1;
      var claimed := record.(
        state := record.state.(status := Running), attemptCount := number, nextAttemptAt := None,
        leaseOwner := Some(worker), leaseExpiresAt := Some(now + lease), heartbeatAt := Some(now),
        startedAt := if record.startedAt.Some? then record.startedAt else Some(now),
        error := None, version := record.version + 1);
      ghost var op := Claim(worker, lease, now);
      assert claimed == NextRecord(record, op);
      var attempt := Attempt(jobId, number, worker, InProgress, now, None, None, None);
      ClaimIs(State(), jobId, worker, lease, now, claimed, attempt);
      Start(jobId, claimed, attempt, now);
      return Success(Some(claimed));
    }

    method Heartbeat(worker: string, jobId: string, lease: int, now: int) returns (r: Result<Option<int>, QueueError>)
      requires Valid()
      modifies this`records
      ensures Valid() && State() == OnJob(old(State()), jobId, JobQueue.Heartbeat(worker, lease, now))
      ensures r == if lease <= 0 then Failure(InvalidValue)
                   else if jobId in old(State()).jobs
                           && Accepts(old(State()).jobs[jobId].record, JobQueue.Heartbeat(worker, lease, now))
                   then Success(Some(now + lease)) else Success(None)
    {
      ghost var op := JobQueue.Heartbeat(worker, lease, now);
      if lease <= 0 {
        return Failure(InvalidValue);
      }
      if jobId !in records
         || records[jobId].leaseOwner != Some(worker)
         || !(records[jobId].state.status.Running? || records[jobId].state.status.CancelRequested?)
         || records[jobId].leaseExpiresAt.None?
         || records[jobId].leaseExpiresAt.value <= now {
        return Success(None);
      }
      var record := records[jobId];
      records := records[jobId := record.(heartbeatAt := Some(now), leaseExpiresAt := Some(now + lease),
                                          version := record.version + 1)];
      Written(old(records), old(attempts), old(events), records, attempts, events, jobId,
              Do(old(State()).jobs[jobId], op));
      ConsistentKept(old(records), order, index, jobId, records[jobId]);
      return Success(Some(now + lease));
    }

    method Complete(worker: string, jobId: string, state: RCAState, checkpoint: Option<string>, now: int)
      returns (r: Result<QueueRecord, QueueError>)
      requires Valid()
      modifies this`records, this`attempts, this`events
      ensures State() == OnJob(old(State()), jobId, JobQueue.Complete(worker, state, checkpoint, now))
      ensures Valid() <==> OwnId(State(), jobId)
      ensures r == if jobId in old(State()).jobs
                      && Accepts(old(State()).jobs[jobId].record, JobQueue.Complete(worker, state, checkpoint, now))
                   then Success(State().jobs[jobId].record) else Failure(LeaseLost)
    {
      ghost var op := JobQueue.Complete(worker, state, checkpoint, now);
      if jobId !in records || !OwnsActiveLease(records[jobId], worker, now) {
        return Failure(LeaseLost);
      }
      var record := records[jobId];
      var finalStatus, finalState, outcome, eventType;
      if record.state.status == CancelRequested {
        finalStatus, finalState := Cancelled, record.state.(status := Cancelled);
        outcome, eventType := CancelledRun, JobCancelled;
      } else if record.state.status == Running {
        finalStatus, finalState := Completed, state.(status := Completed);
        outcome, eventType := Succeeded, JobCompleted;
      } else {
        return Failure(LeaseLost);
      }
      var final := record.(
        state := finalState, leaseOwner := None, leaseExpiresAt := None, heartbeatAt := None,
        completedAt := Some(now), checkpoint := checkpoint, error := None, version := record.version + 1);
      assert final == NextRecord(record, op);
      ClosingIs(State(), jobId, op, final, eventType, StatusOfAttempt(finalStatus, record.attemptCount));
      Commit(jobId, final, record.attemptCount, Amendment(outcome, now, None, Some(checkpoint)),
             eventType, StatusOfAttempt(finalStatus, record.attemptCount), now);
      return Success(final);
    }

    method FailAttempt(worker: string, jobId: string, error: Error, retryable: bool, retryAfter: int,
                       partial: Option<RCAState>, checkpoint: Option<string>, now: int)
      returns (r: Result<QueueRecord, QueueError>)
      requires Valid()
      modifies this`records, this`attempts, this`events
      ensures Valid() <==> OwnId(State(), jobId)
      ensures State() == OnJob(old(State()), jobId,
                               Fail(worker, error, retryable, retryAfter, partial, checkpoint, now))
      ensures r == if jobId in old(State()).jobs && OwnsActiveLease(old(State()).jobs[jobId].record, worker, now)
                   then Success(State().jobs[jobId].record) else Failure(LeaseLost)
    {
      if jobId !in records || !OwnsActiveLease(records[jobId], worker, now) {
        return Failure(LeaseLost);
      }
      var record := records[jobId];
      var next := Failed;
      if record.state.status == CancelRequested {
        next := Cancelled;
      } else if retryable && record.attemptCount < record.maxAttempts {
        next := RetryWait;
      }
      var updated := WriteFailure(worker, jobId, next, error, retryable, retryAfter, partial, checkpoint, now);
      return Success(updated);
    }

    /** Store a failed attempt under the status that was decided. */
    method WriteFailure(worker: string, jobId: string, next: Status, error: Error, retryable: bool, retryAfter: int,
                        partial: Option<RCAState>, checkpoint: Option<string>, now: int)
      returns (updated: QueueRecord)
      requires Valid() && jobId in records && OwnsActiveLease(records[jobId], worker, now)
      requires next == FailedStatus(records[jobId], retryable)
      modifies this`records, this`attempts, this`events
      ensures Valid() <==> OwnId(State(), jobId)
      ensures State() == OnJob(old(State()), jobId,
                               Fail(worker, error, retryable, retryAfter, partial, checkpoint, now))
      ensures jobId in State().jobs && updated == State().jobs[jobId].record
    {
      ghost var op := Fail(worker, error, retryable, retryAfter, partial, checkpoint, now);
      var record := records[jobId];
      var base := if partial.Some? then partial.value else record.state;
      var nextAttemptAt := if next == RetryWait then Some(now + Max(0, retryAfter)) else None;
      updated := record.(
        state := base.(status := next), nextAttemptAt := nextAttemptAt,
        leaseOwner := None, leaseExpiresAt := None, heartbeatAt := None,
        completedAt := if Terminal(next) then Some(now) else None,
        error := Some(error), checkpoint := checkpoint, version := record.version + 1);
      assert updated == NextRecord(record, op);
      var outcome := if next == Cancelled then CancelledRun else GaveUp;
      var t := match next { case RetryWait => JobRetryScheduled case Cancelled => JobCancelled case _ => JobFailed };
      var p := AttemptFailure(next, record.attemptCount, retryable, nextAttemptAt, error);
      ClosingIs(State(), jobId, op, updated, t, p);
      Commit(jobId, updated, record.attemptCount, Amendment(outcome, now, Some(Some(error)), Some(checkpoint)),
             t, p, now);
    }

    method RequestCancel(jobId: string, now: int) returns (r: Result<Option<QueueRecord>, QueueError>)
      requires Valid()
      modifies this`records, this`events
      ensures Valid() && State() == OnJob(old(State()), jobId, Cancel(now))
      ensures r == if jobId !in old(State()).jobs then Success(None)
                   else match old(State()).jobs[jobId].Status()
                        case Completed | Failed => Failure(NotCancellable)
                        case Pending | Skipped => Failure(InvalidTransition)
                        case _ => Success(Some(State().jobs[jobId].record))
    {
      ghost var op := Cancel(now);
      if jobId !in records {
        return Success(None);
      }
      var record := records[jobId];
      var current := record.state.status;
      if current == Cancelled {
        return Success(Some(record));
      }
      if current == Completed || current == Failed {
        return Failure(NotCancellable);
      }
      var immediate := current == Queued || current == RetryWait;
      var next := if immediate then Cancelled else CancelRequested;
      if !ValidTransition(current, next) {
        return Failure(InvalidTransition);
      }
      var updated := record.(
        state := record.state.(status := next), cancelRequestedAt := Some(now),
        completedAt := if immediate then Some(now) else record.completedAt,
        nextAttemptAt := if immediate then None else record.nextAttemptAt,
        version := record.version + 1);
      assert Accepts(record, op) && updated == NextRecord(record, op);
      var t := if immediate then JobCancelled else JobCancelRequested;
      assert Logged(record, op) == Some((t, StatusOnly(next)));
      WriteAndLog(jobId, updated, t, StatusOnly(next), now);
      return Success(Some(updated));
    }

    method StaleIds(now: int) returns (ids: seq<string>)
      requires Valid()
      ensures Distinct(ids)
      ensures forall id :: id in ids <==> id in State().jobs && Stale(State().jobs[id].record, now)
    {
      ids := [];
      var i := 0;
      while i < |order|
        invariant i <= |order| && Distinct(ids)
        invariant forall id :: id in ids <==> id in order[..i] && Stale(records[id], now)
        invariant forall id <- order :: id in records
      {
        assert order[..i + 1] == order[..i] + [order[i]];
        if Stale(records[order[i]], now) {
          ids := ids + [order[i]];
        }
        i := i + 1;
      }
      assert order[..|order|] == order;
    }

    /** The body of the recovery loop for one stale job. */
    method RecoverJob(jobId: string, retryAfter: int, now: int)
      requires Valid() && jobId in State().jobs && Stale(State().jobs[jobId].record, now)
      modifies this`records, this`attempts, this`events
      ensures Valid()
      ensures State() == OnJob(old(State()), jobId, Recover(retryAfter, now))
    {
      var record := records[jobId];
      ghost var op := Recover(retryAfter, now);
      var next := Failed;
      if record.state.status == CancelRequested {
        next := Cancelled;
      } else if record.attemptCount < record.maxAttempts {
        next := RetryWait;
      }
      assert next == FailedStatus(record, true);
      var error := LeaseExpired(next == RetryWait);
      var updated := record.(
        state := record.state.(status := next),
        nextAttemptAt := if next == RetryWait then Some(now + retryAfter) else None,
        leaseOwner := None, leaseExpiresAt := None, heartbeatAt := None,
        completedAt := if Terminal(next) then Some(now) else None,
        error := Some(error), version := record.version + 1);
      assert updated == NextRecord(record, op);
      var t := if next == Cancelled then JobCancelled else JobLeaseRecovered;
      ClosingIs(State(), jobId, op, updated, t, StatusOfAttempt(next, record.attemptCount));
      Commit(jobId, updated, record.attemptCount, Amendment(Abandoned, now, Some(Some(error)), None),
             t, StatusOfAttempt(next, record.attemptCount), now);
    }

    method RecoverEach(ids: seq<string>, retryAfter: int, now: int)
      requires Valid() && Distinct(ids)
      requires forall id <- ids :: id in State().jobs && Stale(State().jobs[id].record, now)
      modifies this`records, this`attempts, this`events
      ensures Valid() && State() == OnEach(old(State()), ids, Recover(retryAfter, now))
    {
      ghost var s, op := State(), Recover(retryAfter, now);
      var i := 0;
      while i < |ids|
        invariant i <= |ids| && Valid() && State() == OnEach(s, ids[..i], op)
      {
        OneMore(s, ids, i, op);
        RecoverJob(ids[i], retryAfter, now);
        i := i + 1;
      }
      assert ids[..|ids|] == ids;
    }

    method RecoverStaleLeases(retryAfter: int, now: int) returns (count: nat)
      requires Valid()
      modifies this`records, this`attempts, this`events
      ensures Valid() && State() == Apply(old(State()), RecoverAll(retryAfter, now))
      ensures count == |set id | id in old(State()).jobs && Stale(old(State()).jobs[id].record, now)|
    {
      var ids := StaleIds(now);
      OnEachIsOnAll(State(), ids, Recover(retryAfter, now));
      StaleCount(State().jobs, ids, now);
      RecoverEach(ids, retryAfter, now);
      return |ids|;
    }

    method RecordProgressEvent(worker: string, jobId: string, name: string, body: string, now: int)
      returns (r: Result<Event, QueueError>)
      requires Valid()
      modifies this`events
      ensures Valid() && State() == OnJob(old(State()), jobId, Progress(worker, name, body, now))
      ensures r == if !PublicEventName(name) then Failure(InvalidValue)
                   else if jobId in old(State()).jobs
                           && Accepts(old(State()).jobs[jobId].record, Progress(worker, name, body, now))
                   then Success(Event(jobId, |old(State()).jobs[jobId].events| + 1, Workflow(name), Facts(body), now))
                   else Failure(LeaseLost)
    {
      ghost var op := Progress(worker, name, body, now);
      if !PublicEventName(name) {
        return Failure(InvalidValue);
      }
      if jobId !in records || !OwnsActiveLease(records[jobId], worker, now)
         || !Leased(records[jobId].state.status) {
        return Failure(LeaseLost);
      }
      var e := AppendEvent(jobId, Workflow(name), Facts(body), now);
      Written(old(records), old(attempts), old(events), records, attempts, events, jobId,
              Do(old(State()).jobs[jobId], op));
      ConsistentKept(old(records), order, index, jobId, records[jobId]);
      return Success(e);
    }
  }

  lemma {:induction false} SelectedInOrder(jobs: map<string, Job>, order: seq<string>, now: int)
    ensures var next := SelectNext(jobs, order, now);
            next.Some? ==> next.value in order && next.value in jobs && Claimable(jobs[next.value].record, now)
  {
    if order != [] {
      SelectedInOrder(jobs, order[..|order| - 1], now);
    }
  }

  lemma RefusedClaim(s: Store, worker: string, lease: int, now: int)
    requires lease <= 0
    ensures Apply(s, ClaimNext(worker, lease, now)) == s
  {
    assert Apply(s, ClaimNext(worker, lease, now)).jobs == s.jobs;
  }

  lemma SelectedIsClaimable(s: Store, now: int)
    ensures var next := SelectNext(s.jobs, s.order, now);
            next.Some? ==> next.value in s.jobs && Claimable(s.jobs[next.value].record, now)
  {
    SelectedInOrder(s.jobs, s.order, now);
  }
}
