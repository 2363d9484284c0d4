# Yield RCA: job queue, event stream, approval and benchmark models

A Dafny model of the parts of the Yield RCA backend whose correctness is spread over many small
mutators, with proofs over every input, interleaving or run. `dafny verify dfyconfig.toml` checks
the whole project.

## What is modelled

**The leased job queue.** `JobQueue` is the specification: a job is a record, an attempt ledger and
an event log; `Op` lists what can happen to one job, `Action` what can happen to the store, and
`Apply`/`Run` are a step and a run of any number of workers, cancellers, recoverers and submitters
with clocks that need not agree. `QueueInvariants` proves what every step keeps, `QueueTheorems` what
follows for whole runs, and `QueueHistory` what each operation leaves behind and how record, ledger and
log agree about it. `InMemoryStore` is the process-local store as a class whose
methods overwrite dictionaries in place; every method is proved equal to its step, so all theorems
are about that object. `PostgresStore` is the second implementation, one atomic step on the row
tables per transaction; it refines the same specification except where the two really differ, and
those differences are characterised exactly; `StoreDifferences` leads both stores from empty, in agreement
all along, to each of them. `QueueWorker` is the worker process against the in-memory store (claim,
heartbeats beside the workflow, commit or discard, the recovery loop), `WorkerLoop` its loop as a run of the
queue, and `WorkerFleet` is any number of such processes interleaved.

**The event stream.** `EventStream` is the polling loop behind the server-sent events and a client
that reconnects with the last id it received.

**Dual-engineer approval.** `MemoryApproval` is the decision rule and the in-memory store of
candidates, published cases and documents.

**Model-call telemetry.** `ModelCapture` is the chain of nested capture scopes, in place and as a stack.
`TelemetryLedger` is the acceptance audit of a captured ledger and its projection into call records, and
`AuditReasons` what each reason and each record says of the events themselves.

**Benchmark evaluation.** `Scoring` holds the three-valued candidate decisions, the funnel that
groups snapshots by operation and attempt, and the quality rates; `ScoringReadings` says what each answer
means. `CostBounds` is the cost interval of a call and of a run. `BenchmarkPlan` is the counterbalanced run
plan, `PilotLedger` the crash-safe dispatch ledger, and `RerankerCache` the cache of reranker logits.

## What the code does that its documentation does not say

- The event stream is documented as closing "after a terminal Event" (docs/async-job-queue.md:168).
  The log is listed before the status is read, so when a job finishes between the two reads the
  stream closes without ever sending the terminal event; `EventStream.ClosingDeliversAllIff` says
  exactly when and `EventStream.TerminalEventMissed` is such a run.
- A retryable failure that stores a partial state replaces the job's creation time in memory and in
  the stored state, but not in the row's own creation column. `StoreDifferences.FailureReordersClaims`
  leads both stores, from empty and in agreement all along, to a claim that gives different jobs;
  `PostgresStore.ClaimQueryAgreesIff` says exactly when a claim does.
- Repeating a cancellation writes a new version and event in memory and nothing in the database
  (`StoreDifferences.RepeatedCancelDiverges`); a negative recovery delay is clamped only by the database
  (`StoreDifferences.NegativeDelayDiverges`); `PostgresStore.AgreesExactly` says that nothing else on one job
  differs. A record that is not queued, as inline execution submits it, gets a different first event in each
  store (`PostgresStore.EnqueueRefinesIff`, `StoreDifferences.UnqueuedRecordDiverges`), and a recovery of more
  than 100 stale jobs leaves some behind in the database only (`PostgresStore.RecoveryRefinesIff`,
  `StoreDifferences.LargeRecoveryDiverges`).
- The in-memory store does not look at the job id of a state it is given: a result or a partial state of
  another job is stored under this one (`InMemoryStore.OwnIdIff`, `InMemoryStore.ForeignStateIsStored`).
- A component or an assertion observed later can unsettle a candidate that was already fully grounded,
  when its root restricts the granularity of the proof: `Scoring.VerdictsAreSound` says exactly when,
  `Scoring.AssessmentIsSound` what it does to the funnel, and `Scoring.LaterObservationUnsettles` is such a candidate.
- Two worker processes that share an id defeat the fencing: the test is on the worker id and the
  expiry, not on the attempt (`WorkerFleet.SharedIdAcceptsStaleResult`).
- A status change is bounded by `2 * max_attempts + 1` per job, and no smaller bound holds.
- A reranker query with line breaks can be answered with another query's logit; the exact condition
  is `RerankerCache.Separable`.
- The dispatch ledger pads names to two digits, so a plan of more than 100 runs stops for good after
  its hundredth (`PilotLedger.AllLaunchedIff`); it never launches out of order.

## Model

| member | source | states |
|---|---|---|
| `QueueInvariants.StatusStep` | backend/yield_rca_api/store.py:53-113 | every accepted operation moves along the transition table, although most mutators never consult it |
| `QueueInvariants.TerminalRefuses` | backend/yield_rca_api/store.py:318-330 | no operation is accepted on a completed, failed or cancelled job |
| `QueueInvariants.StepInv` | backend/yield_rca_api/store.py:399-754 | each operation keeps record, attempt ledger and event log in agreement |
| `QueueInvariants.ApplyPreserves` | backend/yield_rca_api/store.py:369-754 | every store step keeps the whole-store invariant |
| `QueueInvariants.RunPreserves` | backend/yield_rca_api/store.py:369-823 | over any interleaving the invariant holds, jobs stay, attempts and events are only added |
| `QueueInvariants.RunOnJob` | backend/yield_rca_api/store.py:369-823 | a run affects a job only through the operations performed on that job |
| `QueueInvariants.OnEachIsOnAll` | backend/yield_rca_api/store.py:683-754 | recovering stale jobs one after another is recovering all of them at once |
| `QueueTheorems.LeaseAgreesWithLedger` | backend/yield_rca_api/store.py:399-754 | reachable states: owner set iff leased status iff the last attempt is the only running one and is the owner's; attempts are 1..n, n at most max_attempts |
| `QueueTheorems.LogReplaysToRecord` | backend/yield_rca_api/store.py:332-348 | a fold of the event log gives the record's status and attempt count; sequences have no gap and consecutive statuses are legal |
| `QueueTheorems.TerminalReportedOnce` | backend/yield_rca_api/store.py:546-551 | a job reports at most one terminal status and nothing after it |
| `QueueTheorems.OneJobPerKey` | backend/yield_rca_api/store.py:369-393 | one idempotency key never names two jobs, and a repeated request writes nothing and is answered with the first job or refused as a conflict |
| `QueueHistory.EnqueueAnswers` | backend/yield_rca_api/store.py:369-393 | a submission adds a job iff neither its id nor its key is known, and is otherwise answered with the job of that key or refused as a conflict or a duplicate |
| `QueueHistory.EnqueueAdds` | backend/yield_rca_api/store.py:369-393 | what a submission adds: the record under its id, last in the order, with an empty ledger and one event |
| `QueueTheorems.ChangesWithinBudget` | backend/yield_rca_api/store.py:573-709 | status changes are paid from 2·(attempts left) + rank, however steps interleave |
| `QueueTheorems.StatusChangeBound` | backend/yield_rca_api/store.py:432-709 | a queued job changes status at most 2·max_attempts + 1 times in any run |
| `QueueTheorems.StatusChangeBoundIsTight` | backend/yield_rca_api/store.py:432-709 | for every max_attempts a run of store calls from the empty store meets the bound |
| `QueueTheorems.CancellationSticks` | backend/yield_rca_api/store.py:514-526 | once cancellation was requested the status is for ever cancel_requested or cancelled |
| `QueueTheorems.TerminalForever` | backend/yield_rca_api/store.py:646-709 | a terminal job's record, attempts and log never change again |
| `QueueTheorems.FinishedAttemptIsFixed` | backend/yield_rca_api/store.py:350-362 | an attempt leaves running once, and how it ended is fixed |
| `QueueTheorems.CommitAcceptedIff` | backend/yield_rca_api/store.py:318-330 | a result, failure, heartbeat or progress event is taken exactly from the worker of the newest, running attempt while its lease lives |
| `QueueTheorems.TakeoverFencesOldWorker` | backend/yield_rca_api/store.py:499-632 | after a takeover the former owner can write nothing, whatever clock it carries |
| `QueueTheorems.SelectNextExists` | backend/yield_rca_api/store.py:410-426 | a claim finds a job iff one is claimable, and finds the first one in claim order |
| `QueueTheorems.ClaimTakesFirst` | backend/yield_rca_api/store.py:410-426 | no ready job of higher priority, or as high and created earlier, is passed over |
| `QueueTheorems.HeartbeatsKeepLease` | backend/yield_rca_api/worker.py:240-261 | heartbeats less than a lease apart: no recovery and no other worker takes the job before its commit |
| `QueueTheorems.BackoffHolds` | backend/yield_rca_api/store.py:578-588 | after a retryable failure nothing issued before the delay it asked for is over restarts the job |
| `QueueHistory.ClosingDecides` | backend/yield_rca_api/store.py:507-588 | where a result, a failure and an expired lease lead: a requested cancellation wins, and a retry needs an attempt left |
| `QueueHistory.ClosingWrites` | backend/yield_rca_api/store.py:350-362 | ending an attempt writes when, how and with what error and checkpoint it ended, and touches neither its start nor any other attempt |
| `QueueHistory.ClosingStores` | backend/yield_rca_api/store.py:507-620 | the state stored is the result, the partial state of the failure, or the one there was |
| `QueueHistory.ClosingLogs` | backend/yield_rca_api/store.py:546-632 | the one event logged: the status reached, the attempt ended and, of a failure, its error and how long it waits |
| `QueueHistory.ReportAppends` | backend/yield_rca_api/store.py:797-823 | a progress report adds its event and changes nothing else |
| `QueueHistory.CancelDecides` | backend/yield_rca_api/store.py:634-681 | a cancellation is refused on terminal jobs only; it ends a job with no running attempt and asks any other to end |
| `QueueHistory.LeaseWindow` | backend/yield_rca_api/store.py:428-497 | for exactly the lease after a claim or a heartbeat its worker, and no other, can commit; from then on the job is stale |
| `QueueHistory.RetryWindow` | backend/yield_rca_api/store.py:583-588 | a retried job can be claimed exactly from its delay on; a failure's delay is never negative |
| `QueueHistory.RecoveryLeavesNoneStale` | backend/yield_rca_api/store.py:683-754 | a recovery changes exactly the stale jobs and leaves none stale |
| `QueueHistory.ReportedNames` | backend/yield_rca_api/store.py:806-807 | a worker reports under names of four families only, never under one of the queue's own |
| `QueueHistory.VersionCountsWrites` | backend/yield_rca_api/store.py:428-754 | the version of a record counts the operations that wrote it |
| `QueueHistory.HistoryAgrees` | backend/yield_rca_api/store.py:369-823 | in every reachable state the log alone gives each attempt's start and end, every event fits the attempt it names and its status, and the record repeats the ledger's first start, last error, last committed checkpoint and end |
| `InMemoryStore.InMemoryRCAJobStore.Enqueue` | backend/yield_rca_api/store.py:369-393 | the enqueue step, and the reply: the stored job, a conflict, a duplicate or the new record |
| `InMemoryStore.InMemoryRCAJobStore.FirstClaimable` | backend/yield_rca_api/store.py:410-426 | the scan of the dictionary returns the specified next job |
| `InMemoryStore.InMemoryRCAJobStore.ClaimNext` | backend/yield_rca_api/store.py:399-461 | the in-place claim is the claim step and returns the claimed record |
| `InMemoryStore.InMemoryRCAJobStore.Heartbeat` | backend/yield_rca_api/store.py:463-497 | the lease is renewed exactly for its live owner |
| `InMemoryStore.InMemoryRCAJobStore.Complete` | backend/yield_rca_api/store.py:499-552 | for any supplied state the in-place completion is the completion step, or the lease is lost and nothing is written; the store stays well-formed iff the job keeps its own id |
| `InMemoryStore.InMemoryRCAJobStore.FailAttempt` | backend/yield_rca_api/store.py:554-632 | for any supplied state the in-place failure is the failure step, or the lease is lost and nothing is written; the store stays well-formed iff the job keeps its own id |
| `InMemoryStore.OwnIdIff` | backend/yield_rca_api/store.py:499-632 | the job keeps its id iff the state that is stored carries it, and a cancelled job keeps its own state |
| `InMemoryStore.ForeignStateIsStored` | backend/yield_rca_api/store.py:499-552 | a reachable running job, completed with the state of another job, is stored as that other job |
| `InMemoryStore.InMemoryRCAJobStore.RequestCancel` | backend/yield_rca_api/store.py:634-681 | the cancellation step and each of its replies |
| `InMemoryStore.InMemoryRCAJobStore.RecoverStaleLeases` | backend/yield_rca_api/store.py:683-754 | the recovery loop is one step on all jobs and counts the stale ones |
| `InMemoryStore.InMemoryRCAJobStore.RecordProgressEvent` | backend/yield_rca_api/store.py:797-823 | a progress event is appended exactly for the live owner of a leased job |
| `InMemoryStore.InMemoryRCAJobStore.ListEvents` | backend/yield_rca_api/store.py:782-795 | the events after a cursor, in order |
| `QueueWorker.Perform` | backend/yield_rca_api/store.py:203-295 | any one call on the store, with any record or state, is that step of the queue; the store stays well-formed iff the job it writes keeps its own id |
| `QueueWorker.RCAQueueWorker.RunWorkflow` | backend/yield_rca_api/worker.py:240-261 | heartbeats beside the workflow stop at the first refused one, which sets the lost flag |
| `QueueWorker.StopsAtFirstRefusal` | backend/yield_rca_api/worker.py:240-261 | everything that happens beside the workflow reaches the store in order up to the first heartbeat it refuses, and from then on everything but heartbeats |
| `QueueWorker.RCAQueueWorker.EndAttempt` | backend/yield_rca_api/worker.py:386-470 | commit, report of the failure with its backoff, or silent discard after a lost lease |
| `QueueWorker.RCAQueueWorker.RunOnce` | backend/yield_rca_api/worker.py:362-501 | a round is exactly its run of store calls, and says what was committed |
| `QueueWorker.RCAQueueWorker.RunForever` | backend/yield_rca_api/worker.py:503-520 | the loop is its passes, with recovery when it is due |
| `QueueWorker.CommitsItsOwnAttempt` | backend/yield_rca_api/worker.py:362-501 | a committed round closes the attempt it claimed, no attempt was started since, and a cancellation wins |
| `QueueWorker.CommitsItsOutcome` | backend/yield_rca_api/worker.py:386-470 | a committed round leaves what its workflow came to: the result with its checkpoint, or the error with the partial state, retried only if retryable and while attempts are left |
| `QueueWorker.BackoffDoubles` | backend/yield_rca_api/worker.py:453 | the first failed attempt is retried after the base, and each later one after exactly twice the delay of the attempt before it |
| `QueueWorker.RoundIsLegal` | backend/yield_rca_api/worker.py:362-501 | every round is a legal run of the queue |
| `QueueWorker.TimelyRoundCommits` | backend/yield_rca_api/worker.py:362-501 | a round whose heartbeats and commit follow one another within the heartbeat interval commits, whatever the other processes do meanwhile |
| `WorkerLoop.LoopIsLegal` | backend/yield_rca_api/worker.py:503-520 | the loop is a legal run of one pass for each tick: a recovery first in exactly the passes where the last is long enough ago, then one claim and no other; no pass ends with a recovery overdue |
| `WorkerFleet.AcceptedResultIsForItsOwnAttempt` | backend/yield_rca_api/worker.py:362-501 | any interleaving of workers with distinct ids: an accepted result was computed for the newest attempt, closes only it, and no other worker could have written anything to the job |
| `WorkerFleet.ClaimStarts` | backend/yield_rca_api/worker.py:362-385 | a claim that finds a job makes its worker busy with the newest attempt, which it runs |
| `WorkerFleet.ResultCounts` | backend/yield_rca_api/worker.py:386-400 | a result brought while the lease lives ends the worker's attempt, with the result unless the job was to be cancelled |
| `WorkerFleet.SharedIdAcceptsStaleResult` | backend/yield_rca_api/store.py:318-330 | with a shared id a stale result is accepted (concrete run) |
| `PostgresStore.TxRefines` | backend/yield_rca_api/store.py:1058-1586 | one transaction on one job writes the job the in-memory operation writes |
| `PostgresStore.AgreesExactly` | backend/yield_rca_api/store.py:1405-1586 | the two stores agree iff it is not a repeated cancel nor a recovery with a negative delay |
| `PostgresStore.StampsAre` | backend/yield_rca_api/store.py:1058-1586 | a row that changes carries the caller's clock and keeps its creation column; the one event added carries the database's clock |
| `PostgresStore.ViolatesIffKnown` | backend/yield_rca_api/store.py:900-941 | the unique constraints refuse, and reply, exactly as the in-memory store |
| `PostgresStore.EnqueueRefinesIff` | backend/yield_rca_api/store.py:860-928 | a new record is stored alike in both stores iff it is queued |
| `PostgresStore.StepRefinesIff` | backend/yield_rca_api/store.py:853-1744 | one enqueue, claim query, recovery query or single-job call leaves the same jobs in both stores iff the stated agreement holds |
| `PostgresStore.RunRefinesIff` | backend/yield_rca_api/store.py:853-1744 | over whole runs, claims and recoveries included, the stores hold the same jobs throughout iff every call agrees |
| `PostgresStore.ClaimQueryAgreesIff` | backend/yield_rca_api/store.py:1076-1088 | the claim query returns the job the in-memory store selects iff the creation columns and ids put it first among ready jobs of that priority; ties and lagging columns included |
| `PostgresStore.RecoveryRefinesIff` | backend/yield_rca_api/store.py:1481-1586 | one recovery does the same in both stores iff at most 100 jobs are stale and no job to be retried gets a negative delay |
| `StoreDifferences.FailureReordersClaims` | backend/yield_rca_api/store.py:1281-1403 | a run from empty stores, in agreement all along, after which a claim gives a different job in each |
| `StoreDifferences.RepeatedCancelDiverges` | backend/yield_rca_api/store.py:1405-1445 | the same for a running job that is cancelled twice |
| `StoreDifferences.NegativeDelayDiverges` | backend/yield_rca_api/store.py:1481-1586 | the same for a job retried by a recovery with a negative delay |
| `StoreDifferences.LargeRecoveryDiverges` | backend/yield_rca_api/store.py:1481-1586 | the same for a recovery when 101 jobs are stale |
| `StoreDifferences.UnqueuedRecordDiverges` | backend/yield_rca_api/store.py:900-928 | the same for a first record in any status but queued |
| `EventStream.Stream` | backend/yield_rca_api/app.py:1217-1236 | the polling loop yields exactly the specified frames |
| `EventStream.StreamFromStore` | backend/yield_rca_api/app.py:1217-1236 | the same loop against the in-memory store, other processes calling it between the two reads, yields the frames specified for what the queue then is |
| `EventStream.StreamDeliversSlice` | backend/yield_rca_api/app.py:1217-1236 | one connection delivers the log after its cursor: no gap, duplicate or reorder |
| `EventStream.ReconnectsAreSeamless` | backend/yield_rca_api/app.py:1194-1236 | any number of reconnects concatenate to one contiguous slice |
| `EventStream.QuietConnectionBeats` | backend/yield_rca_api/app.py:1230-1235 | a connection with nothing to send gets keep-alives only, at least the interval and at most the interval and one poll apart |
| `EventStream.StreamFollowsQueue` | backend/yield_rca_api/app.py:1217-1236 | the same while the queue runs on between any two reads |
| `EventStream.ClosingDeliversAllIff` | backend/yield_rca_api/app.py:1217-1236 | a whole connection that the server closes has delivered the rest of the final log iff the job was already terminal when its last events were listed, or the cursor was at the end |
| `EventStream.TerminalEventMissed` | backend/yield_rca_api/app.py:1220-1230 | a reachable run whose stream closes without the terminal event |
| `MemoryApproval.InMemoryMemoryStore.CommitDecision` | backend/yield_rca_api/memory.py:378-413 | the in-place commit is the decision step; a refused decision writes nothing |
| `MemoryApproval.InMemoryMemoryStore.DecideAs` | backend/yield_rca_api/memory.py:764-788 | the service call is the decision under the normalised identity, and is answered with the stored candidate or with the reason it is refused for |
| `MemoryApproval.DecisionTakenIff` | backend/yield_rca_api/memory.py:255-289 | a decision is taken iff the candidate is pending, the engineer has not decided under any spelling, and a second approval does not still lack its process engineer; rejections need no one else |
| `MemoryApproval.DecisionWrites` | backend/yield_rca_api/memory.py:270-345 | a taken decision adds its approval, a rejection rejects, a second approval publishes case and document, and the audit says so; nothing else changes |
| `MemoryApproval.SameIdentityIff` | backend/yield_rca_api/memory.py:775 | two spellings are one identity iff, without the blanks around them, they differ in letter case only |
| `MemoryApproval.StripTakesBlanks` | backend/yield_rca_api/memory.py:775 | stripping takes the blanks off both ends, all of them and nothing else |
| `MemoryApproval.PublishedIffDualControl` | backend/yield_rca_api/memory.py:255-345 | over any decisions: published iff two approvals by distinct normalised engineers, with a process engineer where required |
| `MemoryApproval.CasesMatchCandidates` | backend/yield_rca_api/memory.py:190-233 | published cases and published candidates are in bijection |
| `MemoryApproval.CreatedOncePerJob` | backend/yield_rca_api/memory.py:360-367 | a job has one candidate: the first one created for it |
| `MemoryApproval.CaseIdsCollideIff` | backend/yield_rca_api/memory.py:190-195 | two ids share a case id iff they differ by the one prefix |
| `MemoryApproval.TerminalIsFinal` | backend/yield_rca_api/memory.py:255-307 | published and rejected candidates never change |
| `MemoryApproval.SameEngineerRefused` | backend/yield_rca_api/memory.py:764-788 | a second decision under any spelling of the same identity writes nothing |
| `MemoryApproval.PendingCanBePublished` | backend/yield_rca_api/memory.py:255-345 | every pending candidate can still be published by at most two decisions |
| `ModelCapture.EmitModelEvent` | core/yield_rca_core/model_telemetry.py:64-89 | every active scope, and no other, records the emission once |
| `ModelCapture.OpenScopeRecordsAll` | core/yield_rca_core/model_telemetry.py:52-89 | while open a scope records every emission, whatever opens and closes inside it |
| `ModelCapture.PerformAll` | core/yield_rca_core/model_telemetry.py:44-89 | any entering, leaving and emitting on the real chain of scopes is the run of the stack of their values |
| `ModelCapture.ScopeConservation` | core/yield_rca_core/model_telemetry.py:32-89 | kept events plus dropped count is all emissions, kept ones are the first in order, and complete iff all were kept |
| `ModelCapture.NestingIsTransparent` | core/yield_rca_core/model_telemetry.py:44-89 | any balanced nesting leaves the scopes around it as if there had been the emissions only |
| `TelemetryLedger.AuditLedger` | scripts/model_contract_acceptance.py:117-172 | the audit's branches and loop report exactly the specified reasons |
| `AuditReasons.ReportedIff` | scripts/model_contract_acceptance.py:117-172 | each reason is reported exactly when it holds: unreadable events, an incomplete capture and a foreign identity alone and in that order, the others together and once each |
| `AuditReasons.AcceptedIff` | scripts/model_contract_acceptance.py:117-172 | the audit accepts exactly complete captures of one identity in which each used call is asked once, answered once, tried in order from 1, and none failed at the provider |
| `TelemetryLedger.RuntimeCallRecords` | tools/model_benchmark_telemetry.py:15-100 | the grouping loops compute the specified projection or its first error, a missing kind and an attempt outcome outside the contract included |
| `TelemetryLedger.GroupedPartitions` | tools/model_benchmark_telemetry.py:20-22 | every fact is in exactly one group, in order |
| `TelemetryLedger.RecordReportsResult` | tools/model_benchmark_contract.py:106-120 | the decode check of a record says what the call's result says, with consistent counts |
| `AuditReasons.RecordGivenIff` | tools/model_benchmark_telemetry.py:24-33 | a call has a record iff it was asked once, answered at most once, is of one identity with recordable fields, and its attempts are numbered in order, or differently if the capture was incomplete |
| `AuditReasons.FaultIsFirst` | tools/model_benchmark_telemetry.py:29-33 | the identity fault reported is that of the first event that does not agree with the call |
| `AuditReasons.RecordTells` | tools/model_benchmark_telemetry.py:56-96 | the record holds the call's identity, each attempt's number in its place and their count; transport failed iff nothing was decoded and the last attempt failed |
| `AuditReasons.ProjectsIff` | tools/model_benchmark_telemetry.py:15-100 | a ledger, accepted or not, projects iff every event names its call and every call has a record |
| `TelemetryLedger.AcceptedLedgerProjects` | scripts/model_contract_acceptance.py:124-172 | an accepted ledger projects iff every attempt has one of the three outcomes of the contract and the other fields its records take from calls, results and attempts are in range; then one record per call, attempts 1..n, and the counts add up |
| `Scoring.CombineDecidedIff` | tools/benchmark_scoring.py:102-103 | a combined verdict is given iff every resolution of the unknowns gives it |
| `ScoringReadings.MatchMeans` | tools/benchmark_scoring.py:26-133 | when each dimension is a hit, a miss or unknown; windows overlap iff they share an instant, and a claim is too wide iff it has one outside the root's |
| `ScoringReadings.VerdictsMean` | tools/benchmark_scoring.py:93-142 | a miss in a dimension the root asks for, or an overclaim, is a miss; hits in all of them are a hit |
| `ScoringReadings.AssessmentMeans` | tools/benchmark_scoring.py:166-184 | a stage is a hit iff one candidate that counts is, a miss iff all that count are; confirmation counts the candidates a supported gate selected |
| `Scoring.AnyHitDecidedIff` | tools/benchmark_scoring.py:182-183 | the same of the funnel's verdict |
| `Scoring.DimensionsAreSound` | tools/benchmark_scoring.py:43-146 | resolving unknown dimensions either way never overturns an identity or grounded verdict |
| `Scoring.VerdictsAreSound` | tools/benchmark_scoring.py:26-146 | of claims read after their fallbacks: observing more of a candidate (a claim that was absent, more assertions, a component) or reviewing more roots never overturns an identity or a miss; a grounded verdict falls exactly when its root is restricted and a component or an unreviewed assertion is now observed. A claim replaced by another, as when a mechanism id appears over an earlier root cause, is not observing more |
| `Scoring.AssessmentIsSound` | tools/benchmark_scoring.py:166-184 | the same of the funnel's verdict on a snapshot; at confirmation a hit stays iff some candidate still confirms it: when no verdict was unknown, iff one that was grounded keeps the granularity of its proof |
| `Scoring.LaterObservationUnsettles` | tools/benchmark_scoring.py:105-142 | a grounded candidate that a component refutes, and another assertion leaves undecided |
| `Scoring.GroundedMeans` | tools/benchmark_scoring.py:105-142 | grounded implies identity, containment of the window, a recipe and version allowed together and no unproved detail; a missed identity is never grounded |
| `Scoring.AlignedFunnel` | tools/benchmark_scoring.py:149-225 | every bound snapshot appears once under its operation and attempt; initial recall is the first operation's |
| `Scoring.RepairCannotBackfill` | tools/benchmark_scoring.py:216-224 | later attempts and operations leave initial recall unchanged |
| `ScoringReadings.RateCounts` | tools/benchmark_scoring.py:287-308 | a rate counts each primary score of the expected outcome once: its hits, its unknowns, and all of them |
| `Scoring.RateBounds` | tools/benchmark_scoring.py:287-308 | the true rate lies between numerator and numerator plus unknown, and a value is given only when they meet |
| `Scoring.RateBoundsAttained` | tools/benchmark_scoring.py:287-308 | both ends occur |
| `CostBounds.BoundsAreSoundAndTight` | tools/benchmark_record.py:77-121 | the interval contains every possible bill and both ends are possible bills; a point iff cache and rate are known |
| `CostBounds.BoundsGivenIff` | tools/benchmark_record.py:90-106 | an interval is given iff the call is billable with valid counts and some bill for it is possible |
| `CostBounds.PointPerToken` | tools/benchmark_record.py:106-111 | the bill of a fully known call: nothing for no tokens, and each further token at its own rate |
| `CostBounds.RatesThatApply` | tools/benchmark_record.py:98-105 | the rates that may apply: of the first tier the prompt fits in, of the named tariff, or of every tariff |
| `CostBounds.RefusedOrMissing` | tools/benchmark_record.py:89-105 | which calls are refused and which have no cost |
| `CostBounds.RunBoundsGivenIff` | tools/benchmark_record.py:371-386 | a run has bounds iff it made calls, none is refused and every one has bounds |
| `CostBounds.RunBounds` | tools/benchmark_record.py:371-386 | the summed ends bound the run's bill and are attained |
| `BenchmarkPlan.MakePlan` | tools/model_benchmark_phase0.py:46-86 | the nested loops place every run where specified, or the first violated rule is reported |
| `BenchmarkPlan.PlanMadeIff` | tools/model_benchmark_phase0.py:57-66 | which plans are made, and which of the violated rules is reported |
| `BenchmarkPlan.RunIdsAreNames` | tools/model_benchmark_phase0.py:79 | the run ids of a plan are single safe file names |
| `BenchmarkPlan.RunIdsDistinct` | tools/model_benchmark_phase0.py:70-86 | run ids never repeat and order_index counts from 1 |
| `BenchmarkPlan.EachCombinationOnce` | tools/model_benchmark_phase0.py:70-86 | every case, model and replicate exactly once |
| `BenchmarkPlan.Counterbalanced` | tools/model_benchmark_phase0.py:72-75 | leads differ by at most one within a replicate and flip in the next |
| `PilotLedger.Ledger.Dispatch` | tools/pilot_launcher.py:72-120 | one dispatch against the files, with the refusals in their order |
| `PilotLedger.LaunchedArePrefix` | tools/pilot_launcher.py:77-86 | whatever the crashes, launched runs are a prefix of the plan |
| `PilotLedger.UnfinishedBlocks` | tools/pilot_launcher.py:84-85 | a run that did not finish stops every later dispatch |
| `PilotLedger.PlannedRunsLaunchOnce` | tools/pilot_launcher.py:72-120 | no run id of a frozen plan is launched twice |
| `PilotLedger.AllLaunchedIff` | tools/pilot_launcher.py:115-120 | without crashes the whole plan gets launched iff it has at most 100 runs |
| `RerankerCache.CachedRerankerBackend.ScoreLogits` | scripts/run_evaluation_v2_retrieval.py:92-114 | the delegate is asked only for missing keys, the cache and its file are extended by exactly those, and for separable queries its own scores are returned, duplicates included |
| `RerankerCache.KeysCollideIff` | scripts/run_evaluation_v2_retrieval.py:88-90 | two queries share a key iff one begins the other at a line break |
| `RerankerCache.OneLineQueriesSeparable` | scripts/run_evaluation_v2_retrieval.py:88-90 | queries without line breaks are always separable |
| `RerankerCache.ExactIffSeparable` | scripts/run_evaluation_v2_retrieval.py:88-114 | separable queries are exactly those under which no sequence of calls is ever answered wrongly |

## Left out

- Times are integers and events are ordered by their sequence: ISO strings, time zones and `timedelta` rounding are not modelled.
- An RCA state is its job id, status and creation time with opaque content; the theorems about runs are for states that carry the id of the job they are committed to, which the store does not check.
- The scan for sensitive keys in errors and checkpoints, JSON encoding, SQL text, connections and migrations.
- `save`, `create` and the inline execution path, which bypass leases and events; the queue is about jobs enqueued as `queued`.
- Row locks: a claim that skips locked rows is a claim of any one claimable row (`WorkerFleet` has that step); the database is taken to order job ids by their characters, whatever its collation.
- The worker heartbeat table, metrics, audit and usage records, and the memory candidate created after a completed job.
- The error classification table of the worker: whether a failure is retryable is an input.
- Threads: the heartbeat thread and other processes appear as store calls in any order between the claim and the commit.
- The HTTP side of the event stream: header parsing, frame encoding and the poll interval.
- The Postgres memory store, the text of cases and documents, and building a candidate from an RCA state. Upper-casing and stripping cover ASCII.
- The values of the other telemetry fields (token counts, latencies, stop reasons, labels, status codes; an attempt's outcome is modelled): whether a record accepts those of an event is one flag of that event. A field of another type than the expected one counts as missing, so which exception is raised for it is not modelled.
- The part of the acceptance script that reads the RCA state instead of the ledger.
- Text normalisation and the negation pattern of the scorer: names are taken as normalised, a denied mechanism as a flag. Coverage labels, attempt kinds and the sorting of attempts for display.
- Rates and costs are exact reals; cost ratios and the export of records are not modelled.
- The digest that orders the cases of a plan: the order is an input. Freeze, authorisation, pricing and network checks of the dispatcher are the step that stops before the latch; dry runs touch no ledger.
- The digest of the reranker cache is an injective function and its delegate scores each document on its own.
