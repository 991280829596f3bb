# Verification of the job queue, the scanner and their stores

This project models, in Dafny, the parts of the repository where state is shared
or survives failures, and proves what they promise over whole runs:

- the persistent job queue: leases, fencing, lock exclusion, recovery, retries,
  idempotent enqueue, the event log, the workflow read model and retention
  (`internal/jobs`);
- the parallel directory traversal and the marking of missing projects
  (`internal/scanner`);
- discovery of Git repositories and project links (`internal/scanner`);
- reservations of repository operations and the clone request that holds them
  (`internal/repository`, `internal/httpapi`);
- storage profiles under imports and migrations (`internal/config`);
- keyset pagination, timestamps as text, and clone URLs.

`dafny verify dfyconfig.toml` checks everything.

## How the models are built

**Queue.** `JobTables` gives the effect of each statement or transaction as a
function on the tables. `JobStore` is the store as a class whose methods rewrite
those tables and are tied to the functions and, column by column, to what each promises; `JobRuntime` runs one worker pass and
one recovery pass on it, and `WorkerPass` says what they do to the tables and shows
that each is a run of the protocol. `JobProtocol` interleaves the same functions: worker
slots with the job they hold in memory, heartbeats in their two statements,
recovery sweeps over rows read earlier, expiry, cleanup and a clock that only
moves forward. `JobInvariants`, `JobRuns`, `LockExclusion`, `ClaimFairness`,
`EnqueueRules` and `WorkflowStatus` prove properties of every run;
`QueueRules` says in plain columns and times what its steps may do and how long a retry
waits, and `JobCounterexamples` has the runs that show why their hypotheses are needed.
`ReadModel` puts the stored workflow rows beside the protocol, with a refresh in its
read and its write; `ReadModelRace` has the run in which two refreshes cross, and
`ReconcileWalk` the walk over all groups. `ActiveOnce` interleaves the look-up and the
insert of the calls that want one unfinished job per lock key.

**Scanner.** `DirectoryScan` is the work on one directory, section by section
under the mutex. `Traversal` is the state machine of several workers on one stack,
`TraversalResult` its theorems, `RootScan` the loop of a single worker.
`MissingProjects` marks rows afterwards; `Paths` has the texts it compares, and
`ScanCounterexample` two trees that lose a project.

**The rest** has one module per component: `ProjectLinks`, `Reservations`,
`CloneTarget`, `CloneHandler`, `StorageSlots`, `Pagination`, `Timestamps`, `CloneUrl`; `CloneForms`
has what the URL parser makes of each form of text.
`ReservationRuns` interleaves the reservation statements of clone requests and of the
attempts of their jobs; `ReservationRaces` has two runs at its limits. `Common`,
`Text`, `Sums` and `Ordering` are shared helpers.

## Modelling decisions

- Identifiers are opaque integers, texts are ASCII, instants are nanoseconds. Hashes
  and the base64 and JSON forms of cursors are taken as injective.
- The unique indexes and checks of the schema
  (`internal/storage/migrations/sqlite/000002_stage02_config_modules_runtime.sql`,
  `internal/storage/migrations/sqlite/000003_stage03_jobs_workers_status.sql`,
  `internal/storage/migrations/sqlite/000006_stage05_repository_manager.sql`) are guards of the
  statements that insert rows; that they hold in every reachable state is proved.
- Each transaction, and each statement outside one, is one step and reads the
  clock at that step. A sweep computes retry times from the clock it read when it
  started, as the code does.
- A sweep of the protocol may take any list of expired rows, in any order; the
  ordered selection with its limit is proved of the store.
- A refresh of the read model reads the counts of its group in one step and writes
  the row in another (`ReadModel`); it may fail without failing the call. Methods of
  `JobStore` and `JobRuntime` run without interference, and there the two are one call.
- A clone request and the attempts of the job it queued reserve under one owner, the id
  of the job. Exclusion of callers needs refreshes before a row is over and attempts that
  do not overlap; the code checks neither.
- Exclusion of handlers needs timely heartbeats: the first statement before the lease expires
  and the second before the replaced lease would have. The code checks neither.
- Fencing needs one slot per worker id. Slots of one process share their id; the
  sqlite guard forces one slot, other databases allow more.
- Overtaking is counted exactly: past its run_after a waiting job is passed only by
  jobs that were ahead of it, by inserts that ask for an earlier time and by sweeps
  that read their clock long before.
- A directory's fate (cancelled, unreadable, not stored, not enqueued) is fixed per
  directory; ignore rules and file extensions enter as flags of an entry. Storing a
  project row and recording it as seen is one critical section.
- The checks that a clone request makes against repository tables and the file
  system enter as answers that let it proceed or end it; its reads and writes of
  reservations and jobs are the modelled stores.

## Where the code is stricter or laxer than one might read it

- An enqueue with an idempotency key that runs into an unfinished repository
  operation answers "not found" instead of naming that operation
  (`JobStore.Store.EnqueueRepositoryOperation`).
- A directory name that ends in white space is recorded under another text when it
  cannot be read, and a name with a backslash is stored under another text than its
  errors; either way a project on disk can be marked missing
  (`ScanCounterexample`, with the exact condition in `MissingProjects.NeverMarkedIff`).
- A row read as unseen is marked missing even if it was disabled or seen again before
  the update (`MissingProjects.LateUpdateIff`).
- Two refreshes of one workflow group can both succeed and leave its row outdated
  (`ReadModelRace.LateWriteLosesAgreement`).
- A recovery pass that takes long sends jobs back with a retry time that is already
  over (`JobCounterexamples.StaleSweepOvertakes`).
- The handler of a clone job finds the reservations of its request and refreshes them
  in a second statement, and does not notice when a row is gone by then
  (`ReservationRaces.LateRefreshSharesKey`, with the exact condition in
  `ReservationRuns.RefreshFindsRowIff`).
- All attempts of a clone job reserve under the id of the job, so the deferred release
  of an attempt that outlives the next one frees that one's keys
  (`ReservationRaces.StaleAttemptFreesKeys`, `ReservationRuns.AttemptKeepsIff`).
- Two scans that come upon one project at the same time can queue two discoveries of
  it (`ActiveOnce.CrossingCallsInsertTwo`, `ActiveOnce.AlwaysOneIff`).
- A storage target that was staged once can not be staged again
  (`StorageSlots.SecondImportStagesNothing`).
- The repository store prints times without trailing zeros, so texts within one
  second can sort against time (`Timestamps.TrimmedOrderIff`).
- A provider host with a port that is not a number, or with a character URLs do
  not take, is accepted and then not parsed (`CloneUrl.RoundTripIff`).
- A clone target is trimmed and cleaned once more for each key. Under a root that the
  request creates, a target such as "a / / / /.", which still ends in a space after
  two passes, leaves its provisional reservation behind until it expires
  (`CloneHandler.KeepsTwoKeysIff`, `CloneHandler.BlankTailKeepsThreeKeys`).

## Model

| member | source | states |
|---|---|---|
| JobRuns.AttemptFencing | internal/jobs/store.go:454-625 | Over every run with one slot per worker id: a Start, Complete or Requeue that passes its guard comes from the claim whose attempt number is still the row's, and nobody claimed the job since. |
| JobRuns.TerminalForever | internal/jobs/store.go:557-595 | A finished row never changes again, whatever runs afterwards. |
| JobRuns.AttemptsCountClaims | internal/jobs/store.go:384-400 | attempt_count grows by exactly the number of claims of the job in the run. |
| JobRuns.EventLogTellsTable | internal/jobs/store.go:154-169 | For every unfinished job in every reachable state, cleanup included, replaying its events gives its status, and attempt_count equals its claimed events and its retries plus one while it runs. |
| JobRuns.StatusChangesBounded | internal/jobs/runtime.go:286-304 | The budget 2 * (attempts left) + (1 while running) pays for every status change of a job, exactly until it finishes. |
| JobRuns.RetriesTerminate | internal/jobs/runtime.go:347-365 | From its enqueue on, a job changes status at most 2 * max_attempts times and is never queued without an attempt left. |
| JobRuns.QueuedHasAttempt | internal/jobs/runtime.go:286-304 | The same from any reachable state: the bound is the current budget, and a queued row has an attempt left. |
| JobRuns.NoAba | internal/jobs/runtime.go:324-453 | Between the read of an expired row and the compare-and-set, the guard still holds exactly when no claim, heartbeat, end of pass or other sweep touched the lease: there is no ABA. |
| JobRuns.ExpiredLeaseStaysGone | internal/jobs/runtime.go:379-383 | A lease that was replaced after it was read never comes back. |
| JobRuns.RecoveryDecision | internal/jobs/runtime.go:347-365 | In every reachable state a sweep step that writes finds an expired lease; it requeues when an attempt is left and fails the job only when none is. |
| QueueRules.ClaimTakesFirstDue | internal/jobs/store.go:370-452 | In the protocol a claim of a job is possible exactly when it is due and first, in plain comparisons of columns, and takes it as ClaimNext does. |
| QueueRules.EndPassLeaves | internal/jobs/runtime.go:227-304 | The end of a pass, for every outcome: a job no longer leased to the worker stays as it is; a leased one ends in the status the outcome calls for, its locks given back and one event of the matching kind added, unless it is left running; a retry is queued 4 s to 5 min later. |
| QueueRules.ClaimedNotBefore | internal/jobs/store.go:384-428 | Over every run: no job is claimed before the run_after it was queued with. |
| QueueRules.RetryWaits | internal/jobs/runtime.go:286-304 | Over every run: from the end of a pass that sends its job back to the next claim of the job at least four seconds pass. |
| QueueRules.EnqueueQueues | internal/jobs/store.go:60-134 | An insert of the protocol is possible exactly where the indexes and checks let it and queues the row as it was asked for. |
| QueueRules.BeatRenews | internal/jobs/store.go:480-490 | The first statement of a heartbeat renews exactly the lease the worker still has. |
| QueueRules.BeatExtends | internal/jobs/store.go:491-499 | The second gives exactly the locks held for the job the same expiry, whoever has the lease by then. |
| JobInvariants.ClaimKeepsFenceIff | internal/jobs/runtime.go:143-148 | The only step that can break fencing is a claim, exactly when another slot under the same worker id still has the claimed job in memory. |
| JobInvariants.OtherStepsKeepFence | internal/jobs/store.go:454-625 | Every other step keeps the fence. |
| JobInvariants.ChangeJustified | internal/jobs/store.go:370-625 | Every change of a row by any step is one of claim, renew, finish, requeue, start or insert, made from a row in the state that change needs. |
| JobInvariants.HistoryKept | internal/jobs/store.go:641-656 | Every step keeps the event log in step with the table. |
| JobInvariants.InvKept | internal/jobs/store.go:370-625 | Every step keeps the invariant of rows, in-memory jobs, sweeps and the log. |
| JobInvariants.InvAlways | internal/jobs/runtime.go:133-153 | Every run from a state with the invariant keeps it. |
| JobCounterexamples.SharedWorkerIdStrandsJob | internal/jobs/runtime.go:143-148 | With two slots under one worker id a run from empty tables ends with a queued job whose attempts are used up, so no claim ever takes it; the sqlite guard in internal/app/worker/app.go:118 excludes it. |
| LockExclusion.HandlersExclude | internal/jobs/store.go:480-555 | Over every run whose heartbeats are timely, no two slots are in their handlers with live leases for jobs of one lock key. |
| LockExclusion.LiveMeansHeld | internal/jobs/store.go:501-531 | A live lease in a handler implies a held lock row on the key in the slot's own name. |
| LockExclusion.HeartbeatCoversIff | internal/jobs/store.go:480-498 | A whole heartbeat leaves its slot covered exactly when its lock row is still held at that moment. |
| LockExclusion.LockInvKept | internal/jobs/store.go:480-555 | Every timely step keeps one held row per key and the cover of every live slot. |
| JobCounterexamples.LateHeartbeatBreaksExclusion | internal/jobs/store.go:480-498 | A run in which a heartbeat fires after its lease expired ends with two live handlers on one lock key. |
| ClaimFairness.BoundedOvertaking | internal/jobs/store.go:384-428 | Once a queued job's run_after has passed, the claims made while it waits are at most the queued jobs not after it in claim order plus the steps of the run that queue a row not after it. |
| ClaimFairness.OvertakingBalance | internal/jobs/store.go:384-428 | The same exactly, over every run: claims made plus jobs ahead at the end equal jobs ahead at the start plus overtaking steps. |
| ClaimFairness.PutsAheadIff | internal/jobs/store.go:416-428 | A step puts a job ahead of a waiting one exactly when it inserts or sends back a row not after it in claim order. |
| ClaimFairness.OnlyTwoOvertake | internal/jobs/runtime.go:324-365 | Once the run_after of the waiting job has passed, that is an insert that asks for a time no later, or a sweep whose clock was read at least the drawn delay before it; nothing else. |
| JobCounterexamples.StaleSweepOvertakes | internal/jobs/runtime.go:324-350 | A run in which a sweep that read its clock a minute ago sends a job back ahead of one that was due with nothing ahead of it, and that job is claimed first. |
| ClaimFairness.Backoff | internal/jobs/runtime.go:509-527 | The doubling loop gives min(5 s * 2^(attempt-1), 5 min) times the jitter, cut at 5 min, and always lies between 4 s and 5 min. |
| ClaimFairness.BaseDelayRange | internal/jobs/runtime.go:513-520 | The delay without jitter lies between 5 s and 5 min and never shrinks with the attempt. |
| ClaimFairness.BaseDelayIs | internal/jobs/runtime.go:509-520 | The base delays are 5, 10, 20, 40, 80 and 160 seconds and five minutes from the seventh attempt on. |
| ClaimFairness.JitteredIs | internal/jobs/runtime.go:521-526 | The jittered delay is the product in whole nanoseconds, or five minutes if that is less. |
| ClaimFairness.JitterRange | internal/jobs/runtime.go:521-526 | Any jitter in [0.8, 1.2) keeps the delay between 4 s and 5 min. |
| EnqueueRules.ReplayReturnsFirstJob | internal/jobs/store.go:136-150 | Over runs: after a keyed request created a job, every later request with the same actor, type and key returns that job if the payload is the same and a conflict otherwise, and adds nothing, whatever else it asks for. |
| EnqueueRules.OneActiveOperation | internal/jobs/store.go:171-190 | In every reachable state at most one unfinished repository operation exists per lock key. |
| EnqueueRules.IndexesKept | internal/jobs/store.go:60-86 | Every step keeps both unique indexes of the jobs table. |
| ActiveOnce.AlwaysOneIff | internal/jobs/store.go:192-209 | Look-ups and inserts interleave: over every run in which jobs of a type reach a lock key through this call only, there is never more than one unfinished exactly when each call inserts after the end of every job inserted since its own look-up. |
| ActiveOnce.CallInsertIff | internal/jobs/store.go:192-209 | For one insert of a call, in any reachable state: at most one unfinished job on the type and key is left exactly when all jobs inserted there since the look-up have finished. |
| ActiveOnce.CrossingCallsInsertTwo | internal/scanner/handlers.go:333-340 | A run of two calls that both find nothing and both insert a discovery of one project. |
| WorkflowStatus.AggregateStatus | internal/jobs/status.go:574-597 | The case analysis of the store, on counts and total, gives the aggregate of AggregateOf. |
| WorkflowStatus.AggregateMeans | internal/jobs/status.go:574-597 | Each aggregate status read back as a statement about the members of the group, both directions. |
| WorkflowStatus.ProgressCompleteIff | internal/jobs/status.go:85-110 | progress_current equals progress_total exactly when the aggregate is neither queued nor running. |
| WorkflowStatus.ProgressNeverFalls | internal/jobs/status.go:85-110 | The recomputation from the jobs table: while no job joins a group its count of finished jobs never falls and its total stays, over every run; the stored row is the subject of ReadModel. |
| WorkflowStatus.RefreshRestores | internal/jobs/status.go:51-126 | Without interference: a queue step with the whole refresh of the group it touched right after it keeps every row of the read model equal to its recomputation. |
| WorkflowStatus.OtherGroupsUnchanged | internal/jobs/status.go:51-126 | A step changes the summary of no other group. |
| ReadModel.WriteAgreesIff | internal/jobs/status.go:51-126 | Refreshes that read and write in separate steps, over every run: a write leaves the row of its group equal to its recomputation exactly when the summary of the group is what the refresh read. |
| ReadModel.AgreesIff | internal/jobs/status.go:51-126 | In every reachable state a stored row equals its recomputation exactly when the summary of its group is what it was when the row was read. |
| ReadModel.ReadAfterChangeAgrees | internal/jobs/status.go:51-126 | The row of a group agrees in every reachable state in which its last write read after the last change to the group. |
| ReadModel.CatchesUp | internal/jobs/status.go:51-126 | Once no refresh of a group with an outdated reading is under way, the first write makes its row agree, and it stays so until a job of the group changes. |
| ReadModel.OnlyStaleWritesLower | internal/jobs/status.go:88-126 | A write lowers stored progress only when it read before the row it replaces was read. |
| ReadModel.StoredProgressNeverFalls | internal/jobs/status.go:88-126 | Over every run whose writes land in the order of their reads, stored progress of no group ever falls. |
| ReadModelRace.LateWriteLosesAgreement | internal/jobs/status.go:51-126 | A run with two refreshes that both succeed but write in the opposite order of their reads: the row agreed with progress 1 of 1 and ends at 0 of 1. |
| ReconcileWalk.WalkCovers | internal/jobs/status.go:141-190 | The walk over pages of groups, for any page size, with queue steps and other refreshes between its statements: when it is over, it has refreshed every group that had a job at its start. |
| ReconcileWalk.AgreesAfterRead | internal/jobs/status.go:141-160 | A group read by the walk while no outdated refresh of it is under way agrees when the walk is over, unless a job of it changes meanwhile. |
| ReconcileWalk.WalkRestores | internal/jobs/status.go:141-160 | A finished walk leaves every group in agreement that had a job at its start, no outdated refresh under way then and no change meanwhile. |
| Retention.StaleRemovedExactly | internal/jobs/status.go:222-228 | Deleting the stale ids leaves exactly the events that are not stale. |
| JobStore.Store.RefreshWorkflowStatus | internal/jobs/status.go:51-126 | Without interference between its read and its write, the row of the group becomes its recomputation; an empty group or a database error changes nothing. |
| JobStore.Store.CountByStatus | internal/jobs/status.go:67-91 | The loop over the rows counts each status of the group. |
| JobStore.Store.ReconcileWorkflowStatuses | internal/jobs/status.go:141-161 | Without interference, the walk over pages of groups, for any page size, leaves every group with a job equal to its recomputation and touches no other row. |
| JobStore.Store.WorkflowGroupsPage | internal/jobs/status.go:163-186 | A page is strictly increasing, holds only groups after the cursor, and leaves out a group only when full and smaller. |
| JobStore.Store.AddEvent | internal/jobs/store.go:641-656 | Appends one event under a fresh id. |
| JobStore.Store.Enqueue | internal/jobs/store.go:60-87 | Each outcome with its condition: inserted exactly when no row has the request's key, actor and type, the checks pass, the id is new and no unfinished repository operation has its lock key; the row is queued as asked for, with three attempts and due now unless it says otherwise; replays, conflicts and refusals change nothing. The read model stays in agreement when the refresh succeeds. |
| JobStore.Store.EnqueueRepositoryOperation | internal/jobs/store.go:171-190 | A blocked operation is answered with the oldest unfinished job on the key and adds nothing; inserted exactly when nothing repeats it and nothing unfinished has its key, and then it is the only unfinished job there. |
| JobStore.Store.EnqueueIfNoActive | internal/jobs/store.go:192-209 | With an unfinished job of the same type and lock key the oldest such job is returned and nothing changes; without one the outcome is that of Enqueue. |
| JobStore.Store.FindActiveOperation | internal/jobs/store.go:741-752 | The first unfinished repository operation on the key in (created_at, id) order, or the certainty that there is none. |
| JobStore.Store.SelectCandidate | internal/jobs/store.go:416-428 | None exactly when no queued row with an attempt left has run_after <= now; otherwise such a row, and every other one has a later run_after, or the same and no higher priority, or the same of both and was created no earlier. |
| JobStore.Store.ClaimNext | internal/jobs/store.go:370-452 | Claims exactly such a row, or nothing when there is none: running, leased until now plus the lease (30 s if none is asked for), one attempt more; no other column and no other row changes, and one event is added. |
| JobStore.Store.Start | internal/jobs/store.go:454-478 | Succeeds exactly while the job runs under the worker's lease; started_at is set to now unless it was set before, one event is added, nothing else changes. |
| JobStore.Store.Heartbeat | internal/jobs/store.go:480-499 | Under the guard of the owner, whether or not the lease has expired, the lease and the locks the worker holds for the job get the same new expiry; nothing else changes. |
| JobStore.Store.AcquireLock | internal/jobs/store.go:501-521 | Takes the key exactly when no held row on it expires later than now, for the lease from now; a refusal and a success both expire what is over; no key means locked. |
| JobStore.Store.Complete | internal/jobs/store.go:557-595 | Succeeds exactly under the lease: status and finished_at are written, exactly the locks the worker holds for the job are released, and one event of the matching kind is added; no other row changes. |
| JobStore.Store.Requeue | internal/jobs/store.go:597-625 | Succeeds exactly under the lease: queued for the given time without a lease, exactly the locks the worker holds for the job released, one retry event; no other row changes. |
| JobStore.Store.CleanupRetention | internal/jobs/status.go:193-216 | For any batch size of at least one the batched loops end; exactly the events older than the cutoff of finished jobs and the locks no longer held and over before it are removed, with their exact counts. |
| JobStore.Store.CleanupEventsBatch | internal/jobs/status.go:218-275 | One batch removes the min(batch, stale) oldest stale events, by time and id, and says how many. |
| JobStore.Store.CleanupLocksBatch | internal/jobs/status.go:234-275 | One batch removes the min(batch, stale) oldest stale locks, by age and id, and says how many. |
| Ordering.SelectOrdered | internal/jobs/runtime.go:324-346 | ORDER BY time, id LIMIT n: ordered, of the right length, and nothing left out comes before anything taken. |
| JobRuntime.Runtime.RunOnce | internal/jobs/runtime.go:195-277 | Nothing is due and nothing changes, or the first due job is taken, and its row ends as PassEnds says, for every handler, setup failure, lock and end of the handler; a job sent back waits the jittered delay of its attempt. The tables are exactly those of PassTables. |
| WorkerPass.PassMeans | internal/jobs/runtime.go:195-277 | Such a pass claims its job once and leaves it exactly as the decision table says, with no lock of its own held unless left running at shutdown; no other row moves, other locks only expire, and the log only grows by events of that job. |
| WorkerPass.PassEnds | internal/jobs/runtime.go:195-304 | How a pass ends, for every input: succeeded exactly when the handler ran and returned; running exactly when it was stopped by a shutdown; queued exactly when an attempt is left and the handler could not run or failed for a retry; cancelled and failed each with its condition; with its attempt, times and lease, and with the kind and status of every event it adds. |
| WorkerPass.PassIsRun | internal/jobs/runtime.go:195-277 | Such a pass is a run of the queue protocol, so everything proved of runs holds of it. |
| WorkerPass.UnderwayLocks | internal/jobs/store.go:501-521 | After the claim the lock insert is refused exactly when a held row on the key has not expired. |
| JobRuntime.Runtime.Prepare | internal/jobs/runtime.go:213-225 | The handler may run exactly when nothing failed and no live lock holds the key; the tables are those of Prepared. |
| JobRuntime.Runtime.RuntimeRequeue | internal/jobs/runtime.go:286-304 | Fails a leased job when its attempts are used up, otherwise puts it back after the jittered delay of its attempts. |
| JobRuntime.Runtime.Settle | internal/jobs/runtime.go:227-277 | A leased job ends succeeded exactly when the handler returned, running exactly when it was stopped by a shutdown, queued exactly when a retry is asked for and left, cancelled when it was cancelled otherwise, else failed. |
| JobRuntime.Runtime.RecoverExpiredLeases | internal/jobs/runtime.go:324-368 | Takes at most the limit of running rows whose lease is over, earliest lease first; each goes back to the queue after the jittered delay of its attempts, or fails when none is left, with its locks expired and two events; nothing else changes. |
| JobRuntime.Runtime.SelectExpired | internal/jobs/runtime.go:326-346 | Distinct expired rows within the limit; a row left out is no older than any taken, and then the limit is full. |
| WorkerPass.SweepMeans | internal/jobs/runtime.go:347-453 | Exactly the rows that were read leave the running state, for the drawn time or failed by their attempts; exactly their held locks expire and each gets its two events; nothing else changes. |
| WorkerPass.SweepIsRun | internal/jobs/runtime.go:324-368 | A recovery pass is a run of the queue protocol. |
| JobRuntime.Runtime.RecoverToQueued | internal/jobs/runtime.go:370-410 | If the row still carries the lease that was read, it is queued without a lease for the given time, its held locks expire and its two events are added, and nothing else changes; otherwise nothing does. |
| JobRuntime.Runtime.ForceFail | internal/jobs/runtime.go:412-453 | If the row still carries the lease that was read, it fails, its held locks expire and its two events are added, and nothing else changes; otherwise nothing does. |
| JobRuntime.CleanupIsProtocolStep | internal/jobs/status.go:222-240 | What cleanup deletes is within what the protocol lets it delete: no event of an unfinished job, no held lock. |
| DirectoryScan.SharedResult.ScanDirectory | internal/scanner/handlers.go:238-320 | Reads one directory, in terms of its entries: an error, a project with its skipped children counted, or children; a child is a directory other than .git that is not ignored, each once; the skipped counter grows by the links, .git and ignored directories, the link counter by the links. The sections it enters are those of SectionsOf, in order. |
| DirectoryScan.SharedResult.ScanProject | internal/scanner/handlers.go:254-283 | A Terraform directory: row, seen text, counters, discovery job, or the error of the step that failed. |
| DirectoryScan.SharedResult.ScanChildren | internal/scanner/handlers.go:284-319 | The entry loop: .git, links and ignored directories are counted as skipped, the others are children in listing order. |
| DirectoryScan.ContainsTerraformFile | internal/scanner/handlers.go:497-511 | True exactly when some entry that is no directory and no link is an unignored .tf file. |
| DirectoryScan.CountSkippedChildren | internal/scanner/handlers.go:513-527 | Counts directories and links together, and links apart. |
| DirectoryScan.SectionsMean | internal/scanner/handlers.go:238-319 | The critical sections of a directory, entered one by one in the shared counters, add up to just that. |
| Traversal.InvKept | internal/scanner/handlers.go:186-210 | Every step of every worker keeps the invariant of the stack, the busy count and the directories taken. |
| Traversal.PlanOfOk | internal/scanner/handlers.go:284-319 | The children of a directory are distinct and have it as their parent. |
| TraversalResult.NoIdleSleeper | internal/scanner/handlers.go:186-196 | In every reachable state a sleeping worker means an empty queue and another worker that is busy. |
| TraversalResult.NoDeadlock | internal/scanner/handlers.go:186-210 | Some worker can move exactly until every worker has left. |
| TraversalResult.RunsEnd | internal/scanner/handlers.go:186-220 | Every run is bounded by the work left, each unit of which can wake every worker once. |
| TraversalResult.ReadOnce | internal/scanner/handlers.go:186-210 | A scan that has ended took every reachable directory off the stack exactly once, and no other. |
| TraversalResult.ReadIff | internal/scanner/handlers.go:238-319 | Over every ended scan: a directory was read, once, exactly when every name on its path is a directory other than .git and not ignored in the listing above it, and no directory above holds a Terraform file, could not be read or was reached after a cancellation. |
| TraversalResult.SameResult | internal/scanner/handlers.go:158-221 | Two scans of the same directories that have ended agree on every counter, the seen texts and the errored subtrees, for all interleavings and worker counts. |
| TraversalResult.EndOfRun | internal/scanner/handlers.go:158-221 | What an ended scan shows is the sum over exactly the reachable directories; a project row counts as created once, however often it is written. |
| RootScan.ScanRoot | internal/scanner/handlers.go:158-221 | The one-worker scan: an unusable root is one error and marks nothing; otherwise the result is that of a run of the machine with one worker. |
| RootScan.Traverse | internal/scanner/handlers.go:186-210 | The worker loop written out ends with such a result. |
| RootScan.AsOneWorker | internal/scanner/handlers.go:223-236 | Any number of workers in any interleaving ends with the result of the one-worker loop. |
| Paths.PrefixTest | internal/scanner/store.go:1224-1236 | The text test with a trailing slash coincides with the ancestor relation on lists of names. |
| Paths.CleanLeads | internal/scanner/store.go:1181-1191 | Cleaning any text keeps where it leads, followed name by name from any directory, and leaves no empty part, no dot, and a way up only at its start. |
| Paths.SafeRelativeIff | internal/scanner/store.go:1201-1216 | Which texts a row can be stored under, for every text: none that is absolute, with either slash or a drive letter, and none that leads out of the root after cleaning. |
| Paths.CleanPlain | internal/scanner/store.go:1181-1191 | What cleaning does to a printed path, as an operation on its names. |
| Paths.OwnNameKept | internal/scanner/store.go:1201-1215 | A path with solid ends, no backslash and no drive letter is stored under its own text. |
| Paths.RaggedNotCovered | internal/scanner/store.go:1181-1191 | A directory name that ends in white space after a real name is not covered by its own error; one that does not is recorded in place. |
| MissingProjects.Batches | internal/scanner/store.go:1238-1254 | The pieces put together are the list, each is non-empty and within the size, all but the last are full. |
| MissingProjects.UnderErrored | internal/scanner/store.go:1224-1236 | The loop finds a covering subtree exactly when there is one. |
| MissingProjects.ProjectTable.MarkMissingProjects | internal/scanner/store.go:447-485 | Exactly the active, unseen rows of the root outside every errored subtree become missing, and their number is returned; disabled rows never change. |
| MissingProjects.ReachableIsNotMarked | internal/scanner/handlers.go:238-320 | Whatever is cancelled, unreadable or not stored anywhere, no finished scan marks a row that some Terraform directory on disk keeps: one with its key, or refused by the store, on whose way down every directory's error covers the row. |
| MissingProjects.NeverMarkedIff | internal/scanner/store.go:447-485 | Over all fates of a fixed tree, for every row text: no scan ever marks the row exactly when some directory keeps it. |
| MissingProjects.OwnRowNeverMarkedIff | internal/scanner/store.go:1224-1236 | For a directory that has its row key to itself: its row is safe exactly when the error of every directory on its path covers the row. |
| MissingProjects.MarkedIff | internal/scanner/store.go:447-485 | In every finished scan an active row is marked exactly when no directory that was read and stored has its key and no directory that was reached recorded an error that covers it. |
| MissingProjects.ErroredIff | internal/scanner/handlers.go:238-283 | The errored subtrees are exactly the keys under which directories that were reached recorded an error. |
| MissingProjects.SolidNamesKeepRow | internal/scanner/store.go:1181-1215 | A Terraform directory whose names have solid ends, no backslash and no drive letter is stored under its own text, and no scan marks that row. |
| MissingProjects.LateUpdateIff | internal/scanner/store.go:447-503 | Between the read of the rows and their update a row may change; it is overwritten as missing exactly when it was to be marked as it was read. |
| MissingProjects.SeenIff | internal/scanner/handlers.go:259-264 | The seen texts are exactly the row keys of the Terraform directories that were read and stored. |
| ScanCounterexample.SpacedNameLosesProject | internal/scanner/store.go:1224-1236 | A tree with a directory named with a trailing space: when it cannot be read, every finished scan marks the project below it missing although it is on disk. |
| ScanCounterexample.BackslashLosesProject | internal/scanner/store.go:1201-1236 | A project directory named with a backslash: its row has a slash instead, and when it cannot be read every finished scan marks that row missing although it is on disk. |
| ProjectLinks.FindGitRepository | internal/scanner/handlers.go:433-475 | The nearest directory from the project up to the root with a .git directory or a valid .git file; an error exactly when a broken marker is nearer; nothing when there is none on the way. |
| ProjectLinks.LinkTable.UpsertProjectLink | internal/scanner/store.go:688-715 | Inserts the canonical pair or updates its repository; reports whether it was new; nothing for a project and itself. |
| ProjectLinks.LinkTable.LinkRelated | internal/scanner/handlers.go:399-413 | The loop of one discovery links the project with every related one and counts the new rows. |
| ProjectLinks.LinkedAllIs | internal/scanner/handlers.go:399-413 | A discovery adds exactly the pairs of its project and touches no other link. |
| ProjectLinks.SeesKept | internal/scanner/handlers.go:389-413 | Of two discoveries in one repository that have read their related projects, at least one covers the other's project, over every step. |
| ProjectLinks.LinksConverge | internal/scanner/handlers.go:389-419 | For every interleaving, repetition and abandonment: once each project has completed a discovery, the links are exactly the canonical pairs within repositories, and n projects account for n(n-1)/2 links inserted, those of discoveries abandoned later among them, which no result reports. |
| Reservations.ReservationStore.ReserveOperationKeys | internal/repository/store.go:47-89 | Succeeds exactly when each key in turn is free or the owner's own and no statement for it fails; then the owner holds all non-blank keys until the ttl, otherwise none of those tried; rows of other owners never change; a conflict names the key that failed and who holds it. |
| Reservations.WantedAre | internal/repository/store.go:55-61 | The keys asked for are the trimmed texts that are not empty. |
| Reservations.ReservationStore.ReserveOne | internal/repository/store.go:62-87 | One key: a fresh row or the owner's own row refreshed, exactly when the key is free or its own and no statement fails; otherwise nothing changed. |
| Reservations.ReservationStore.ReleaseOperationReservations | internal/repository/store.go:126-142 | Exactly the owner's held rows under the keys are released, now; no other row changes. |
| Reservations.ReservationStore.ExpireOperationReservations | internal/repository/store.go:173-193 | Exactly the held rows that are over expire, and exactly the rows over for more than a day go. |
| Reservations.ReservationStore.InsertHeld | internal/repository/store.go:62-70 | The insert succeeds exactly when no row holds the key. |
| ReservationRuns.CallersExclude | internal/repository/store.go:47-89 | Clone requests and attempts of their jobs interleave statement by statement, several under one owner: over every run in which rows are refreshed before they are over and attempts of one job do not overlap, no two callers count on one key that is not over. |
| ReservationRuns.LiveHolds | internal/repository/store.go:62-87 | In such runs a caller really holds every key it counts on until it is over. |
| ReservationRuns.CalmRefreshFinds | internal/repository/store.go:160-171 | In such runs every refresh finds the row it is after and writes its new expiry. |
| ReservationRuns.RefreshFindsRowIff | internal/repository/store.go:70-81 | In any state: between finding its own row and refreshing it, with the others of its owner idle, the key is kept exactly when every expiry in between looked at a time before that of the row. |
| ReservationRuns.IdleKeepsIff | internal/repository/store.go:173-181 | While the callers of an owner do nothing, a row of it stays held over any run of the others exactly when every expiry looked at a time before its own. |
| ReservationRuns.KeepsOverRunIff | internal/repository/store.go:126-181 | Over any run in which nobody of the owner inserts the key anew, it stays held exactly when no expiry reached its row and nobody of the owner released it. |
| ReservationRuns.AttemptKeepsIff | internal/repository/handlers.go:112-124 | An attempt of a job keeps a key it reserved exactly when no expiry reaches the row and no other attempt of the same job, whose deferred release is still to come, gives it up. |
| ReservationRuns.FailedHoldsNothing | internal/httpapi/repository.go:228-233 | A request that ended without its job holds no key, but for keys whose release statement failed, over every run. |
| ReservationRuns.QueuedHoldsIff | internal/httpapi/repository.go:251-280 | A request that queued its job holds exactly the keys it kept, until they are over or the first attempt of the job begins. |
| ReservationRaces.LateRefreshSharesKey | internal/repository/handlers.go:112-124 | For any three keys, a run in which the handler of a job finds the path key of its request, the row expires before it is refreshed, a request for another repository takes the key, and both count on it. |
| ReservationRaces.StaleAttemptFreesKeys | internal/repository/handlers.go:112-124 | For any three keys, a run in which the deferred release of an attempt frees the keys that the next attempt of the job has reserved, and a request for another repository takes the path key. |
| CloneHandler.Handler.Clone | internal/httpapi/repository.go:199-376 | Queued exactly when both first keys are free, the created root's key is free too, the checks pass and the queue has neither the request nor an unfinished operation on its lock; then the request holds its kept keys, otherwise there is no job and nothing is held by its id; live reservations of others do not move. |
| CloneHandler.Handler.MoveToFinalRoot | internal/httpapi/repository.go:235-281 | Goes on exactly when the root is created and the key under it is free; then the request holds its kept keys; whatever it holds is on the list of the deferred release. |
| CloneHandler.Handler.CheckAndEnqueue | internal/httpapi/repository.go:282-375 | Queues the job exactly when every check passes and the queue has neither the request nor an unfinished operation on its lock key; otherwise the queue tables do not change. |
| CloneHandler.KeepsTwoKeysIff | internal/httpapi/repository.go:251-280 | From the target as it was asked for: a queued request keeps exactly its identity key and its final path key, unless it created its root and the twice normalized target ends in white space; then it keeps the provisional key too, three in all. |
| CloneHandler.BlankTailKeepsThreeKeys | internal/repository/domain.go:315-357 | A request that keeps three keys: the target of one named directory and blank ones below it, whose provisional key ends in a space and whose final key does not. |
| CloneHandler.SameDirectoryMeets | internal/httpapi/repository.go:199-281 | Two requests under one root share a path key exactly when their targets come out equal, and the key under a created root is the one that later requests under that root meet. |
| CloneTarget.OnePass | internal/repository/domain.go:315-355 | One normalization of a target, as an operation on its names: white space at the end of the last name goes, and a last name of nothing else goes with it. |
| CloneTarget.AcceptedStaysBelow | internal/repository/domain.go:315-357 | Every target that is accepted, whatever was asked for, is the root or names what lies below it, without an empty part, a dot or a way up; absolute texts, control characters and backslashes are refused. |
| CloneHandler.Remove | internal/httpapi/repository.go:378-386 | The filter leaves the other values in order. |
| StorageSlots.ConfigStore.Import | internal/config/store.go:93-192 | One transaction, column by column: another database than the current one is staged, earlier staged rows become historical, and the current profile and its storage keys stay; the same database updates the current profile and the storage keys; a failed commit changes nothing. |
| StorageSlots.ConfigStore.MigrateDB | internal/config/store.go:421-470 | Succeeds exactly when every step works and the staged fingerprint is the one opened: the staged row is then current and the current one historical, nothing else changes, and the copy is current with storage keys of its own; any other outcome leaves all rows but perhaps the mark of failure on the staged one. |
| StorageSlots.ConfigStore.CopyMigratedData | internal/config/store.go:472-574 | The target holds the old current profile as historical and the staged one as its only current, and storage keys that describe that one. |
| StorageSlots.SlotsAlways | internal/config/store.go:974-1002 | Every history of imports and migrations, with any failures, keeps the slot rules. |
| StorageSlots.OneCurrentProfile | internal/config/store.go:93-192 | After the first committed import exactly one profile is current and active and at most one is in the migration slot. |
| StorageSlots.OnlyMigrationMoves | internal/config/store.go:421-470 | Only a migration that works changes the current fingerprint, and to one that was staged. |
| StorageSlots.ImportTells | internal/config/store.go:93-192 | After a committed import the storage keys describe the profile that is then current. |
| StorageSlots.KeysTell | internal/config/store.go:93-192 | Over every history with any failures: until the next committed import the storage keys are the payload of the profile that was current after the last one, and that profile is still current, with that payload, exactly until a migration moves. |
| StorageSlots.StagedIffNew | internal/config/store.go:974-989 | Staging another database leaves a target that can be found exactly when its row id was not taken before: the upsert does not rewrite the slot; a target that is found carries the fingerprint and payload of the import. |
| StorageSlots.SecondImportStagesNothing | internal/config/store.go:974-989 | Importing a database that was staged once and is not current stages nothing, whatever lies between. |
| Pagination.ListPage | internal/jobs/store.go:289-348 | The first rows after the cursor that pass the filter, newest first by time and id, with a next cursor exactly when rows are left over; a zero time in a cursor is refused. |
| Pagination.SelectNewest | internal/scanner/store.go:961-980 | ORDER BY created_at DESC, id DESC LIMIT n. |
| Pagination.WalkIsListing | internal/jobs/store.go:289-348 | Following next_cursor from empty gives every row present at the start once, newest first, when rows inserted meanwhile are newer. |
| Pagination.CursorAdvances | internal/scanner/store.go:943-986 | Each page with a cursor leaves exactly limit fewer rows, so walks end. |
| Pagination.WalkLength | internal/jobs/store.go:289-348 | A walk over tables that grow by newer rows has exactly as many pages as the rows at its start call for. |
| Pagination.PagesForIs | internal/jobs/store.go:318-348 | That number is max(1, rows / limit rounded up). |
| Pagination.WalkAll | internal/httpapi/repository.go:442-476 | The caller's loop over an unchanged table ends with the whole listing. |
| Pagination.PageSize | internal/jobs/store.go:318-327 | What was asked for within the maximum; else 100, even above a smaller maximum, or a maximum over 200. |
| Timestamps.FormatOrder | internal/jobs/store.go:1090-1092 | For the years 0000 to 9999 the fixed-width texts compare, byte by byte, as the instants do. |
| Timestamps.ParseFormat | internal/jobs/store.go:1105-1120 | Parsing the fixed-width text gives back the instant. |
| Timestamps.StampOf | internal/scanner/store.go:1324-1326 | The civil fields of an instant exist, are in range and name that instant. |
| Timestamps.InstantOrder | internal/scanner/store.go:1324-1326 | Fields compare lexicographically as instants do. |
| Timestamps.InstantIs | internal/scanner/store.go:1324-1326 | The instant of civil fields in closed form, by the Gregorian calendar counted in years that start in March. |
| Timestamps.TrimmedOrderIff | internal/repository/store.go:994-996 | The form without trailing zeros keeps the order of two instants exactly when they differ in their second or the earlier fraction does not begin the later one. |
| CloneUrl.RoundTripIff | internal/repository/domain.go:143-190 | For every identity made of outputs of the normalizers, outside the cases set apart, parsing its transport URL gives it back exactly when it has the scp form or its host is one the standard library takes in a URL. |
| CloneUrl.ScpRoundTrip | internal/repository/domain.go:298-303 | The scp form always round-trips. |
| CloneUrl.UrlRoundTrip | internal/repository/domain.go:221-231 | The https form and the ssh form with a port round-trip or are refused, by their host. |
| CloneUrl.PathWithSuffix | internal/repository/domain.go:273-296 | Every path the normalizer gives comes back when .git is appended, paths that end in .git or a space among them. |
| CloneUrl.ParsedIsNormal | internal/repository/domain.go:143-190 | Every identity the parser gives is of that kind, or is a local path. |
| CloneUrl.ReparseIff | internal/repository/domain.go:143-190 | Parsing what the parser printed gives the same result, for every text it accepts, exactly under the condition of the round trip. |
| CloneUrl.NormalHost | internal/repository/domain.go:237-260 | A normal host holds none of the characters its refusal names. |
| CloneUrl.NamedPortIsLost | internal/repository/domain.go:237-271 | An identity with a port that is not a number is made of outputs of the normalizers, and the parser refuses its URL. |
| CloneForms.ScpForm | internal/repository/domain.go:165-168 | On every text git@host:path without a scheme mark: ssh, with exactly the normal forms of its host and path, or refused if one has none. |
| CloneForms.BareForm | internal/repository/domain.go:169-176 | On every text host/path with no scheme before it: https, in the same way. |
| CloneForms.UrlForm | internal/repository/domain.go:169-190 | On every scheme://host/path, with user information or without: https and ssh, in any case of letters, give their protocol; user information other than git for ssh, a host the standard library refuses and any other scheme are refused, and file is set apart for generic repositories. |
| CloneForms.HostlessForm | internal/repository/domain.go:177-190 | On every text with a scheme and no authority: the same with an empty host. |
| CloneForms.OtherText | internal/repository/domain.go:169-176 | Every other text that is visible and not set apart is refused. |
| CloneForms.ProtocolIff | internal/repository/domain.go:143-190 | A parsed identity is ssh exactly when its text is scp-like or has the scheme ssh, and https exactly for the scheme https and a bare host and path. |
| CloneForms.HostIff | internal/repository/domain.go:237-271 | Which texts are hosts and what they become, for every text: lower case, trimmed, without port 443 for https or 22 for ssh. |
| CloneForms.PathIff | internal/repository/domain.go:273-296 | Which texts are repository paths and what they become, for every text: trimmed, without one .git, and of two parts for GitHub. |

## Left out

- JobRuntime.Runtime.RunOnce: runs without interference (WorkerPass.PassIsRun places it in the protocol, where others interfere); the completion hook and result payloads are not modelled.
- JobRuntime.Runtime.RecoverExpiredLeases: database errors that end a pass early are not modelled here; in the protocol a sweep may end at any point (EndSweep).
- JobStore.Store.ClaimNext: candidate selection and update are one step, so rows that Postgres skips because another transaction has them locked do not occur.
- JobStore.Store.RefreshWorkflowStatus: reads and writes without interference; ReadModel has the two as steps between which others run.
- JobStore.Store.ReconcileWorkflowStatuses: no queue step or other refresh runs during the walk; ReconcileWalk has the walk with both between its statements.
- JobStore.Store.EnqueueIfNoActive: runs without interference; ActiveOnce has the look-up and the insert as steps of their own.
- WorkflowStatus.RefreshRestores: speaks of a refresh with nothing between its read and its write; ReadModel.WriteAgreesIff has the general case.
- WorkflowStatus.ProgressNeverFalls: speaks of the recomputation; ReadModel.StoredProgressNeverFalls speaks of the stored rows.
- MissingProjects.ProjectTable.MarkMissingProjects: runs without interference; MissingProjects.LateUpdateIff says what a change between its statements does.
- Reservations.ReservationStore.ReserveOperationKeys: the first statements, which expire and prune, and the releases do not fail here; ReservationRuns has releases that fail.
- CloneHandler.Handler.Clone: statements that fail while releasing are not modelled, nor are other requests between its steps; ReservationRuns has both for the reservation statements. A root that is created keeps the text of its path.
- RootScan.ScanRoot: scans one root from empty counters; the counters of a scan over several roots are their sums.
- Reservations.ReservationStore.ExpireOperationReservations: compares instants; the database compares their trimmed texts, which within one second may order them differently (Timestamps.TrimmedOrderIff).
- StorageSlots.ConfigStore.Import: only the storage profiles and the storage keys; other configuration entries, ignore rules and provider settings are not modelled.
- Timestamps.ParseFormat: only the fixed-width form; the other layouts the parser tries and time zones are not modelled.
- CloneUrl.RoundTripIff: the host of a provider instance is normalized without a protocol and may keep a default port, which parsing drops; percent escapes, queries, fragments, bracketed hosts, file URLs and absolute local paths are set apart by the model's parser, and Unicode is not modelled.
- Pagination.WalkIsListing: filters on columns that change, such as the status of a job, are not covered.
- Payload validation, JSON contents, error messages and result payloads of jobs.
- workflow_type, workflow_id and summary payloads of the read model.
- Concurrent migrations and the interleaving of an import with a migration.
- Copying of scanner tables during a migration, and the upsert of generic repositories.
- Ignore-rule matching, symbolic links, case folding of file systems and Unicode normalization.
- HTTP decoding, logging, process locks, health probes, command lines, and the execution of Git, Terraform and the security tools.
