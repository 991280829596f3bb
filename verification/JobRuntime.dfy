/**
 One pass of the worker loop and one pass of lease recovery, run without
 interference; module JobProtocol interleaves the same steps.
 */
module JobRuntime {
  import opened Common
  import opened JobTables
  import opened JobProtocol
  import opened WorkflowStatus
  import opened Ordering
  import opened Retention
  import opened ClaimFairness
  import opened JobStore
  import opened WorkerPass

  class Runtime {
    const store: Store
    const worker: WorkerId
    const lease: Time

    constructor (store: Store, worker: WorkerId, lease: Time)
      requires lease > 0
      ensures this.store == store && this.worker == worker && this.lease == lease
    {
      this.store, this.worker, this.lease := store, worker, lease;
    }

    /** Writes the decision on a job that is still the worker's. */
    method Conclude(j: JobId, d: Decision, attempts: nat, later: Time, jitter: real, refresh: bool) returns (ghost delay: Time)
      requires store.Valid() && 0.8 <= jitter < 1.2
      modifies store
      ensures store.Valid() && RETRY_MIN <= delay <= RETRY_MAX
      ensures store.Tables() == Decided(old(store.Tables()), j, worker, d, later, delay)
      ensures d == Retry ==> delay == Jittered(BaseDelay(attempts), jitter)
      ensures refresh && Agrees(old(store.jobs), old(store.workflows)) ==> Agrees(store.jobs, store.workflows)
    {
      delay := RETRY_MIN;
      match d
      case Finish(status) => var ok := store.Complete(j, worker, status, later, refresh);
      case Retry =>
        var wait := Backoff(attempts, jitter);
        var ok := store.Requeue(j, worker, later + wait, later, refresh);
        delay := wait;
      case LeaveRunning =>
    }

    /** Fails the job when its attempts are used up, otherwise puts it back after a delay. */
    method RuntimeRequeue(j: JobId, row: Job, later: Time, jitter: real, refresh: bool) returns (ghost delay: Time)
      requires store.Valid() && 0.8 <= jitter < 1.2
      modifies store
      ensures store.Valid() && RETRY_MIN <= delay <= RETRY_MAX
      ensures store.Tables() == Decided(old(store.Tables()), j, worker, Decide(row, SetupFailed), later, delay)
      ensures Leased(old(store.jobs), j, worker) ==>
                j in store.jobs && store.jobs[j].status == if row.attempts >= row.maxAttempts then Failed else Queued
      ensures Decide(row, SetupFailed) == Retry ==> delay == Jittered(BaseDelay(row.attempts), jitter)
      ensures refresh && Agrees(old(store.jobs), old(store.workflows)) ==> Agrees(store.jobs, store.workflows)
    {
      if row.attempts >= row.maxAttempts {
        delay := Conclude(j, Finish(Failed), row.attempts, later, jitter, refresh);
      } else {
        delay := Conclude(j, Retry, row.attempts, later, jitter, refresh);
      }
    }

    /** The end of a pass whose handler ran. */
    method Settle(j: JobId, row: Job, p: Pass, later: Time, jitter: real, refresh: bool) returns (ghost delay: Time)
      requires store.Valid() && 0.8 <= jitter < 1.2
      modifies store
      ensures store.Valid() && RETRY_MIN <= delay <= RETRY_MAX
      ensures store.Tables() == Decided(old(store.Tables()), j, worker, Decide(row, HandlerEnd(p)), later, delay)
      ensures Leased(old(store.jobs), j, worker) ==>
                && j in store.jobs
                && (store.jobs[j].status == Succeeded <==> !p.failed)
                && (store.jobs[j].status == Running <==> p.failed && p.cancelled && p.shutdown)
                && (store.jobs[j].status == Queued <==> p.failed && !(p.cancelled && p.shutdown) && p.retryable && row.attempts < row.maxAttempts)
                && (store.jobs[j].status == Cancelled <==>
                      p.failed && p.cancelled && !p.shutdown && !(p.retryable && row.attempts < row.maxAttempts))
      ensures Decide(row, HandlerEnd(p)) == Retry ==> delay == Jittered(BaseDelay(row.attempts), jitter)
      ensures refresh && Agrees(old(store.jobs), old(store.workflows)) ==> Agrees(store.jobs, store.workflows)
    {
      if !p.failed {
        delay := Conclude(j, Finish(Succeeded), row.attempts, later, jitter, refresh);
      } else if p.cancelled && p.shutdown {
        delay := Conclude(j, LeaveRunning, row.attempts, later, jitter, refresh);
      } else if p.retryable && row.attempts < row.maxAttempts {
        delay := Conclude(j, Retry, row.attempts, later, jitter, refresh);
      } else {
        delay := Conclude(j, Finish(if p.cancelled then Cancelled else Failed), row.attempts, later, jitter, refresh);
      }
    }

    /** Lock, start and announce the claimed job; `ready` is whether its handler may run. */
    method Prepare(j: JobId, key: Option<int>, setup: Setup, lock: LockId, now: Time, refresh: bool) returns (ready: bool)
      requires store.Valid() && lock !in store.locks && Owns(store.Tables(), j, worker)
      modifies store
      ensures store.Valid() && store.Tables() == Prepared(old(store.Tables()), setup, lock, j, key, worker, now, lease)
      ensures ready <==> setup.SetupOk? && !Contended(old(store.Tables()), key, now)
      ensures refresh && Agrees(old(store.jobs), old(store.workflows)) ==> Agrees(store.jobs, store.workflows)
    {
      if setup.LockError? {
        if setup.expired { store.ExpireLocks(now); }
        return false;
      }
      if key.Some? { ContendedIff(store.Tables(), key, now); }
      var locked := store.AcquireLock(lock, j, key, worker, now, lease);
      if !locked || setup.StartError? { return false; }
      var started := store.Start(j, worker, now, refresh);
      if setup.EventError? { return false; }
      store.AddEvent(j, EvProgress, Running, Some(worker), now);
      return true;
    }

    /**
     One pass: either nothing was eligible and nothing changed, or the first job in
     claim order was taken and the tables are those of PassTables, whose meaning is
     PassMeans and which PassIsRun makes a run of the protocol.
     */
    method RunOnce(p: Pass, lock: LockId, now: Time, later: Time, jitter: real, refresh: bool) returns (job: Option<JobId>, ghost delay: Time)
      requires store.Valid() && lock !in store.locks && lease > 0 && 0.8 <= jitter < 1.2
      modifies store
      ensures store.Valid() && RETRY_MIN <= delay <= RETRY_MAX
      ensures job.None? ==> store.Tables() == old(store.Tables()) && forall j :: j in store.jobs ==> !Eligible(store.jobs[j], now)
      ensures job.Some? ==>
                && Candidate(old(store.Tables()), job.value, now)
                && store.Tables() == PassTables(old(store.Tables()), job.value, p, lock, worker, now, later, lease, delay)
      ensures job.None? <==>
                forall j :: j in old(store.jobs) ==>
                  !(old(store.jobs)[j].status == Queued && old(store.jobs)[j].runAfter <= now && old(store.jobs)[j].attempts < old(store.jobs)[j].maxAttempts)
      ensures job.Some? ==> FirstDue(old(store.jobs), job.value, now)
      ensures job.Some? ==> PassShows(old(store.Tables()), store.Tables(), job.value, p, worker, now, later, lease, delay)
      ensures job.Some? && store.jobs[job.value].status == Queued ==> delay == Jittered(BaseDelay(old(store.jobs)[job.value].attempts + 1), jitter)
      ensures refresh && Agrees(old(store.jobs), old(store.workflows)) ==> Agrees(store.jobs, store.workflows)
    {
      delay := RETRY_MIN;
      job := store.ClaimNext(worker, now, lease, refresh);
      if job.None? { return; }
      var j := job.value;
      delay := RunClaimed(j, store.jobs[j], p, lock, now, later, jitter, refresh);
      PassEnds(old(store.Tables()), j, p, lock, worker, now, later, lease, delay);
    }

    /** The pass from its claim on. */
    method RunClaimed(j: JobId, row: Job, p: Pass, lock: LockId, now: Time, later: Time, jitter: real, refresh: bool) returns (ghost delay: Time)
      requires store.Valid() && lock !in store.locks && 0.8 <= jitter < 1.2
      requires Owns(store.Tables(), j, worker) && row == store.jobs[j]
      modifies store
      ensures store.Valid() && RETRY_MIN <= delay <= RETRY_MAX
      ensures store.Tables() == ClaimedTables(old(store.Tables()), j, p, lock, worker, now, later, lease, delay)
      ensures Decide(row, OutcomeOf(p, Contended(old(store.Tables()), row.lockKey, now))) == Retry ==> delay == Jittered(BaseDelay(row.attempts), jitter)
      ensures refresh && Agrees(old(store.jobs), old(store.workflows)) ==> Agrees(store.jobs, store.workflows)
    {
      if !p.hasHandler {
        delay := Conclude(j, Finish(Failed), row.attempts, later, jitter, refresh);
        return;
      }
      var ready := Prepare(j, row.lockKey, p.setup, lock, now, refresh);
      if ready {
        delay := Settle(j, row, p, later, jitter, refresh);
      } else {
        delay := RuntimeRequeue(j, row, later, jitter, refresh);
      }
    }

    // ------------------------------------------------------------ recovery

    /** Puts the job back if its row still carries the lease that was read. */
    method RecoverToQueued(j: JobId, snap: Job, runAfter: Time, at: Time, refresh: bool)
      requires store.Valid()
      modifies store
      ensures store.Valid() && store.Tables() == Recovered(old(store.Tables()), j, snap, worker, runAfter, at)
      ensures !StillRead(old(store.jobs), j, snap) ==> store.Tables() == old(store.Tables())
      ensures StillRead(old(store.jobs), j, snap) ==>
                TakesBack(old(store.Tables()), store.Tables(), j, snap, worker, at, EvRetryScheduled,
                          old(store.jobs)[j].(status := Queued, leasedBy := None, leaseExpires := None, runAfter := runAfter))
      ensures refresh && Agrees(old(store.jobs), old(store.workflows)) ==> Agrees(store.jobs, store.workflows)
    {
      RecoveredMeans(store.Tables(), j, snap, worker, runAfter, at);
      if !SameLease(store.Tables(), j, snap) { return; }
      store.jobs := store.jobs[j := RequeuedRow(store.jobs[j], runAfter)];
      store.locks := JobLocksExpired(store.locks, j);
      store.AddEvent(j, EvLeaseExpired, Running, snap.leasedBy, at);
      store.AddEvent(j, EvRetryScheduled, Queued, Some(worker), at);
      store.RefreshWorkflowStatus(store.jobs[j].group, refresh);
      OneRowAgrees(old(store.jobs), store.jobs, j, old(store.workflows));
    }

    /** Fails the job if its row still carries the lease that was read. */
    method ForceFail(j: JobId, snap: Job, at: Time, refresh: bool)
      requires store.Valid()
      modifies store
      ensures store.Valid() && store.Tables() == ForceFailed(old(store.Tables()), j, snap, worker, at)
      ensures !StillRead(old(store.jobs), j, snap) ==> store.Tables() == old(store.Tables())
      ensures StillRead(old(store.jobs), j, snap) ==>
                TakesBack(old(store.Tables()), store.Tables(), j, snap, worker, at, EvFailed,
                          old(store.jobs)[j].(status := Failed, finishedAt := Some(at)))
      ensures refresh && Agrees(old(store.jobs), old(store.workflows)) ==> Agrees(store.jobs, store.workflows)
    {
      ForceFailedMeans(store.Tables(), j, snap, worker, at);
      if !SameLease(store.Tables(), j, snap) { return; }
      store.jobs := store.jobs[j := FinishedRow(store.jobs[j], Failed, at)];
      store.locks := JobLocksExpired(store.locks, j);
      store.AddEvent(j, EvLeaseExpired, Running, snap.leasedBy, at);
      store.AddEvent(j, EvFailed, Failed, Some(worker), at);
      store.RefreshWorkflowStatus(store.jobs[j].group, refresh);
      OneRowAgrees(old(store.jobs), store.jobs, j, old(store.workflows));
    }

    /** The running jobs whose lease is over, earliest lease first. */
    method SelectExpired(now: Time, limit: nat) returns (found: seq<JobId>)
      ensures ExpiredFirst(store.jobs, now, limit, found)
    {
      var expiry := map j | j in store.jobs && LeaseExpired(store.jobs[j], now) :: store.jobs[j].leaseExpires.value;
      found := SelectOrdered(expiry, limit);
      forall j | j in expiry && j !in found ensures |found| == limit && forall i :: 0 <= i < limit ==> expiry[found[i]] <= expiry[j] {
        if |found| < limit { OrderedIsAll(expiry, found); }
        forall i | 0 <= i < limit ensures expiry[found[i]] <= expiry[j] { assert Before(expiry, found[i], j); }
      }
      forall i, k | 0 <= i < k < |found| ensures found[i] != found[k] { assert Before(expiry, found[i], found[k]); }
    }

    method RecoverOne(j: JobId, snap: Job, now: Time, at: Time, jitter: real, refresh: bool) returns (ghost delay: Time)
      requires store.Valid() && 0.8 <= jitter < 1.2
      modifies store
      ensures store.Valid() && RETRY_MIN <= delay <= RETRY_MAX
      ensures store.Tables() == SweepStepTables(old(store.Tables()), j, snap, worker, now, at, delay)
      ensures snap.attempts < snap.maxAttempts ==> delay == Jittered(BaseDelay(snap.attempts), jitter)
      ensures refresh && Agrees(old(store.jobs), old(store.workflows)) ==> Agrees(store.jobs, store.workflows)
    {
      if snap.attempts < snap.maxAttempts {
        var wait := Backoff(snap.attempts, jitter);
        RecoverToQueued(j, snap, now + wait, at, refresh);
        delay := wait;
      } else {
        delay := RETRY_MIN;
        ForceFail(j, snap, at, refresh);
      }
    }

    /**
     One recovery pass without interference: the rows it selected are recovered one
     by one, each queued job after the delay of its attempts; SweepMeans says what
     becomes of them, and SweepIsRun makes the pass a run of the protocol.
     */
    method RecoverExpiredLeases(limit: nat, now: Time, at: Time, jitter: seq<real>, refresh: bool) returns (found: seq<JobId>, ghost delays: seq<Time>)
      requires store.Valid() && |jitter| == limit && forall i :: 0 <= i < limit ==> 0.8 <= jitter[i] < 1.2
      modifies store
      ensures store.Valid() && ExpiredFirst(old(store.jobs), now, limit, found)
      ensures |delays| == |found| && forall i :: 0 <= i < |delays| ==> RETRY_MIN <= delays[i] <= RETRY_MAX
      ensures forall i :: 0 <= i < |found| && old(store.jobs)[found[i]].attempts < old(store.jobs)[found[i]].maxAttempts ==>
                delays[i] == Jittered(BaseDelay(old(store.jobs)[found[i]].attempts), jitter[i])
      ensures store.Tables() == SweepTables(old(store.Tables()), Read(old(store.jobs), found), worker, now, at, delays)
      ensures (forall i :: 0 <= i < |found| ==> old(store.jobs)[found[i]].leasedBy.Some?) ==>
                SweepResult(old(store.Tables()), store.Tables(), found, worker, now, at, delays)
      ensures refresh && Agrees(old(store.jobs), old(store.workflows)) ==> Agrees(store.jobs, store.workflows)
    {
      found := SelectExpired(now, limit);
      delays := [];
      var todo := Read(store.jobs, found);
      var i := 0;
      while i < |todo|
        invariant 0 <= i <= |todo| && store.Valid()
        invariant |delays| == i && forall k :: 0 <= k < i ==> RETRY_MIN <= delays[k] <= RETRY_MAX
        invariant forall k :: 0 <= k < i && todo[k].1.attempts < todo[k].1.maxAttempts ==> delays[k] == Jittered(BaseDelay(todo[k].1.attempts), jitter[k])
        invariant store.Tables() == SweepTables(old(store.Tables()), todo[..i], worker, now, at, delays)
        invariant refresh && Agrees(old(store.jobs), old(store.workflows)) ==> Agrees(store.jobs, store.workflows)
      {
        ghost var delay := RecoverOne(todo[i].0, todo[i].1, now, at, jitter[i], refresh);
        SweepNext(old(store.Tables()), todo, i, worker, now, at, delays, delay);
        delays := delays + [delay];
        i := i + 1;
      }
      assert todo[..i] == todo;
      if forall k :: 0 <= k < |found| ==> old(store.jobs)[found[k]].leasedBy.Some? {
        SweepMeans(old(store.Tables()), found, worker, now, at, delays);
      }
    }
  }

  /** The row still carries the lease that was read. */
  predicate StillRead(jobs: map<JobId, Job>, j: JobId, snap: Job) {
    && j in jobs && jobs[j].status == Running && snap.leasedBy.Some? && snap.leaseExpires.Some?
    && jobs[j].leasedBy == snap.leasedBy && jobs[j].leaseExpires == snap.leaseExpires
  }

  /** Exactly the locks held for the job expire. */
  ghost predicate LosesLocks(locks: map<LockId, Lock>, locks': map<LockId, Lock>, j: JobId) {
    locks'.Keys == locks.Keys && forall l :: l in locks ==>
      locks'[l] == if locks[l].status == Held && locks[l].job == j then locks[l].(status := Expired) else locks[l]
  }

  /** Recovery of one job: its new row, its locks, and its two events; nothing else. */
  ghost predicate TakesBack(db: Db, db': Db, j: JobId, snap: Job, w: WorkerId, at: Time, kind: EventKind, row: Job) {
    && OnlyRow(db.jobs, db'.jobs, j) && db'.jobs[j] == row && LosesLocks(db.locks, db'.locks, j)
    && db'.events == db.events + [Event(db.nextEvent, j, EvLeaseExpired, Running, snap.leasedBy, at),
                                  Event(db.nextEvent + 1, j, kind, row.status, Some(w), at)]
  }

  lemma RecoveredMeans(db: Db, j: JobId, snap: Job, w: WorkerId, runAfter: Time, at: Time)
    ensures var db' := Recovered(db, j, snap, w, runAfter, at);
            if StillRead(db.jobs, j, snap) then
              TakesBack(db, db', j, snap, w, at, EvRetryScheduled,
                        db.jobs[j].(status := Queued, leasedBy := None, leaseExpires := None, runAfter := runAfter))
            else db' == db
  {
  }

  lemma ForceFailedMeans(db: Db, j: JobId, snap: Job, w: WorkerId, at: Time)
    ensures var db' := ForceFailed(db, j, snap, w, at);
            if StillRead(db.jobs, j, snap) then
              TakesBack(db, db', j, snap, w, at, EvFailed, db.jobs[j].(status := Failed, finishedAt := Some(at)))
            else db' == db
  {
  }

  /** The insert is refused exactly when a held row on the key has not expired. */
  lemma ContendedIff(db: Db, key: Option<int>, now: Time)
    requires key.Some?
    ensures KeyHeld(db.(locks := LocksExpired(db.locks, now)), key.value) <==> Contended(db, key, now)
  {
    var swept := LocksExpired(db.locks, now);
    forall l | l in db.locks ensures HeldOn(swept[l], key.value) <==> HeldOn(db.locks[l], key.value) && db.locks[l].expiresAt > now {}
  }

  /** The job runs under a lease that is over. */
  predicate Overdue(r: Job, now: Time) { r.status == Running && r.leaseExpires.Some? && r.leaseExpires.value <= now }

  /** At most `limit` distinct expired rows; a row left out is not older than one taken. */
  ghost predicate ExpiredFirst(jobs: map<JobId, Job>, now: Time, limit: nat, found: seq<JobId>) {
    && |found| <= limit
    && (forall i :: 0 <= i < |found| ==> found[i] in jobs && Overdue(jobs[found[i]], now))
    && (forall i, k :: 0 <= i < k < |found| ==> found[i] != found[k])
    && forall j :: j in jobs && Overdue(jobs[j], now) && j !in found ==>
         |found| == limit && forall i :: 0 <= i < limit ==> jobs[found[i]].leaseExpires.value <= jobs[j].leaseExpires.value
  }

  lemma {:induction false} SweepDelays(db: Db, todo: seq<(JobId, Job)>, w: WorkerId, now: Time, at: Time, delays: seq<Time>, more: seq<Time>)
    requires |delays| >= |todo|
    ensures SweepTables(db, todo, w, now, at, delays + more) == SweepTables(db, todo, w, now, at, delays)
    decreases |todo|
  {
    if todo != [] { SweepDelays(db, todo[..|todo| - 1], w, now, at, delays, more); }
  }

  lemma SweepNext(db: Db, todo: seq<(JobId, Job)>, i: nat, w: WorkerId, now: Time, at: Time, delays: seq<Time>, delay: Time)
    requires i < |todo| && |delays| == i
    ensures SweepTables(db, todo[..i + 1], w, now, at, delays + [delay]) ==
            SweepStepTables(SweepTables(db, todo[..i], w, now, at, delays), todo[i].0, todo[i].1, w, now, at, delay)
  {
    assert todo[..i + 1][..i] == todo[..i];
    SweepDelays(db, todo[..i], w, now, at, delays, [delay]);
  }

  /** What cleanup deletes is what the protocol lets it delete: nothing of an unfinished job, no held lock. */
  lemma CleanupIsProtocolStep(s: Sys, cutoff: Time)
    requires DistinctIds(s.db.events)
    ensures Enabled(s, DeleteEvents(StaleEvents(s.db.events, s.db.jobs, cutoff)))
    ensures Enabled(s, DeleteLocks(StaleLocks(s.db.locks, cutoff)))
  {
    forall i | 0 <= i < |s.db.events| && s.db.events[i].id in StaleEvents(s.db.events, s.db.jobs, cutoff)
      ensures s.db.events[i].job in s.db.jobs && s.db.jobs[s.db.events[i].job].status.Terminal()
    {
      var e :| e in s.db.events && StaleEvent(e, s.db.jobs, cutoff) && e.id == s.db.events[i].id;
      var k :| 0 <= k < |s.db.events| && s.db.events[k] == e;
    }
  }
}
