/**
 What one pass of the worker loop does to the tables, as a composition of the
 statements it runs; what that means for the job it claimed; and that the same
 pass is a run of the queue protocol.
 */
module WorkerPass {
  import opened Common
  import opened JobTables
  import opened JobProtocol
  import opened JobRuns

  /** How far a pass gets before something outside the queue fails it. */
  datatype Setup = SetupOk | LockError(expired: bool) | StartError | EventError

  /** What a pass meets: a handler or none, a setup failure, and how the handler ends. */
  datatype Pass = Pass(hasHandler: bool, setup: Setup, retryable: bool, cancelled: bool, shutdown: bool, failed: bool)

  function HandlerEnd(p: Pass): Outcome {
    if p.failed then HandlerFailed(p.retryable, p.cancelled, p.shutdown) else HandlerReturned
  }

  /** The outcome a pass decides on; `contended` is whether its lock key was taken. */
  function OutcomeOf(p: Pass, contended: bool): Outcome {
    if !p.hasHandler then NoHandler
    else if !p.setup.SetupOk? || contended then SetupFailed
    else HandlerEnd(p)
  }

  predicate Contended(db: Db, key: Option<int>, now: Time) {
    key.Some? && exists l :: l in db.locks && HeldOn(db.locks[l], key.value) && db.locks[l].expiresAt > now
  }

  // ------------------------------------------------------------- the tables after

  /** Expiry and insert; without a key nothing, with a taken key only the expiry. */
  ghost function AfterLocking(db: Db, lock: LockId, j: JobId, key: Option<int>, w: WorkerId, now: Time, lease: Time): Db {
    if key.None? then db
    else
      var swept := db.(locks := LocksExpired(db.locks, now));
      if KeyHeld(swept, key.value) then swept else LockInserted(swept, lock, key.value, j, w, now, lease)
  }

  /** Lock, start and announcement, as far as the pass gets. */
  ghost function Prepared(db: Db, setup: Setup, lock: LockId, j: JobId, key: Option<int>, w: WorkerId, now: Time, lease: Time): Db {
    if setup.LockError? then (if setup.expired then db.(locks := LocksExpired(db.locks, now)) else db)
    else
      var locked := AfterLocking(db, lock, j, key, w, now, lease);
      if Contended(db, key, now) || setup.StartError? then locked
      else
        var started := Started(locked, j, w, now);
        if setup.EventError? then started else Logged(started, j, EvProgress, Running, Some(w), now)
  }

  ghost function Decided(db: Db, j: JobId, w: WorkerId, d: Decision, later: Time, delay: Time): Db {
    match d
    case Finish(status) => Completed(db, j, w, status, later)
    case Retry => Requeued(db, j, w, later + delay, later)
    case LeaveRunning => db
  }

  ghost function DecisionOf(db: Db, j: JobId, p: Pass, w: WorkerId, now: Time, lease: Time): Decision
    requires j in db.jobs
  {
    var row := ClaimedRow(db.jobs[j], w, now, lease);
    Decide(row, OutcomeOf(p, Contended(db, row.lockKey, now)))
  }

  /** The tables after a pass that has claimed job j. */
  ghost function ClaimedTables(db: Db, j: JobId, p: Pass, lock: LockId, w: WorkerId, now: Time, later: Time, lease: Time, delay: Time): Db
    requires j in db.jobs
  {
    var row := db.jobs[j];
    var ready := if p.hasHandler then Prepared(db, p.setup, lock, j, row.lockKey, w, now, lease) else db;
    Decided(ready, j, w, Decide(row, OutcomeOf(p, Contended(db, row.lockKey, now))), later, delay)
  }

  /** The tables after a whole pass that claims job j. */
  ghost function PassTables(db: Db, j: JobId, p: Pass, lock: LockId, w: WorkerId, now: Time, later: Time, lease: Time, delay: Time): Db
    requires j in db.jobs
  {
    ClaimedTables(Claimed(db, j, w, now, lease), j, p, lock, w, now, later, lease, delay)
  }

  // ---------------------------------------------------------------- what it means

  /** The row a pass leaves: claimed once, perhaps started, then as decided. */
  ghost predicate RowDecided(r: Job, r': Job, d: Decision, later: Time) {
    var begun := r.(startedAt := r'.startedAt);
    && (r.startedAt.Some? ==> r'.startedAt == r.startedAt)
    && match d
       case Finish(status) => r' == FinishedRow(begun, status, later)
       case Retry => r' == RequeuedRow(begun, r'.runAfter) && later + RETRY_MIN <= r'.runAfter <= later + RETRY_MAX
       case LeaveRunning => r' == begun
  }

  /** Other locks only ever expire, and none of the job's own stays held unless the job stays running. */
  ghost predicate LocksLeft(db: Db, db': Db, j: JobId, w: WorkerId, d: Decision, now: Time) {
    && (forall l :: l in db.locks ==> l in db'.locks)
    && (forall l :: l in db.locks && !HeldBy(db.locks[l], j, w) ==>
          db'.locks[l] == db.locks[l] || (db.locks[l].expiresAt <= now && db'.locks[l] == LocksExpired(db.locks, now)[l]))
    && (forall l :: l in db'.locks && l !in db.locks ==> db'.locks[l].job == j && db'.locks[l].owner == w)
    && (!d.LeaveRunning? ==> forall l :: l in db'.locks ==> !HeldBy(db'.locks[l], j, w))
  }

  /** The log only grows, by events of the job. */
  ghost predicate LogGrows(db: Db, db': Db, j: JobId) {
    db.events <= db'.events && forall i :: |db.events| <= i < |db'.events| ==> db'.events[i].job == j
  }

  ghost predicate PassResult(db: Db, db': Db, j: JobId, w: WorkerId, now: Time, later: Time, lease: Time, d: Decision) {
    && j in db.jobs && db'.jobs.Keys == db.jobs.Keys
    && (forall k :: k in db.jobs && k != j ==> db'.jobs[k] == db.jobs[k])
    && RowDecided(ClaimedRow(db.jobs[j], w, now, lease), db'.jobs[j], d, later)
    && LocksLeft(db, db', j, w, d, now)
    && LogGrows(db, db', j)
  }

  /** A pass in progress: the row is claimed and perhaps started, nothing else has moved. */
  ghost predicate Underway(db: Db, db': Db, j: JobId, w: WorkerId, now: Time, lease: Time) {
    && j in db.jobs && db'.jobs.Keys == db.jobs.Keys && Owns(db', j, w)
    && (forall k :: k in db.jobs && k != j ==> db'.jobs[k] == db.jobs[k])
    && RowDecided(ClaimedRow(db.jobs[j], w, now, lease), db'.jobs[j], LeaveRunning, now)
    && LocksLeft(db, db', j, w, LeaveRunning, now)
    && LogGrows(db, db', j)
  }

  lemma UnderwayFinishes(db: Db, mid: Db, j: JobId, w: WorkerId, now: Time, later: Time, lease: Time, status: Status)
    requires Underway(db, mid, j, w, now, lease)
    ensures PassResult(db, Completed(mid, j, w, status, later), j, w, now, later, lease, Finish(status))
  {
  }

  lemma UnderwayStays(db: Db, mid: Db, j: JobId, w: WorkerId, now: Time, later: Time, lease: Time)
    requires Underway(db, mid, j, w, now, lease)
    ensures PassResult(db, mid, j, w, now, later, lease, LeaveRunning)
  {
  }

  lemma UnderwayRetries(db: Db, mid: Db, j: JobId, w: WorkerId, now: Time, later: Time, lease: Time, runAfter: Time)
    requires Underway(db, mid, j, w, now, lease) && later + RETRY_MIN <= runAfter <= later + RETRY_MAX
    ensures PassResult(db, Requeued(mid, j, w, runAfter, later), j, w, now, later, lease, Retry)
  {
  }

  lemma UnderwayStart(db: Db, mid: Db, j: JobId, w: WorkerId, now: Time, lease: Time)
    requires Underway(db, mid, j, w, now, lease)
    ensures Underway(db, Started(mid, j, w, now), j, w, now, lease)
  {
  }

  lemma UnderwayEvent(db: Db, mid: Db, j: JobId, w: WorkerId, now: Time, lease: Time, kind: EventKind, status: Status)
    requires Underway(db, mid, j, w, now, lease)
    ensures Underway(db, Logged(mid, j, kind, status, Some(w), now), j, w, now, lease)
  {
  }

  /** After the claim, acquiring the lock fails exactly when a live lock holds the key. */
  lemma UnderwayLocks(db: Db, j: JobId, w: WorkerId, now: Time, lease: Time, id: LockId, key: Option<int>)
    requires j in db.jobs && id !in db.locks
    ensures var mid := Claimed(db, j, w, now, lease);
            var swept := mid.(locks := LocksExpired(mid.locks, now));
            && Underway(db, mid, j, w, now, lease) && Underway(db, swept, j, w, now, lease)
            && (key.Some? ==> (KeyHeld(swept, key.value) <==> Contended(db, key, now)))
            && (key.Some? ==> Underway(db, LockInserted(swept, id, key.value, j, w, now, lease), j, w, now, lease))
  {
    var mid := Claimed(db, j, w, now, lease);
    var swept := mid.(locks := LocksExpired(mid.locks, now));
    if key.Some? {
      if KeyHeld(swept, key.value) {
        var l :| l in swept.locks && HeldOn(swept.locks[l], key.value);
        assert l in db.locks && HeldOn(db.locks[l], key.value);
      }
      if Contended(db, key, now) {
        var l :| l in db.locks && HeldOn(db.locks[l], key.value) && db.locks[l].expiresAt > now;
        assert l in swept.locks && HeldOn(swept.locks[l], key.value);
      }
    }
  }

  lemma UnderwayPrepared(db: Db, j: JobId, setup: Setup, lock: LockId, w: WorkerId, now: Time, lease: Time)
    requires j in db.jobs && lock !in db.locks
    ensures Underway(db, Prepared(Claimed(db, j, w, now, lease), setup, lock, j, db.jobs[j].lockKey, w, now, lease), j, w, now, lease)
  {
    var claimed, key := Claimed(db, j, w, now, lease), db.jobs[j].lockKey;
    UnderwayLocks(db, j, w, now, lease, lock, key);
    var locked := AfterLocking(claimed, lock, j, key, w, now, lease);
    assert Underway(db, locked, j, w, now, lease);
    UnderwayStart(db, locked, j, w, now, lease);
    UnderwayEvent(db, Started(locked, j, w, now), j, w, now, lease, EvProgress, Running);
  }

  /**
   A pass leaves its job claimed once and then as the decision table says, leaves
   no lock of its own held unless the job stays running, moves no other row and
   only adds events of the job.
   */
  lemma PassMeans(db: Db, j: JobId, p: Pass, lock: LockId, w: WorkerId, now: Time, later: Time, lease: Time, delay: Time)
    requires j in db.jobs && lock !in db.locks && RETRY_MIN <= delay <= RETRY_MAX
    ensures PassResult(db, PassTables(db, j, p, lock, w, now, later, lease, delay), j, w, now, later, lease, DecisionOf(db, j, p, w, now, lease))
  {
    var claimed := Claimed(db, j, w, now, lease);
    UnderwayLocks(db, j, w, now, lease, lock, None);
    UnderwayPrepared(db, j, p.setup, lock, w, now, lease);
    var ready := if p.hasHandler then Prepared(claimed, p.setup, lock, j, db.jobs[j].lockKey, w, now, lease) else claimed;
    match DecisionOf(db, j, p, w, now, lease)
    case Finish(status) => UnderwayFinishes(db, ready, j, w, now, later, lease, status);
    case Retry => UnderwayRetries(db, ready, j, w, now, later, lease, later + delay);
    case LeaveRunning => UnderwayStays(db, ready, j, w, now, later, lease);
  }

  // ------------------------------------------------------- a run of the protocol

  /** The protocol's state in the middle of the slot's pass. */
  function Mid(s: Sys, slot: SlotId, db: Db, f: Flight): Sys
    requires slot in s.slots
  {
    s.(db := db, slots := s.slots[slot := s.slots[slot].(flight := Some(f))])
  }

  lemma StepClaim(s: Sys, slot: SlotId, j: JobId)
    requires slot in s.slots && s.slots[slot].flight.None? && s.slots[slot].lease > 0 && Candidate(s.db, j, s.clock)
    ensures Enabled(s, Claim(slot, j))
    ensures var w, lease := s.slots[slot].worker, s.slots[slot].lease;
            Next(s, Claim(slot, j)) ==
            Mid(s, slot, Claimed(s.db, j, w, s.clock, lease), Flight(j, ClaimedRow(s.db.jobs[j], w, s.clock, lease), AfterClaim, None))
  {
  }

  lemma StepExpire(s: Sys, slot: SlotId, db: Db, f: Flight)
    requires slot in s.slots
    ensures Enabled(Mid(s, slot, db, f), ExpireLocks(s.clock))
    ensures Next(Mid(s, slot, db, f), ExpireLocks(s.clock)) == Mid(s, slot, db.(locks := LocksExpired(db.locks, s.clock)), f)
  {
  }

  lemma StepTake(s: Sys, slot: SlotId, db: Db, f: Flight, lock: LockId)
    requires slot in s.slots && f.phase.AfterClaim? && f.beat.None? && lock !in db.locks
    requires f.row.lockKey.Some? ==> !KeyHeld(db, f.row.lockKey.value)
    ensures Enabled(Mid(s, slot, db, f), TakeLock(slot, lock))
    ensures var sl := s.slots[slot];
            Next(Mid(s, slot, db, f), TakeLock(slot, lock)) ==
            Mid(s, slot, if f.row.lockKey.None? then db else LockInserted(db, lock, f.row.lockKey.value, f.job, sl.worker, s.clock, sl.lease),
                f.(phase := AfterLock))
  {
  }

  lemma StepStart(s: Sys, slot: SlotId, db: Db, f: Flight)
    requires slot in s.slots && f.phase.AfterLock? && f.beat.None? && Owns(db, f.job, s.slots[slot].worker)
    ensures Enabled(Mid(s, slot, db, f), Start(slot))
    ensures Next(Mid(s, slot, db, f), Start(slot)) ==
            Mid(s, slot, Started(db, f.job, s.slots[slot].worker, s.clock), f.(phase := AfterStart))
  {
  }

  lemma StepEnter(s: Sys, slot: SlotId, db: Db, f: Flight)
    requires slot in s.slots && f.phase.AfterStart? && f.beat.None?
    ensures Enabled(Mid(s, slot, db, f), EnterHandler(slot))
    ensures Next(Mid(s, slot, db, f), EnterHandler(slot)) ==
            Mid(s, slot, Logged(db, f.job, EvProgress, Running, Some(s.slots[slot].worker), s.clock), f.(phase := InHandler))
  {
  }

  /** Time passes and the pass ends. */
  lemma StepsEnd(s: Sys, slot: SlotId, db: Db, f: Flight, run0: seq<Action>, outcome: Outcome, later: Time, delay: Time) returns (run: seq<Action>)
    requires slot in s.slots && Valid(s, run0) && Exec(s, run0) == Mid(s, slot, db, f)
    requires f.beat.None? && OutcomeFits(f.phase, outcome) && s.clock <= later && RETRY_MIN <= delay <= RETRY_MAX
    ensures Valid(s, run)
    ensures Exec(s, run) ==
            s.(db := Decided(db, f.job, s.slots[slot].worker, Decide(f.row, outcome), later, delay), clock := later,
               slots := s.slots[slot := s.slots[slot].(flight := None)])
  {
    OneMore(s, run0, Tick(later));
    run := run0 + [Tick(later)];
    var a := EndPass(slot, outcome, delay);
    OneMore(s, run, a);
    run := run + [a];
  }

  /** The steps between the claim and the end, and where they leave the slot. */
  lemma Preparing(s: Sys, slot: SlotId, j: JobId, setup: Setup, lock: LockId) returns (run: seq<Action>, f: Flight)
    requires slot in s.slots && s.slots[slot].flight.None? && s.slots[slot].lease > 0 && Candidate(s.db, j, s.clock) && lock !in s.db.locks
    ensures var w, lease := s.slots[slot].worker, s.slots[slot].lease;
            var row := ClaimedRow(s.db.jobs[j], w, s.clock, lease);
            && Valid(s, run) && f.job == j && f.row == row && f.beat.None?
            && Exec(s, run) == Mid(s, slot, Prepared(Claimed(s.db, j, w, s.clock, lease), setup, lock, j, row.lockKey, w, s.clock, lease), f)
            && (if setup.SetupOk? && !Contended(s.db, row.lockKey, s.clock) then f.phase.InHandler? else !f.phase.InHandler?)
  {
    var w, lease, now := s.slots[slot].worker, s.slots[slot].lease, s.clock;
    var db := Claimed(s.db, j, w, now, lease);
    f := Flight(j, ClaimedRow(s.db.jobs[j], w, now, lease), AfterClaim, None);
    StepClaim(s, slot, j);
    run := [];
    OneMore(s, run, Claim(slot, j));
    run := run + [Claim(slot, j)];
    if setup.LockError? {
      if setup.expired {
        StepExpire(s, slot, db, f);
        OneMore(s, run, ExpireLocks(now));
        run := run + [ExpireLocks(now)];
      }
      return;
    }
    run, f := Locking(s, slot, j, lock, run, f);
    if Contended(s.db, f.row.lockKey, now) || setup.StartError? { return; }
    db := AfterLocking(db, lock, j, f.row.lockKey, w, now, lease);
    UnderwayLocks(s.db, j, w, now, lease, lock, f.row.lockKey);
    StepStart(s, slot, db, f);
    OneMore(s, run, Start(slot));
    run := run + [Start(slot)];
    db, f := Started(db, j, w, now), f.(phase := AfterStart);
    if setup.EventError? { return; }
    StepEnter(s, slot, db, f);
    OneMore(s, run, EnterHandler(slot));
    run := run + [EnterHandler(slot)];
    f := f.(phase := InHandler);
  }

  lemma Locking(s: Sys, slot: SlotId, j: JobId, lock: LockId, run0: seq<Action>, f0: Flight) returns (run: seq<Action>, f: Flight)
    requires slot in s.slots && j in s.db.jobs && lock !in s.db.locks
    requires var w, lease := s.slots[slot].worker, s.slots[slot].lease;
             f0 == Flight(j, ClaimedRow(s.db.jobs[j], w, s.clock, lease), AfterClaim, None)
             && Valid(s, run0) && Exec(s, run0) == Mid(s, slot, Claimed(s.db, j, w, s.clock, lease), f0)
    ensures var w, lease := s.slots[slot].worker, s.slots[slot].lease;
            && Valid(s, run)
            && Exec(s, run) == Mid(s, slot, AfterLocking(Claimed(s.db, j, w, s.clock, lease), lock, j, f0.row.lockKey, w, s.clock, lease), f)
            && f == f0.(phase := if Contended(s.db, f0.row.lockKey, s.clock) then AfterClaim else AfterLock)
  {
    var w, lease, now, key := s.slots[slot].worker, s.slots[slot].lease, s.clock, f0.row.lockKey;
    var db := Claimed(s.db, j, w, now, lease);
    UnderwayLocks(s.db, j, w, now, lease, lock, key);
    run, f := run0, f0;
    if key.Some? {
      StepExpire(s, slot, db, f);
      OneMore(s, run, ExpireLocks(now));
      run := run + [ExpireLocks(now)];
      db := db.(locks := LocksExpired(db.locks, now));
    }
    if !Contended(s.db, key, now) {
      StepTake(s, slot, db, f, lock);
      OneMore(s, run, TakeLock(slot, lock));
      run := run + [TakeLock(slot, lock)];
      f := f.(phase := AfterLock);
    }
  }

  /** A pass without interference is a run of the protocol: claim, lock, start, announce, end. */
  lemma PassIsRun(s: Sys, slot: SlotId, j: JobId, p: Pass, lock: LockId, later: Time, delay: Time) returns (run: seq<Action>)
    requires slot in s.slots && s.slots[slot].flight.None? && s.slots[slot].lease > 0
    requires Candidate(s.db, j, s.clock) && lock !in s.db.locks && s.clock <= later && RETRY_MIN <= delay <= RETRY_MAX
    ensures Valid(s, run)
    ensures Exec(s, run) ==
            s.(db := PassTables(s.db, j, p, lock, s.slots[slot].worker, s.clock, later, s.slots[slot].lease, delay), clock := later)
  {
    var w, lease, now := s.slots[slot].worker, s.slots[slot].lease, s.clock;
    var row := ClaimedRow(s.db.jobs[j], w, now, lease);
    var db := Claimed(s.db, j, w, now, lease);
    var outcome := OutcomeOf(p, Contended(s.db, row.lockKey, now));
    assert s.slots[slot := s.slots[slot].(flight := None)] == s.slots;
    if !p.hasHandler {
      StepClaim(s, slot, j);
      OneMore(s, [], Claim(slot, j));
      run := StepsEnd(s, slot, db, Flight(j, row, AfterClaim, None), [] + [Claim(slot, j)], outcome, later, delay);
    } else {
      var f;
      run, f := Preparing(s, slot, j, p.setup, lock);
      run := StepsEnd(s, slot, Prepared(db, p.setup, lock, j, row.lockKey, w, now, lease), f, run, outcome, later, delay);
    }
  }

  // ------------------------------------------------------------ recovery passes

  /** One compare-and-set of recovery, on the row as it was read. */
  function SweepStepTables(db: Db, j: JobId, snap: Job, w: WorkerId, now: Time, at: Time, delay: Time): Db {
    if snap.attempts < snap.maxAttempts then Recovered(db, j, snap, w, now + delay, at) else ForceFailed(db, j, snap, w, at)
  }

  /** The tables after a recovery pass over the rows it read. */
  ghost function SweepTables(db: Db, todo: seq<(JobId, Job)>, w: WorkerId, now: Time, at: Time, delays: seq<Time>): Db
    requires |delays| >= |todo|
    decreases |todo|
  {
    if todo == [] then db
    else
      var n := |todo| - 1;
      SweepStepTables(SweepTables(db, todo[..n], w, now, at, delays), todo[n].0, todo[n].1, w, now, at, delays[n])
  }

  function Read(jobs: map<JobId, Job>, found: seq<JobId>): seq<(JobId, Job)>
    requires forall i :: 0 <= i < |found| ==> found[i] in jobs
  {
    seq(|found|, i requires 0 <= i < |found| => (found[i], jobs[found[i]]))
  }

  /** The row of an expired lease after recovery: queued for a later time, or failed. */
  ghost predicate SweptRow(r: Job, r': Job, runAfter: Time, at: Time) {
    if r.attempts < r.maxAttempts then r' == r.(status := Queued, leasedBy := None, leaseExpires := None, runAfter := runAfter)
    else r' == r.(status := Failed, finishedAt := Some(at))
  }

  /** The two events of a recovered job: the worker that lost the lease, and where the job went. */
  ghost predicate SweptEvents(e: Event, f: Event, r: Job, j: JobId, w: WorkerId, at: Time) {
    && e.job == j && e.kind == EvLeaseExpired && e.status == Running && e.worker == r.leasedBy && e.createdAt == at
    && f.job == j && f.worker == Some(w) && f.createdAt == at
    && if r.attempts < r.maxAttempts then f.kind == EvRetryScheduled && f.status == Queued else f.kind == EvFailed && f.status == Failed
  }

  ghost predicate SweepResult(db: Db, db': Db, found: seq<JobId>, w: WorkerId, now: Time, at: Time, delays: seq<Time>)
    requires |delays| >= |found|
  {
    && db'.jobs.Keys == db.jobs.Keys && db'.locks.Keys == db.locks.Keys
    && (forall j :: j in db.jobs && j !in found ==> db'.jobs[j] == db.jobs[j])
    && (forall l :: l in db.locks ==>
          db'.locks[l] == if db.locks[l].status == Held && db.locks[l].job in found then db.locks[l].(status := Expired) else db.locks[l])
    && db.events <= db'.events && |db'.events| == |db.events| + 2 * |found|
    && forall i :: 0 <= i < |found| && found[i] in db.jobs ==>
         && SweptRow(db.jobs[found[i]], db'.jobs[found[i]], now + delays[i], at)
         && SweptEvents(db'.events[|db.events| + 2 * i], db'.events[|db.events| + 2 * i + 1], db.jobs[found[i]], found[i], w, at)
  }

  lemma SweepStep(db: Db, mid: Db, done: seq<JobId>, j: JobId, w: WorkerId, now: Time, at: Time, delays: seq<Time>)
    requires |delays| > |done| && SweepResult(db, mid, done, w, now, at, delays)
    requires j in db.jobs && j !in done && LeaseExpired(db.jobs[j], now) && db.jobs[j].leasedBy.Some?
    ensures SweepResult(db, SweepStepTables(mid, j, db.jobs[j], w, now, at, delays[|done|]), done + [j], w, now, at, delays)
  {
    assert SameLease(mid, j, db.jobs[j]);
    assert forall k :: k in done + [j] <==> k in done || k == j;
  }

  lemma SweepExtend(db: Db, mid: Db, after: Db, found: seq<JobId>, w: WorkerId, now: Time, at: Time, delays: seq<Time>)
    requires found != [] && |delays| >= |found| && SweepResult(db, mid, found[..|found| - 1], w, now, at, delays)
    requires forall i :: 0 <= i < |found| - 1 ==> found[i] != found[|found| - 1]
    requires var j := found[|found| - 1];
             j in db.jobs && LeaseExpired(db.jobs[j], now) && db.jobs[j].leasedBy.Some?
             && after == SweepStepTables(mid, j, db.jobs[j], w, now, at, delays[|found| - 1])
    ensures SweepResult(db, after, found, w, now, at, delays)
  {
    var done, j := found[..|found| - 1], found[|found| - 1];
    assert found == done + [j];
    SweepStep(db, mid, done, j, w, now, at, delays);
  }

  lemma SweepUnfold(db: Db, found: seq<JobId>, w: WorkerId, now: Time, at: Time, delays: seq<Time>)
    requires found != [] && |delays| >= |found| && forall i :: 0 <= i < |found| ==> found[i] in db.jobs
    ensures var n := |found| - 1;
            SweepTables(db, Read(db.jobs, found), w, now, at, delays) ==
            SweepStepTables(SweepTables(db, Read(db.jobs, found[..n]), w, now, at, delays), found[n], db.jobs[found[n]], w, now, at, delays[n])
  {
    assert Read(db.jobs, found)[..|found| - 1] == Read(db.jobs, found[..|found| - 1]);
  }

  /**
   What a recovery pass does: exactly the rows it read leave the running state,
   back to the queue after the drawn delay if an attempt is left and to failed if
   none is; their locks expire and each gets its two events.
   */
  lemma {:induction false} SweepMeans(db: Db, found: seq<JobId>, w: WorkerId, now: Time, at: Time, delays: seq<Time>)
    requires |delays| >= |found|
    requires forall i :: 0 <= i < |found| ==> found[i] in db.jobs && LeaseExpired(db.jobs[found[i]], now) && db.jobs[found[i]].leasedBy.Some?
    requires forall i, k :: 0 <= i < k < |found| ==> found[i] != found[k]
    ensures SweepResult(db, SweepTables(db, Read(db.jobs, found), w, now, at, delays), found, w, now, at, delays)
    decreases |found|
  {
    if found == [] {
      NothingSwept(db, w, now, at, delays);
    } else {
      var n := |found| - 1;
      assert forall i, k :: 0 <= i < k < n ==> found[..n][i] != found[..n][k];
      SweepMeans(db, found[..n], w, now, at, delays);
      SweepUnfold(db, found, w, now, at, delays);
      SweepExtend(db, SweepTables(db, Read(db.jobs, found[..n]), w, now, at, delays),
                  SweepTables(db, Read(db.jobs, found), w, now, at, delays), found, w, now, at, delays);
    }
  }

  lemma NothingSwept(db: Db, w: WorkerId, now: Time, at: Time, delays: seq<Time>)
    ensures SweepResult(db, db, [], w, now, at, delays)
  {
  }

  lemma {:induction false} SweepRun(s: Sys, m: SweepId, w: WorkerId, now: Time, todo: seq<(JobId, Job)>, delays: seq<Time>, k: nat)
    returns (run: seq<Action>)
    requires m in s.sweeps && s.sweeps[m] == Sweep(w, now, todo) && |delays| >= |todo| && k <= |todo|
    requires forall i :: 0 <= i < |delays| ==> RETRY_MIN <= delays[i] <= RETRY_MAX
    ensures Valid(s, run)
    ensures Exec(s, run) == s.(db := SweepTables(s.db, todo[..k], w, now, s.clock, delays), sweeps := s.sweeps[m := Sweep(w, now, todo[k..])])
  {
    if k == 0 {
      run := [];
      assert todo[0..] == todo && s.sweeps[m := Sweep(w, now, todo)] == s.sweeps;
    } else {
      run := SweepRun(s, m, w, now, todo, delays, k - 1);
      var t := Exec(s, run);
      assert t.sweeps[m].todo[0] == todo[k - 1] && t.sweeps[m].todo[1..] == todo[k..];
      assert todo[..k][..k - 1] == todo[..k - 1];
      OneMore(s, run, SweepOne(m, delays[k - 1]));
      run := run + [SweepOne(m, delays[k - 1])];
    }
  }

  /** A recovery pass without interference is a run of the protocol: read, then one step per row. */
  lemma SweepIsRun(s: Sys, m: SweepId, w: WorkerId, found: seq<JobId>, at: Time, delays: seq<Time>) returns (run: seq<Action>)
    requires m !in s.sweeps && s.clock <= at && |delays| >= |found|
    requires forall i :: 0 <= i < |delays| ==> RETRY_MIN <= delays[i] <= RETRY_MAX
    requires forall i :: 0 <= i < |found| ==> found[i] in s.db.jobs && LeaseExpired(s.db.jobs[found[i]], s.clock)
    ensures Valid(s, run)
    ensures Exec(s, run) == s.(db := SweepTables(s.db, Read(s.db.jobs, found), w, s.clock, at, delays), clock := at)
  {
    var todo := Read(s.db.jobs, found);
    var begun := SweepBegins(s, m, w, found, at);
    var t := Exec(s, begun);
    var rest := SweepRun(t, m, w, s.clock, todo, delays, |todo|);
    assert todo[..|todo|] == todo;
    Appended(s, begun, rest);
    OneMore(s, begun + rest, EndSweep(m));
    run := begun + rest + [EndSweep(m)];
    assert s.sweeps[m := Sweep(w, s.clock, todo)][m := Sweep(w, s.clock, todo[|todo|..])] - {m} == s.sweeps;
  }

  lemma SweepBegins(s: Sys, m: SweepId, w: WorkerId, found: seq<JobId>, at: Time) returns (run: seq<Action>)
    requires s.clock <= at
    requires forall i :: 0 <= i < |found| ==> found[i] in s.db.jobs && LeaseExpired(s.db.jobs[found[i]], s.clock)
    ensures Valid(s, run)
    ensures Exec(s, run) == s.(clock := at, sweeps := s.sweeps[m := Sweep(w, s.clock, Read(s.db.jobs, found))])
  {
    var first := [BeginSweep(m, w, found)];
    OneMore(s, [], first[0]);
    assert [] + first == first;
    OneMore(s, first, Tick(at));
    run := first + [Tick(at)];
  }

  // --------------------------------------------- how a pass ends, case by case

  /** No lock on the key of the job is held beyond the moment. */
  ghost predicate KeyIsFree(db: Db, r: Job, now: Time) {
    r.lockKey.Some? ==> forall l :: l in db.locks && db.locks[l].key == r.lockKey.value && db.locks[l].status == Held ==> db.locks[l].expiresAt <= now
  }

  /**
   The status a pass leaves its job in. `runs` is whether the handler ran: there is
   one, nothing failed before it, and the lock key was free. The attempt that is
   counted is the one of this pass.
   */
  ghost predicate EndsIn(r: Job, p: Pass, free: bool, status: Status) {
    var runs := p.hasHandler && p.setup == SetupOk && free;
    var left := r.attempts + 1 < r.maxAttempts;
    var stopped := p.failed && p.cancelled && p.shutdown;
    && (status == Succeeded <==> runs && !p.failed)
    && (status == Running <==> runs && stopped)
    && (status == Queued <==> p.hasHandler && left && (!runs || (p.failed && p.retryable && !stopped)))
    && (status == Cancelled <==> runs && p.failed && p.cancelled && !stopped && !(p.retryable && left))
    && (status == Failed <==> !p.hasHandler || (!runs && !left) || (runs && p.failed && !p.cancelled && !(p.retryable && left)))
  }

  /** The events a pass adds, one for each status it gives the job and one when its handler starts. */
  ghost predicate PassEvents(added: seq<Event>, p: Pass, free: bool, status: Status) {
    var started := p.hasHandler && free && (p.setup == SetupOk || p.setup == EventError);
    var runs := p.hasHandler && free && p.setup == SetupOk;
    var n := 1 + (if started then 1 else 0) + (if runs then 1 else 0);
    && |added| == n + (if status == Running then 0 else 1)
    && added[0].kind == EvClaimed && (started ==> added[1].kind == EvStarted) && (runs ==> added[2].kind == EvProgress)
    && (forall i :: 0 <= i < n ==> added[i].status == Running)
    && (status == Succeeded ==> added[n].kind == EvSucceeded && added[n].status == Succeeded)
    && (status == Failed ==> added[n].kind == EvFailed && added[n].status == Failed)
    && (status == Cancelled ==> added[n].kind == EvCancelled && added[n].status == Cancelled)
    && (status == Queued ==> added[n].kind == EvRetryScheduled && added[n].status == Queued)
  }

  lemma FreeIff(db: Db, r: Job, now: Time)
    ensures KeyIsFree(db, r, now) <==> !Contended(db, r.lockKey, now)
  {
  }

  /** The decision of a pass on its row, case by case. */
  lemma DecisionEnds(r: Job, p: Pass, free: bool, w: WorkerId, now: Time, lease: Time, later: Time, r': Job)
    requires RowDecided(ClaimedRow(r, w, now, lease), r', Decide(ClaimedRow(r, w, now, lease), OutcomeOf(p, !free)), later)
    ensures EndsIn(r, p, free, r'.status)
    ensures r'.attempts == r.attempts + 1
    ensures r'.status == Queued ==> r'.leasedBy == None && later + 4 * SECOND <= r'.runAfter <= later + 5 * MINUTE
    ensures r'.status == Running ==> r'.leasedBy == Some(w) && r'.leaseExpires == Some(now + lease)
    ensures r'.status != Queued && r'.status != Running ==> r'.finishedAt == Some(later)
  {
  }

  /** The events of a pass, statement by statement. */
  lemma PreparedEvents(db: Db, setup: Setup, lock: LockId, j: JobId, key: Option<int>, w: WorkerId, now: Time, lease: Time)
    requires Owns(db, j, w)
    ensures var mid := Prepared(db, setup, lock, j, key, w, now, lease);
            var free := !Contended(db, key, now);
            var started := free && (setup == SetupOk || setup == EventError);
            var runs := free && setup == SetupOk;
            && Owns(mid, j, w) && db.events <= mid.events
            && |mid.events| == |db.events| + (if started then 1 else 0) + (if runs then 1 else 0)
            && (started ==> mid.events[|db.events|].kind == EvStarted && mid.events[|db.events|].status == Running)
            && (runs ==> mid.events[|db.events| + 1].kind == EvProgress && mid.events[|db.events| + 1].status == Running)
  {
  }

  lemma DecidedEvents(db: Db, j: JobId, w: WorkerId, d: Decision, later: Time, delay: Time)
    requires Owns(db, j, w) && (d.Finish? ==> d.status == Succeeded || d.status == Failed || d.status == Cancelled)
    ensures var db' := Decided(db, j, w, d, later, delay);
            && j in db'.jobs
            && (d.LeaveRunning? ==> db'.events == db.events && db'.jobs[j].status == Running)
            && (!d.LeaveRunning? ==> |db'.events| == |db.events| + 1 && db.events <= db'.events)
            && (!d.LeaveRunning? ==> db'.events[|db.events|].status == db'.jobs[j].status)
            && (d == Retry ==> db'.jobs[j].runAfter == later + delay)
            && (d == Retry ==> db'.jobs[j].status == Queued && db'.events[|db.events|].kind == EvRetryScheduled)
            && (d == Finish(Succeeded) ==> db'.jobs[j].status == Succeeded && db'.events[|db.events|].kind == EvSucceeded)
            && (d == Finish(Failed) ==> db'.jobs[j].status == Failed && db'.events[|db.events|].kind == EvFailed)
            && (d == Finish(Cancelled) ==> db'.jobs[j].status == Cancelled && db'.events[|db.events|].kind == EvCancelled)
  {
  }

  /** What a pass that claimed job j shows afterwards: its status, attempt, times and lease, and the events it added. */
  ghost predicate PassShows(db: Db, db': Db, j: JobId, p: Pass, w: WorkerId, now: Time, later: Time, lease: Time, delay: Time) {
    && j in db.jobs && j in db'.jobs && EndsIn(db.jobs[j], p, KeyIsFree(db, db.jobs[j], now), db'.jobs[j].status)
    && db'.jobs[j].attempts == db.jobs[j].attempts + 1
    && (db'.jobs[j].status == Queued ==> db'.jobs[j].leasedBy == None && db'.jobs[j].runAfter == later + delay)
    && (db'.jobs[j].status == Running ==> db'.jobs[j].leasedBy == Some(w) && db'.jobs[j].leaseExpires == Some(now + lease))
    && (db'.jobs[j].status != Queued && db'.jobs[j].status != Running ==> db'.jobs[j].finishedAt == Some(later))
    && db.events <= db'.events
    && PassEvents(db'.events[|db.events|..], p, KeyIsFree(db, db.jobs[j], now), db'.jobs[j].status)
  }

  /**
   How a pass ends, for every input: the status it leaves, with the attempt, the
   times and the lease that go with it, and the events it adds.
   */
  lemma PassEnds(db: Db, j: JobId, p: Pass, lock: LockId, w: WorkerId, now: Time, later: Time, lease: Time, delay: Time)
    requires j in db.jobs && lock !in db.locks && RETRY_MIN <= delay <= RETRY_MAX
    ensures PassShows(db, PassTables(db, j, p, lock, w, now, later, lease, delay), j, p, w, now, later, lease, delay)
    ensures PassTables(db, j, p, lock, w, now, later, lease, delay).jobs[j].status == Queued ==> DecisionOf(db, j, p, w, now, lease) == Retry
  {
    PassMeans(db, j, p, lock, w, now, later, lease, delay);
    FreeIff(db, db.jobs[j], now);
    var db' := PassTables(db, j, p, lock, w, now, later, lease, delay);
    DecisionEnds(db.jobs[j], p, KeyIsFree(db, db.jobs[j], now), w, now, lease, later, db'.jobs[j]);
    PassAdds(db, j, p, lock, w, now, later, lease, delay);
    PassRetries(db, j, p, lock, w, now, later, lease, delay);
  }

  lemma PassRetries(db: Db, j: JobId, p: Pass, lock: LockId, w: WorkerId, now: Time, later: Time, lease: Time, delay: Time)
    requires j in db.jobs && lock !in db.locks
    ensures var db' := PassTables(db, j, p, lock, w, now, later, lease, delay);
            j in db'.jobs && (db'.jobs[j].status == Queued ==> db'.jobs[j].runAfter == later + delay && DecisionOf(db, j, p, w, now, lease) == Retry)
  {
    var claimed := Claimed(db, j, w, now, lease);
    PreparedEvents(claimed, p.setup, lock, j, db.jobs[j].lockKey, w, now, lease);
    var ready := if p.hasHandler then Prepared(claimed, p.setup, lock, j, db.jobs[j].lockKey, w, now, lease) else claimed;
    DecidedEvents(ready, j, w, DecisionOf(db, j, p, w, now, lease), later, delay);
  }

  lemma PassAdds(db: Db, j: JobId, p: Pass, lock: LockId, w: WorkerId, now: Time, later: Time, lease: Time, delay: Time)
    requires j in db.jobs && lock !in db.locks && RETRY_MIN <= delay <= RETRY_MAX
    ensures var db' := PassTables(db, j, p, lock, w, now, later, lease, delay);
            && db.events <= db'.events && j in db'.jobs
            && PassEvents(db'.events[|db.events|..], p, KeyIsFree(db, db.jobs[j], now), db'.jobs[j].status)
  {
    var claimed := Claimed(db, j, w, now, lease);
    FreeIff(db, db.jobs[j], now);
    PreparedEvents(claimed, p.setup, lock, j, db.jobs[j].lockKey, w, now, lease);
    var ready := if p.hasHandler then Prepared(claimed, p.setup, lock, j, db.jobs[j].lockKey, w, now, lease) else claimed;
    DecidedEvents(ready, j, w, DecisionOf(db, j, p, w, now, lease), later, delay);
  }
}
