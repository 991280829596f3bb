/**
 The queue as a protocol of steps. A slot is one worker goroutine with the job
 it took in memory; a sweep is one pass of lease recovery over the rows it read
 at its start. Each transaction, and each statement run outside one, is a step;
 a step that writes a time reads the clock at that step, except that a sweep
 computes retry times from the clock it read when it started.
 */
module JobProtocol {
  import opened Common
  import opened JobTables

  type SlotId = int
  type SweepId = int

  /** How far one pass of the worker loop has got with the job it claimed. */
  datatype Phase = AfterClaim | AfterLock | AfterStart | InHandler

  /** A heartbeat between its two statements: the lease it replaced and the expiry it wrote. */
  datatype Beat = Beat(previous: Time, expires: Time)

  datatype Flight = Flight(job: JobId, row: Job, phase: Phase, beat: Option<Beat>)

  datatype Slot = Slot(worker: WorkerId, lease: Time, flight: Option<Flight>)

  datatype Sweep = Sweep(worker: WorkerId, now: Time, todo: seq<(JobId, Job)>)

  datatype Sys = Sys(db: Db, clock: Time, slots: map<SlotId, Slot>, sweeps: map<SweepId, Sweep>)

  /** What a pass of the worker loop found out about its job. */
  datatype Outcome =
    | NoHandler
    | SetupFailed
    | HandlerReturned
    | HandlerFailed(retryable: bool, cancelled: bool, shutdown: bool)

  datatype Decision = Finish(status: Status) | Retry | LeaveRunning

  /** The decision table of the worker loop, on the row as it was claimed. */
  function Decide(row: Job, o: Outcome): Decision {
    match o
    case NoHandler => Finish(Failed)
    case SetupFailed => if row.attempts >= row.maxAttempts then Finish(Failed) else Retry
    case HandlerReturned => Finish(Succeeded)
    case HandlerFailed(retryable, cancelled, shutdown) =>
      if cancelled && shutdown then LeaveRunning
      else if retryable && row.attempts < row.maxAttempts then Retry
      else if cancelled then Finish(Cancelled)
      else Finish(Failed)
  }

  predicate OutcomeFits(phase: Phase, o: Outcome) {
    match phase
    case AfterClaim => o.NoHandler? || o.SetupFailed?
    case AfterLock => o.SetupFailed?
    case AfterStart => o.SetupFailed?
    case InHandler => o.HandlerReturned? || o.HandlerFailed?
  }

  datatype Action =
    | Tick(to: Time)
    | Enqueue(id: JobId, req: EnqueueRequest)
    | Claim(slot: SlotId, job: JobId)
    | ExpireLocks(before: Time)
    | TakeLock(slot: SlotId, lock: LockId)
    | Start(slot: SlotId)
    | EnterHandler(slot: SlotId)
    | BeatLease(slot: SlotId)
    | BeatLocks(slot: SlotId)
    | BeatFails(slot: SlotId)
    | Emit(slot: SlotId, kind: EventKind)
    | EndPass(slot: SlotId, outcome: Outcome, delay: Time)
    | Abandon(slot: SlotId)
    | BeginSweep(sweep: SweepId, worker: WorkerId, found: seq<JobId>)
    | SweepOne(sweep: SweepId, delay: Time)
    | EndSweep(sweep: SweepId)
    | DeleteEvents(events: set<nat>)
    | DeleteLocks(locks: set<LockId>)

  // The retry delay is drawn from an interval; ClaimFairness.Backoff computes it.
  const RETRY_MIN: Time := 4 * SECOND
  const RETRY_MAX: Time := 5 * MINUTE

  predicate Busy(s: Sys, a: SlotId) { a in s.slots && s.slots[a].flight.Some? }

  predicate At(s: Sys, a: SlotId, phase: Phase) {
    Busy(s, a) && s.slots[a].flight.value.phase == phase && s.slots[a].flight.value.beat.None?
  }

  predicate Sweeping(s: Sys, m: SweepId) { m in s.sweeps && s.sweeps[m].todo != [] }

  ghost predicate Enabled(s: Sys, a: Action) {
    match a
    case Tick(to) => s.clock <= to
    case Enqueue(id, req) => InsertAllowed(s.db, id, req)
    case Claim(slot, job) =>
      slot in s.slots && s.slots[slot].flight.None? && s.slots[slot].lease > 0 && Candidate(s.db, job, s.clock)
    case ExpireLocks(before) => before <= s.clock
    case TakeLock(slot, lock) =>
      && At(s, slot, AfterClaim)
      && (var key := s.slots[slot].flight.value.row.lockKey;
          key.Some? ==> lock !in s.db.locks && !KeyHeld(s.db, key.value))
    case Start(slot) =>
      At(s, slot, AfterLock) && Owns(s.db, s.slots[slot].flight.value.job, s.slots[slot].worker)
    case EnterHandler(slot) => At(s, slot, AfterStart)
    case BeatLease(slot) => At(s, slot, InHandler)
    case BeatLocks(slot) => Busy(s, slot) && s.slots[slot].flight.value.beat.Some?
    case BeatFails(slot) => Busy(s, slot) && s.slots[slot].flight.value.beat.Some?
    case Emit(slot, kind) =>
      Busy(s, slot) && s.slots[slot].flight.value.phase == InHandler && !kind.StatusEvent()
    case EndPass(slot, outcome, delay) =>
      && Busy(s, slot) && At(s, slot, s.slots[slot].flight.value.phase)
      && OutcomeFits(s.slots[slot].flight.value.phase, outcome)
      && RETRY_MIN <= delay <= RETRY_MAX
    case Abandon(slot) => Busy(s, slot)
    case BeginSweep(sweep, worker, found) =>
      forall i :: 0 <= i < |found| ==> found[i] in s.db.jobs && LeaseExpired(s.db.jobs[found[i]], s.clock)
    case SweepOne(sweep, delay) => Sweeping(s, sweep) && RETRY_MIN <= delay <= RETRY_MAX
    case EndSweep(sweep) => true
    case DeleteEvents(ids) =>
      forall i :: 0 <= i < |s.db.events| && s.db.events[i].id in ids ==>
        s.db.events[i].job in s.db.jobs && s.db.jobs[s.db.events[i].job].status.Terminal()
    case DeleteLocks(ids) => forall l :: l in ids && l in s.db.locks ==> s.db.locks[l].status != Held
  }

  function WithFlight(s: Sys, a: SlotId, f: Option<Flight>): Sys
    requires a in s.slots
  {
    s.(slots := s.slots[a := s.slots[a].(flight := f)])
  }

  function Next(s: Sys, a: Action): Sys
    requires Enabled(s, a)
  {
    match a
    case Tick(to) => s.(clock := to)
    case Enqueue(id, req) => s.(db := Inserted(s.db, id, req, s.clock))
    case Claim(slot, job) =>
      var db := Claimed(s.db, job, s.slots[slot].worker, s.clock, s.slots[slot].lease);
      WithFlight(s.(db := db), slot, Some(Flight(job, db.jobs[job], AfterClaim, None)))
    case ExpireLocks(before) => s.(db := s.db.(locks := LocksExpired(s.db.locks, before)))
    case TakeLock(slot, lock) =>
      var sl := s.slots[slot];
      var f := sl.flight.value;
      var db := if f.row.lockKey.None? then s.db
                else LockInserted(s.db, lock, f.row.lockKey.value, f.job, sl.worker, s.clock, sl.lease);
      WithFlight(s.(db := db), slot, Some(f.(phase := AfterLock)))
    case Start(slot) =>
      var f := s.slots[slot].flight.value;
      WithFlight(s.(db := JobTables.Started(s.db, f.job, s.slots[slot].worker, s.clock)), slot, Some(f.(phase := AfterStart)))
    case EnterHandler(slot) =>
      var f := s.slots[slot].flight.value;
      WithFlight(s.(db := Logged(s.db, f.job, EvProgress, Running, Some(s.slots[slot].worker), s.clock)), slot,
                 Some(f.(phase := InHandler)))
    case BeatLease(slot) =>
      var sl := s.slots[slot];
      var f := sl.flight.value;
      if Owns(s.db, f.job, sl.worker) && s.db.jobs[f.job].leaseExpires.Some? then
        WithFlight(s.(db := LeaseRenewed(s.db, f.job, sl.worker, s.clock + sl.lease)), slot,
                   Some(f.(beat := Some(Beat(s.db.jobs[f.job].leaseExpires.value, s.clock + sl.lease)))))
      else s
    case BeatLocks(slot) =>
      var f := s.slots[slot].flight.value;
      WithFlight(s.(db := s.db.(locks := LocksExtended(s.db.locks, f.job, s.slots[slot].worker, f.beat.value.expires))), slot,
                 Some(f.(beat := None)))
    case BeatFails(slot) => WithFlight(s, slot, Some(s.slots[slot].flight.value.(beat := None)))
    case Emit(slot, kind) =>
      var f := s.slots[slot].flight.value;
      s.(db := Logged(s.db, f.job, kind, Running, Some(s.slots[slot].worker), s.clock))
    case EndPass(slot, outcome, delay) =>
      var f := s.slots[slot].flight.value;
      var w := s.slots[slot].worker;
      var db := match Decide(f.row, outcome)
                case Finish(status) => Completed(s.db, f.job, w, status, s.clock)
                case Retry => Requeued(s.db, f.job, w, s.clock + delay, s.clock)
                case LeaveRunning => s.db;
      WithFlight(s.(db := db), slot, None)
    case Abandon(slot) => WithFlight(s, slot, None)
    case BeginSweep(sweep, worker, found) =>
      s.(sweeps := s.sweeps[sweep := Sweep(worker, s.clock, seq(|found|, i requires 0 <= i < |found| => (found[i], s.db.jobs[found[i]])))])
    case SweepOne(sweep, delay) =>
      var sw := s.sweeps[sweep];
      var (j, snap) := sw.todo[0];
      var db := if snap.attempts < snap.maxAttempts then Recovered(s.db, j, snap, sw.worker, sw.now + delay, s.clock)
                else ForceFailed(s.db, j, snap, sw.worker, s.clock);
      s.(db := db, sweeps := s.sweeps[sweep := sw.(todo := sw.todo[1..])])
    case EndSweep(sweep) => s.(sweeps := s.sweeps - {sweep})
    case DeleteEvents(ids) => s.(db := EventsDeleted(s.db, ids))
    case DeleteLocks(ids) => s.(db := LocksDeleted(s.db, ids))
  }

  // ------------------------------------------------------------------ runs

  ghost predicate Valid(s: Sys, run: seq<Action>)
    decreases |run|
  {
    run == [] || (Enabled(s, run[0]) && Valid(Next(s, run[0]), run[1..]))
  }

  ghost function Exec(s: Sys, run: seq<Action>): Sys
    requires Valid(s, run)
    decreases |run|
  {
    if run == [] then s else Exec(Next(s, run[0]), run[1..])
  }

  /** An empty database and idle workers. */
  ghost predicate Init(s: Sys) {
    && s.db.jobs == map[] && s.db.locks == map[] && s.db.events == []
    && (forall a :: a in s.slots ==> s.slots[a].flight.None?)
    && s.sweeps == map[]
  }

  /** No two slots use the same worker id: one process per id with concurrency 1. */
  ghost predicate OneSlotPerWorker(s: Sys) {
    forall a, b :: a in s.slots && b in s.slots && s.slots[a].worker == s.slots[b].worker ==> a == b
  }

  lemma WorkersFixed(s: Sys, a: Action)
    requires Enabled(s, a)
    ensures Next(s, a).slots.Keys == s.slots.Keys
    ensures forall i :: i in s.slots ==> Next(s, a).slots[i].worker == s.slots[i].worker && Next(s, a).slots[i].lease == s.slots[i].lease
    ensures s.clock <= Next(s, a).clock
  {
  }
}
