/**
 The tables of the job queue and the effect of each SQL statement or
 transaction of the queue on them. Identifiers are opaque integers. The unique
 indexes of the schema appear as guards of the statements that insert rows.
 */
module JobTables {
  import opened Common

  type JobId = int
  type LockId = int
  type WorkerId = int

  datatype Status = Queued | Running | Succeeded | Failed | Cancelled {
    predicate Terminal() { Succeeded? || Failed? || Cancelled? }
  }

  datatype JobType =
    | GlobalScan | ProjectDiscovery | ProjectScan | SecurityValidationScan
    | RepoClone | RepoPull | RepoSync | ConfigReload | ModuleRestart | ScimSync {
    predicate RepositoryOperation() { RepoClone? || RepoPull? || RepoSync? }
  }

  datatype Job = Job(
    jobType: JobType, actor: int, idemKey: Option<int>, payload: int,
    group: int, lockKey: Option<int>, priority: nat, createdAt: Time,
    status: Status, attempts: nat, maxAttempts: nat,
    leasedBy: Option<WorkerId>, leaseExpires: Option<Time>,
    runAfter: Time, startedAt: Option<Time>, finishedAt: Option<Time>)

  datatype LockStatus = Held | Released | Expired

  datatype Lock = Lock(
    key: int, job: JobId, owner: WorkerId, status: LockStatus,
    createdAt: Time, expiresAt: Time, releasedAt: Option<Time>)

  datatype EventKind =
    | EvQueued | EvClaimed | EvStarted | EvProgress | EvChildCreated
    | EvSucceeded | EvFailed | EvCancelled | EvLeaseExpired | EvRetryScheduled {
    /** Progress and child events are diagnostics; all others follow a status write. */
    predicate StatusEvent() { !EvProgress? && !EvChildCreated? }
  }

  datatype Event = Event(
    id: nat, job: JobId, kind: EventKind, status: Status,
    worker: Option<WorkerId>, createdAt: Time)

  datatype Db = Db(
    jobs: map<JobId, Job>, locks: map<LockId, Lock>,
    events: seq<Event>, nextEvent: nat)

  // ---------------------------------------------------------------- events

  function Logged(db: Db, j: JobId, kind: EventKind, status: Status,
                  worker: Option<WorkerId>, now: Time): Db
  {
    db.(events := db.events + [Event(db.nextEvent, j, kind, status, worker, now)],
        nextEvent := db.nextEvent + 1)
  }

  /** What the status events of one job say when they are replayed in order. */
  datatype Tally = Tally(
    status: Option<Status>, queued: nat, claimed: nat, started: bool,
    retried: nat, ended: nat, holder: Option<WorkerId>)

  const NO_EVENTS := Tally(None, 0, 0, false, 0, 0, None)

  function Absorb(t: Tally, e: Event): Tally {
    var u := t.(status := Some(e.status));
    match e.kind
    case EvQueued => u.(queued := t.queued + 1)
    case EvClaimed => u.(claimed := t.claimed + 1, holder := e.worker)
    case EvStarted => u.(started := true)
    case EvRetryScheduled => u.(retried := t.retried + 1, holder := None)
    case EvSucceeded => u.(ended := t.ended + 1)
    case EvFailed => u.(ended := t.ended + 1)
    case EvCancelled => u.(ended := t.ended + 1)
    case EvLeaseExpired => u
    case _ => t
  }

  ghost function Replay(events: seq<Event>, j: JobId): Tally {
    if events == [] then NO_EVENTS
    else
      var e := events[|events| - 1];
      var t := Replay(events[..|events| - 1], j);
      if e.job == j then Absorb(t, e) else t
  }

  lemma ReplayAppend(events: seq<Event>, e: Event, j: JobId)
    ensures Replay(events + [e], j) == if e.job == j then Absorb(Replay(events, j), e) else Replay(events, j)
  {
    assert (events + [e])[..|events|] == events;
  }

  /** Rows of the event table outside the set of ids. */
  function Without(events: seq<Event>, ids: set<nat>): seq<Event> {
    if events == [] then []
    else
      var e := events[|events| - 1];
      var rest := Without(events[..|events| - 1], ids);
      if e.id in ids then rest else rest + [e]
  }

  /** Deleting rows of other jobs does not change what a job's events say. */
  lemma {:induction false} ReplayWithoutOthers(events: seq<Event>, ids: set<nat>, j: JobId)
    requires forall i :: 0 <= i < |events| && events[i].id in ids ==> events[i].job != j
    ensures Replay(Without(events, ids), j) == Replay(events, j)
  {
    if events != [] {
      var n := |events| - 1;
      ReplayWithoutOthers(events[..n], ids, j);
      if events[n].id !in ids {
        ReplayAppend(Without(events[..n], ids), events[n], j);
      }
    }
  }

  /** Deleting rows never adds a terminal event. */
  lemma {:induction false} EndedWithout(events: seq<Event>, ids: set<nat>, j: JobId)
    ensures Replay(Without(events, ids), j).ended <= Replay(events, j).ended
  {
    if events != [] {
      var n := |events| - 1;
      EndedWithout(events[..n], ids, j);
      if events[n].id !in ids {
        ReplayAppend(Without(events[..n], ids), events[n], j);
      }
    }
  }

  lemma {:induction false} WithoutSubset(events: seq<Event>, ids: set<nat>)
    ensures forall e :: e in Without(events, ids) <==> e in events && e.id !in ids
  {
    if events != [] {
      var n := |events| - 1;
      WithoutSubset(events[..n], ids);
      assert events == events[..n] + [events[n]];
    }
  }

  lemma {:induction false} ReplayNoEvents(events: seq<Event>, j: JobId)
    requires forall e :: e in events ==> e.job != j
    ensures Replay(events, j) == NO_EVENTS
  {
    if events != [] {
      var n := |events| - 1;
      assert events[n] in events;
      ReplayNoEvents(events[..n], j);
    }
  }

  // --------------------------------------------------------------- enqueue

  datatype EnqueueRequest = EnqueueRequest(
    jobType: JobType, actor: int, idemKey: Option<int>, payload: int,
    group: int, lockKey: Option<int>, maxAttempts: int,
    runAfter: Option<Time>, priority: int)

  datatype EnqueueResult =
    | Enqueued(id: JobId)
    | Replayed(id: JobId, status: Status)
    | IdempotencyConflict
    | UniqueViolation
    | CheckViolation
    | JobNotFound
    | ActiveOperation(id: JobId)

  predicate SameIdempotency(r: Job, req: EnqueueRequest) {
    req.idemKey.Some? && r.idemKey == req.idemKey && r.actor == req.actor && r.jobType == req.jobType
  }

  predicate ActiveOperationOn(r: Job, key: int) {
    r.jobType.RepositoryOperation() && r.lockKey == Some(key) && !r.status.Terminal()
  }

  ghost predicate OperationIndexBlocks(db: Db, req: EnqueueRequest) {
    req.jobType.RepositoryOperation() && req.lockKey.Some? &&
    exists k :: k in db.jobs && ActiveOperationOn(db.jobs[k], req.lockKey.value)
  }

  predicate ChecksPass(req: EnqueueRequest) { req.maxAttempts >= 0 && req.priority >= 0 }

  function NewRow(req: EnqueueRequest, now: Time): Job
    requires ChecksPass(req)
  {
    Job(req.jobType, req.actor, req.idemKey, req.payload, req.group, req.lockKey,
        req.priority, now, Queued, 0,
        if req.maxAttempts == 0 then 3 else req.maxAttempts,
        None, None, if req.runAfter.None? then now else req.runAfter.value, None, None)
  }

  function Inserted(db: Db, id: JobId, req: EnqueueRequest, now: Time): Db
    requires ChecksPass(req)
  {
    Logged(db.(jobs := db.jobs[id := NewRow(req, now)]), id, EvQueued, Queued, None, now)
  }

  /** The insert commits: no replay, no failed check, no unique index in the way. */
  ghost predicate InsertAllowed(db: Db, id: JobId, req: EnqueueRequest) {
    && ChecksPass(req)
    && id !in db.jobs
    && (forall k :: k in db.jobs ==> !SameIdempotency(db.jobs[k], req))
    && !OperationIndexBlocks(db, req)
  }

  // ----------------------------------------------------------------- claim

  predicate Eligible(r: Job, now: Time) {
    r.status == Queued && r.runAfter <= now && r.attempts < r.maxAttempts
  }

  /** ORDER BY run_after ASC, priority DESC, created_at ASC. */
  predicate ClaimBefore(a: Job, b: Job) {
    || a.runAfter < b.runAfter
    || (a.runAfter == b.runAfter && a.priority > b.priority)
    || (a.runAfter == b.runAfter && a.priority == b.priority && a.createdAt <= b.createdAt)
  }

  ghost predicate Candidate(db: Db, j: JobId, now: Time) {
    && j in db.jobs && Eligible(db.jobs[j], now)
    && forall k :: k in db.jobs && Eligible(db.jobs[k], now) ==> ClaimBefore(db.jobs[j], db.jobs[k])
  }

  function ClaimedRow(r: Job, w: WorkerId, now: Time, lease: Time): Job {
    r.(status := Running, leasedBy := Some(w), leaseExpires := Some(now + lease), attempts := r.attempts + 1)
  }

  function Claimed(db: Db, j: JobId, w: WorkerId, now: Time, lease: Time): Db
    requires j in db.jobs
  {
    Logged(db.(jobs := db.jobs[j := ClaimedRow(db.jobs[j], w, now, lease)]), j, EvClaimed, Running, Some(w), now)
  }

  // ------------------------------------------------- writes under the lease

  /** The guard `id = ? AND leased_by = ? AND status = 'running'`. */
  predicate Owns(db: Db, j: JobId, w: WorkerId) {
    j in db.jobs && db.jobs[j].status == Running && db.jobs[j].leasedBy == Some(w)
  }

  function StartedRow(r: Job, now: Time): Job {
    r.(startedAt := if r.startedAt.Some? then r.startedAt else Some(now))
  }

  function Started(db: Db, j: JobId, w: WorkerId, now: Time): Db {
    if Owns(db, j, w) then
      Logged(db.(jobs := db.jobs[j := StartedRow(db.jobs[j], now)]), j, EvStarted, Running, Some(w), now)
    else db
  }

  function LeaseRenewed(db: Db, j: JobId, w: WorkerId, expires: Time): Db {
    if Owns(db, j, w) then db.(jobs := db.jobs[j := db.jobs[j].(leaseExpires := Some(expires))]) else db
  }

  function FinishedRow(r: Job, status: Status, now: Time): Job {
    r.(status := status, finishedAt := Some(now))
  }

  function TerminalEvent(status: Status): EventKind {
    if status == Failed then EvFailed else if status == Cancelled then EvCancelled else EvSucceeded
  }

  function Completed(db: Db, j: JobId, w: WorkerId, status: Status, now: Time): Db {
    if Owns(db, j, w) then
      Logged(db.(jobs := db.jobs[j := FinishedRow(db.jobs[j], status, now)],
                 locks := LocksReleased(db.locks, j, w, now)),
             j, TerminalEvent(status), status, Some(w), now)
    else db
  }

  function RequeuedRow(r: Job, runAfter: Time): Job {
    r.(status := Queued, leasedBy := None, leaseExpires := None, runAfter := runAfter)
  }

  function Requeued(db: Db, j: JobId, w: WorkerId, runAfter: Time, now: Time): Db {
    if Owns(db, j, w) then
      Logged(db.(jobs := db.jobs[j := RequeuedRow(db.jobs[j], runAfter)],
                 locks := LocksReleased(db.locks, j, w, now)),
             j, EvRetryScheduled, Queued, Some(w), now)
    else db
  }

  // ----------------------------------------------------------------- locks

  predicate HeldOn(l: Lock, key: int) { l.status == Held && l.key == key }

  predicate HeldBy(l: Lock, j: JobId, w: WorkerId) { l.status == Held && l.job == j && l.owner == w }

  ghost predicate KeyHeld(db: Db, key: int) {
    exists l :: l in db.locks && HeldOn(db.locks[l], key)
  }

  function LocksReleased(locks: map<LockId, Lock>, j: JobId, w: WorkerId, now: Time): map<LockId, Lock> {
    map l | l in locks ::
      if HeldBy(locks[l], j, w) then locks[l].(status := Released, releasedAt := Some(now)) else locks[l]
  }

  function LocksExtended(locks: map<LockId, Lock>, j: JobId, w: WorkerId, expires: Time): map<LockId, Lock> {
    map l | l in locks :: if HeldBy(locks[l], j, w) then locks[l].(expiresAt := expires) else locks[l]
  }

  function LocksExpired(locks: map<LockId, Lock>, now: Time): map<LockId, Lock> {
    map l | l in locks ::
      if locks[l].status == Held && locks[l].expiresAt <= now then locks[l].(status := Expired) else locks[l]
  }

  function JobLocksExpired(locks: map<LockId, Lock>, j: JobId): map<LockId, Lock> {
    map l | l in locks ::
      if locks[l].status == Held && locks[l].job == j then locks[l].(status := Expired) else locks[l]
  }

  function LockInserted(db: Db, l: LockId, key: int, j: JobId, w: WorkerId, now: Time, lease: Time): Db {
    db.(locks := db.locks[l := Lock(key, j, w, Held, now, now + lease, None)])
  }

  // -------------------------------------------------------------- recovery

  predicate LeaseExpired(r: Job, now: Time) {
    r.status == Running && r.leaseExpires.Some? && r.leaseExpires.value <= now
  }

  /** The compare-and-set guard of recovery: the row still carries the lease that was read. */
  predicate SameLease(db: Db, j: JobId, snap: Job) {
    && j in db.jobs && db.jobs[j].status == Running
    && snap.leasedBy.Some? && db.jobs[j].leasedBy == snap.leasedBy
    && snap.leaseExpires.Some? && db.jobs[j].leaseExpires == snap.leaseExpires
  }

  function Recovered(db: Db, j: JobId, snap: Job, sweeper: WorkerId, runAfter: Time, now: Time): Db {
    if SameLease(db, j, snap) then
      var db1 := db.(jobs := db.jobs[j := RequeuedRow(db.jobs[j], runAfter)], locks := JobLocksExpired(db.locks, j));
      Logged(Logged(db1, j, EvLeaseExpired, Running, snap.leasedBy, now), j, EvRetryScheduled, Queued, Some(sweeper), now)
    else db
  }

  function ForceFailed(db: Db, j: JobId, snap: Job, sweeper: WorkerId, now: Time): Db {
    if SameLease(db, j, snap) then
      var db1 := db.(jobs := db.jobs[j := FinishedRow(db.jobs[j], Failed, now)], locks := JobLocksExpired(db.locks, j));
      Logged(Logged(db1, j, EvLeaseExpired, Running, snap.leasedBy, now), j, EvFailed, Failed, Some(sweeper), now)
    else db
  }

  // --------------------------------------------------------------- cleanup

  function EventsDeleted(db: Db, ids: set<nat>): Db {
    db.(events := Without(db.events, ids))
  }

  function LocksDeleted(db: Db, ids: set<LockId>): Db {
    db.(locks := map l | l in db.locks && l !in ids :: db.locks[l])
  }
}
