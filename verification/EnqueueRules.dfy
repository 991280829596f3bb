/**
 Idempotent enqueue and the one-active-operation rule: what the unique indexes
 on the jobs table guarantee over whole runs.
 */
module EnqueueRules {
  import opened Common
  import opened JobTables
  import opened JobProtocol
  import opened JobInvariants
  import opened JobRuns

  predicate SameRequestKey(a: Job, b: Job) {
    a.idemKey.Some? && a.idemKey == b.idemKey && a.actor == b.actor && a.jobType == b.jobType
  }

  predicate RivalOperations(a: Job, b: Job) {
    a.lockKey.Some? && ActiveOperationOn(a, a.lockKey.value) && ActiveOperationOn(b, a.lockKey.value)
  }

  predicate UnfinishedOn(r: Job, jobType: JobType, key: int) {
    r.jobType == jobType && r.lockKey == Some(key) && !r.status.Terminal()
  }

  ghost predicate IndexesHold(db: Db) {
    && (forall j, k :: j in db.jobs && k in db.jobs && SameRequestKey(db.jobs[j], db.jobs[k]) ==> j == k)
    && (forall j, k :: j in db.jobs && k in db.jobs && RivalOperations(db.jobs[j], db.jobs[k]) ==> j == k)
  }

  /** How an enqueue can come out, and what it then means. */
  ghost predicate EnqueueOutcome(db: Db, db': Db, id: JobId, req: EnqueueRequest, now: Time, res: EnqueueResult) {
    match res
    case Enqueued(i) => i == id && InsertAllowed(db, id, req) && db' == Inserted(db, id, req, now)
    case Replayed(k, status) =>
      db' == db && k in db.jobs && SameIdempotency(db.jobs[k], req) && db.jobs[k].payload == req.payload && status == db.jobs[k].status
    case IdempotencyConflict =>
      db' == db && exists k :: k in db.jobs && SameIdempotency(db.jobs[k], req) && db.jobs[k].payload != req.payload
    case CheckViolation => db' == db && !ChecksPass(req) && (forall k :: k in db.jobs ==> !SameIdempotency(db.jobs[k], req))
    case UniqueViolation =>
      db' == db && ChecksPass(req) && req.idemKey.None? && (id in db.jobs || OperationIndexBlocks(db, req))
    case JobNotFound =>
      && db' == db && ChecksPass(req) && req.idemKey.Some? && (id in db.jobs || OperationIndexBlocks(db, req))
      && (forall k :: k in db.jobs ==> !SameIdempotency(db.jobs[k], req))
    case ActiveOperation(k) => false
  }

  lemma IndexesKept(s: Sys, a: Action)
    requires Enabled(s, a) && Inv(s) && IndexesHold(s.db)
    ensures IndexesHold(Next(s, a).db)
  {
    var t := Next(s, a);
    forall j, k | j in t.db.jobs && k in t.db.jobs && SameRequestKey(t.db.jobs[j], t.db.jobs[k])
      ensures j == k
    {
      KeysAreOld(s, a, j);
      KeysAreOld(s, a, k);
    }
    forall j, k | j in t.db.jobs && k in t.db.jobs && RivalOperations(t.db.jobs[j], t.db.jobs[k])
      ensures j == k
    {
      KeysAreOld(s, a, j);
      KeysAreOld(s, a, k);
    }
  }

  /** A row is either new, and then the indexes let it in, or keeps its keys and does not come back to life. */
  lemma KeysAreOld(s: Sys, a: Action, j: JobId)
    requires Enabled(s, a) && Inv(s) && j in Next(s, a).db.jobs
    ensures j !in s.db.jobs ==> a.Enqueue? && a.id == j && Next(s, a).db.jobs[j] == NewRow(a.req, s.clock)
    ensures j in s.db.jobs ==>
              var r, r' := s.db.jobs[j], Next(s, a).db.jobs[j];
              && r'.idemKey == r.idemKey && r'.actor == r.actor && r'.jobType == r.jobType
              && r'.payload == r.payload && r'.lockKey == r.lockKey && (r.status.Terminal() ==> r' == r)
  {
    RowFootprint(s, a, j);
    ChangeJustified(s, a, j);
  }

  lemma {:induction false} IndexesAlways(s: Sys, run: seq<Action>)
    requires Valid(s, run) && Inv(s) && OneSlotPerWorker(s) && LeasesPositive(s) && IndexesHold(s.db)
    ensures IndexesHold(Exec(s, run).db)
    decreases |run|
  {
    if run != [] {
      InvKept(s, run[0]);
      IndexesKept(s, run[0]);
      IndexesAlways(Next(s, run[0]), run[1..]);
    }
  }

  lemma {:induction false} KeysForever(s: Sys, run: seq<Action>, j: JobId)
    requires Valid(s, run) && Inv(s) && OneSlotPerWorker(s) && LeasesPositive(s) && j in s.db.jobs
    ensures j in Exec(s, run).db.jobs
    ensures var r, r' := s.db.jobs[j], Exec(s, run).db.jobs[j];
            r'.idemKey == r.idemKey && r'.actor == r.actor && r'.jobType == r.jobType && r'.payload == r.payload && r'.lockKey == r.lockKey
    decreases |run|
  {
    if run != [] {
      RowFootprint(s, run[0], j);
      KeysAreOld(s, run[0], j);
      InvKept(s, run[0]);
      KeysForever(Next(s, run[0]), run[1..], j);
    }
  }

  /**
   Idempotency over runs: once a keyed request created a job, every later enqueue
   with the same actor, type and key adds nothing; it returns that job when the
   payload is the same and a conflict when it is not.
   */
  lemma ReplayReturnsFirstJob(s: Sys, before: seq<Action>, first: Action, after: seq<Action>,
                              db': Db, id: JobId, req: EnqueueRequest, now: Time, res: EnqueueResult)
    requires Fresh(s) && first.Enqueue? && first.req.idemKey.Some?
    requires Valid(s, before) && Enabled(Exec(s, before), first) && Valid(Next(Exec(s, before), first), after)
    requires req.idemKey == first.req.idemKey && req.actor == first.req.actor && req.jobType == first.req.jobType
    requires EnqueueOutcome(Exec(Next(Exec(s, before), first), after).db, db', id, req, now, res)
    ensures db' == Exec(Next(Exec(s, before), first), after).db
    ensures req.payload == first.req.payload ==> res.Replayed? && res.id == first.id
    ensures req.payload != first.req.payload ==> res == IdempotencyConflict
  {
    ReachableInv(s, before);
    var u := Exec(s, before);
    IndexesAlways(s, before) by { InvInit(s); }
    InvKept(u, first);
    IndexesKept(u, first);
    var t := Next(u, first);
    RowFootprint(u, first, first.id);
    KeysForever(t, after, first.id);
    IndexesAlways(t, after);
    OnlyFirst(Exec(t, after).db, first.id, db', id, req, now, res);
  }

  lemma OnlyFirst(db: Db, first: JobId, db': Db, id: JobId, req: EnqueueRequest, now: Time, res: EnqueueResult)
    requires IndexesHold(db) && first in db.jobs && SameIdempotency(db.jobs[first], req)
    requires EnqueueOutcome(db, db', id, req, now, res)
    ensures db' == db
    ensures req.payload == db.jobs[first].payload ==> res.Replayed? && res.id == first
    ensures req.payload != db.jobs[first].payload ==> res == IdempotencyConflict
  {
    assert forall k :: k in db.jobs && SameIdempotency(db.jobs[k], req) ==> SameRequestKey(db.jobs[first], db.jobs[k]);
  }

  /** In every reachable state at most one unfinished repository operation exists per lock key. */
  lemma OneActiveOperation(s: Sys, run: seq<Action>, j: JobId, k: JobId)
    requires Fresh(s) && Valid(s, run)
    requires j in Exec(s, run).db.jobs && k in Exec(s, run).db.jobs
    requires RivalOperations(Exec(s, run).db.jobs[j], Exec(s, run).db.jobs[k])
    ensures j == k
  {
    InvInit(s);
    IndexesAlways(s, run);
  }
}
