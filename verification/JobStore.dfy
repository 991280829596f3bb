/**
 The queue store: the tables as fields that each method rewrites in place. Every
 method is tied to the statement it runs (module JobTables); the read model of
 the workflows is refreshed after the write, and a refresh may fail without
 failing the call.
 */
module JobStore {
  import opened Common
  import opened JobTables
  import opened JobProtocol
  import opened WorkflowStatus
  import opened EnqueueRules
  import opened Retention
  import opened Ordering
  import opened Sums
  import opened ClaimFairness

  class Store {
    var jobs: map<JobId, Job>
    var locks: map<LockId, Lock>
    var events: seq<Event>
    var nextEvent: nat
    var workflows: map<int, Workflow>

    function Tables(): Db
      reads this
    {
      Db(jobs, locks, events, nextEvent)
    }

    ghost predicate Valid()
      reads this
    {
      DistinctIds(events) && forall e :: e in events ==> e.id < nextEvent
    }

    constructor ()
      ensures Valid() && Tables() == Db(map[], map[], [], 0) && workflows == map[]
    {
      jobs, locks, events, nextEvent, workflows := map[], map[], [], 0, map[];
    }

    method AddEvent(j: JobId, kind: EventKind, status: Status, worker: Option<WorkerId>, now: Time)
      requires Valid()
      modifies this`events, this`nextEvent
      ensures Valid() && Tables() == Logged(old(Tables()), j, kind, status, worker, now)
    {
      events := events + [Event(nextEvent, j, kind, status, worker, now)];
      nextEvent := nextEvent + 1;
    }

    // ---------------------------------------------------------- read model

    /** SELECT status, count(*) ... GROUP BY status. */
    method CountByStatus(g: int) returns (c: Counts)
      ensures c == CountsOf(jobs, g)
    {
      c := Counts(0, 0, 0, 0, 0);
      var todo := jobs.Keys;
      NothingCounted(jobs, g);
      while todo != {}
        invariant todo <= jobs.Keys && c == Counted(jobs, g, todo)
        decreases |todo|
      {
        SomeMember(todo);
        var j :| j in todo;
        CountOne(jobs, g, todo, j);
        if jobs[j].group == g { c := OneMore(c, jobs[j].status); }
        todo := todo - {j};
      }
      AllCounted(jobs, g);
    }

    method SummaryRow(g: int) returns (row: Option<Workflow>)
      ensures row == if Members(jobs, g) == {} then None else Some(Summary(jobs, g))
    {
      var c := CountByStatus(g);
      TotalZeroIff(jobs, g);
      return if c.Total() == 0 then None else Some(Workflow(AggregateStatus(c, c.Total()), c.Done(), c.Total()));
    }

    /** Recomputes the row of one group; `ok` is whether the database lets it. */
    method RefreshWorkflowStatus(g: int, ok: bool)
      modifies this`workflows
      ensures !ok || Members(jobs, g) == {} ==> workflows == old(workflows)
      ensures ok && Members(jobs, g) != {} ==> workflows == old(workflows)[g := Summary(jobs, g)]
    {
      var row := SummaryRow(g);
      if row.Some? && ok { workflows := workflows[g := row.value]; }
    }

    /** DISTINCT job_group_id > after ORDER BY job_group_id LIMIT limit. */
    method WorkflowGroupsPage(after: Option<int>, limit: nat) returns (page: seq<int>)
      requires limit >= 1
      ensures GroupsPage(jobs, after, limit, page)
    {
      var groups := map j | j in jobs && (after.Some? ==> jobs[j].group > after.value) :: jobs[j].group := 0;
      page := SelectOrdered(groups, limit);
      forall g | Members(jobs, g) != {} && (after.Some? ==> g > after.value) ensures g in groups {
        SomeMember(Members(jobs, g));
        var j :| j in Members(jobs, g);
      }
      forall g | g in page ensures Members(jobs, g) != {} {
        assert g in groups;
        var j :| j in jobs && jobs[j].group == g;
        assert j in Members(jobs, g);
      }
      forall g | g in groups && g !in page ensures |page| == limit && page[limit - 1] < g {
        if |page| < limit { OrderedIsAll(groups, page); }
        assert Before(groups, page[limit - 1], g);
      }
      forall i, k | 0 <= i < k < |page| ensures page[i] < page[k] { assert Before(groups, page[i], page[k]); }
    }

    /** Rebuilds every group, page by page, when no statement fails. */
    method ReconcileWorkflowStatuses(limit: nat)
      requires limit >= 1
      modifies this`workflows
      ensures Agrees(jobs, workflows)
      ensures forall g :: Members(jobs, g) == {} ==> (g in workflows <==> g in old(workflows)) && (g in workflows ==> workflows[g] == old(workflows)[g])
    {
      var after: Option<int> := None;
      ghost var behind := jobs.Keys;
      while true
        invariant forall g :: Members(jobs, g) != {} && after.Some? && g <= after.value ==> g in workflows && workflows[g] == Summary(jobs, g)
        invariant forall g :: Members(jobs, g) == {} ==> (g in workflows <==> g in old(workflows)) && (g in workflows ==> workflows[g] == old(workflows)[g])
        invariant behind == set j | j in jobs && (after.Some? ==> jobs[j].group > after.value)
        decreases |behind|
      {
        var page := WorkflowGroupsPage(after, limit);
        var i := 0;
        while i < |page|
          invariant 0 <= i <= |page|
          invariant forall g :: Members(jobs, g) != {} && after.Some? && g <= after.value ==> g in workflows && workflows[g] == Summary(jobs, g)
          invariant forall k :: 0 <= k < i ==> page[k] in workflows && workflows[page[k]] == Summary(jobs, page[k])
          invariant forall g :: Members(jobs, g) == {} ==> (g in workflows <==> g in old(workflows)) && (g in workflows ==> workflows[g] == old(workflows)[g])
        {
          assert page[i] in page;
          RefreshWorkflowStatus(page[i], true);
          i := i + 1;
        }
        forall g | Members(jobs, g) != {} && (|page| < limit || g <= page[|page| - 1]) ensures g in workflows && workflows[g] == Summary(jobs, g) {
          if g in page { var k :| 0 <= k < |page| && page[k] == g; }
        }
        if |page| < limit { break; }
        ghost var before := behind;
        var last := page[|page| - 1];
        assert last in page;
        after := Some(last);
        behind := set j | j in jobs && jobs[j].group > last;
        SomeMember(Members(jobs, last));
        ghost var j :| j in Members(jobs, last);
        assert j in before && j !in behind && behind <= before;
        FewerRows(behind, before, j);
      }
      forall j | j in jobs ensures jobs[j].group in workflows && workflows[jobs[j].group] == Summary(jobs, jobs[j].group) {
        assert j in Members(jobs, jobs[j].group);
      }
    }

    // ------------------------------------------------------------- enqueue

    method FindByIdempotency(req: EnqueueRequest) returns (k: Option<JobId>)
      ensures k.Some? ==> k.value in jobs && SameIdempotency(jobs[k.value], req)
      ensures k.None? ==> forall x :: x in jobs ==> !SameIdempotency(jobs[x], req)
    {
      var hits := set x | x in jobs && SameIdempotency(jobs[x], req);
      if hits == {} {
        forall x | x in jobs ensures !SameIdempotency(jobs[x], req) { assert x !in hits; }
        return None;
      }
      SomeMember(hits);
      var x :| x in hits;
      return Some(x);
    }

    /** The oldest unfinished job of a type set on a lock key. */
    method FindActiveOperation(key: int) returns (k: Option<JobId>)
      ensures k.Some? ==> k.value in jobs && ActiveOperationOn(jobs[k.value], key)
      ensures k.Some? ==> forall x :: x in jobs && ActiveOperationOn(jobs[x], key) ==> NoLater(jobs, k.value, x)
      ensures k.None? ==> forall x :: x in jobs ==> !ActiveOperationOn(jobs[x], key)
    {
      var created := map x | x in jobs && ActiveOperationOn(jobs[x], key) :: jobs[x].createdAt;
      var hits := SelectOrdered(created, 1);
      if hits == [] {
        OrderedIsAll(created, hits);
        forall x | x in jobs ensures !ActiveOperationOn(jobs[x], key) { assert x !in created; }
        return None;
      }
      var first := hits[0];
      assert first in created;
      forall x | x in jobs && ActiveOperationOn(jobs[x], key) ensures NoLater(jobs, first, x) {
        assert x in created;
        if x != first { assert Before(created, hits[0], x); }
      }
      return Some(first);
    }

    method Enqueue(id: JobId, req: EnqueueRequest, now: Time, refresh: bool) returns (res: EnqueueResult)
      requires Valid()
      modifies this
      ensures Valid() && EnqueueOutcome(old(Tables()), Tables(), id, req, now, res)
      ensures res.Replayed? || res.IdempotencyConflict? <==> exists k :: k in old(jobs) && KeyedAs(old(jobs)[k], req)
      ensures res.Replayed? ==> res.id in jobs && KeyedAs(jobs[res.id], req) && jobs[res.id].payload == req.payload && res.status == jobs[res.id].status
      ensures res.Enqueued? <==>
                && (forall k :: k in old(jobs) ==> !KeyedAs(old(jobs)[k], req)) && req.maxAttempts >= 0 && req.priority >= 0 && id !in old(jobs)
                && !(req.jobType in {RepoClone, RepoPull, RepoSync} && req.lockKey.Some? && exists k :: k in old(jobs) && OperatesOn(old(jobs)[k], req.lockKey.value))
      ensures !res.Enqueued? ==> Tables() == old(Tables())
      ensures res.Enqueued? ==> id !in old(jobs) && id in jobs && QueuedAs(jobs[id], req, now)
      ensures res.Enqueued? ==> forall k :: k in old(jobs) ==> k in jobs && jobs[k] == old(jobs)[k]
      ensures res.Enqueued? ==> events == old(events) + [Event(old(nextEvent), id, EvQueued, Queued, None, now)]
      ensures refresh && Agrees(old(jobs), old(workflows)) ==> Agrees(jobs, workflows)
    {
      var replay := FindByIdempotency(req);
      if replay.Some? {
        var k := replay.value;
        assert k in Tables().jobs && SameIdempotency(Tables().jobs[k], req);
        if jobs[k].payload != req.payload { return IdempotencyConflict; }
        return Replayed(k, jobs[k].status);
      }
      if !ChecksPass(req) { return CheckViolation; }
      var blocking: Option<JobId> := None;
      if req.jobType.RepositoryOperation() && req.lockKey.Some? { blocking := FindActiveOperation(req.lockKey.value); }
      if id in jobs || blocking.Some? {
        if blocking.Some? {
          ghost var k := blocking.value;
          assert k in Tables().jobs && ActiveOperationOn(Tables().jobs[k], req.lockKey.value);
        }
        if req.idemKey.Some? { return JobNotFound; }
        return UniqueViolation;
      }
      jobs := jobs[id := NewRow(req, now)];
      AddEvent(id, EvQueued, Queued, None, now);
      RefreshWorkflowStatus(req.group, refresh);
      OneRowAgrees(old(jobs), jobs, id, old(workflows));
      return Enqueued(id);
    }

    /** A blocked repository operation is answered with the job that blocks it. */
    method EnqueueRepositoryOperation(id: JobId, req: EnqueueRequest, now: Time, refresh: bool) returns (res: EnqueueResult)
      requires Valid()
      requires req.jobType.RepositoryOperation() && req.lockKey.Some? && id !in jobs
      modifies this
      ensures Valid()
      ensures match res
              case ActiveOperation(k) =>
                && Tables() == old(Tables()) && req.idemKey.None? && ChecksPass(req)
                && k in jobs && ActiveOperationOn(jobs[k], req.lockKey.value)
                && (forall x :: x in jobs && ActiveOperationOn(jobs[x], req.lockKey.value) ==> jobs[k].createdAt <= jobs[x].createdAt)
              case UniqueViolation => false
              case _ => EnqueueOutcome(old(Tables()), Tables(), id, req, now, res)
      ensures res.Enqueued? ==> forall k :: k in jobs && ActiveOperationOn(jobs[k], req.lockKey.value) ==> k == id
      ensures res.Enqueued? <==>
                && req.maxAttempts >= 0 && req.priority >= 0
                && forall k :: k in old(jobs) ==> !KeyedAs(old(jobs)[k], req) && !OperatesOn(old(jobs)[k], req.lockKey.value)
    {
      res := Enqueue(id, req, now, refresh);
      if res.UniqueViolation? {
        var active := FindActiveOperation(req.lockKey.value);
        return ActiveOperation(active.value);
      }
      if res.Enqueued? { ghost var blocked := OperationIndexBlocks(old(Tables()), req); }
    }

    /** The oldest unfinished job of the type on the lock key. */
    method FindActiveByLock(jobType: JobType, key: int) returns (k: Option<JobId>)
      ensures k.Some? ==> k.value in jobs && UnfinishedOn(jobs[k.value], jobType, key)
      ensures k.Some? ==> forall x :: x in jobs && UnfinishedOn(jobs[x], jobType, key) ==> NoLater(jobs, k.value, x)
      ensures k.None? ==> forall x :: x in jobs ==> !UnfinishedOn(jobs[x], jobType, key)
      ensures k.Some? ==> WaitsOn(jobs[k.value], jobType, key)
      ensures k.Some? <==> exists x :: x in jobs && WaitsOn(jobs[x], jobType, key)
    {
      var created := map x | x in jobs && UnfinishedOn(jobs[x], jobType, key) :: jobs[x].createdAt;
      var hits := SelectOrdered(created, 1);
      if hits == [] {
        OrderedIsAll(created, hits);
        forall x | x in jobs ensures !UnfinishedOn(jobs[x], jobType, key) { assert x !in created; }
        return None;
      }
      var first := hits[0];
      assert first in created;
      forall x | x in jobs && UnfinishedOn(jobs[x], jobType, key) ensures NoLater(jobs, first, x) {
        assert x in created;
        if x != first { assert Before(created, hits[0], x); }
      }
      return Some(first);
    }

    /** With a lock key, the oldest unfinished job of the same type and key is returned instead of a new one. */
    method EnqueueIfNoActive(id: JobId, req: EnqueueRequest, now: Time, refresh: bool) returns (res: EnqueueResult, created: bool)
      requires Valid()
      modifies this
      ensures Valid()
      ensures var waiting := req.lockKey.Some? && exists x :: x in old(jobs) && UnfinishedOn(old(jobs)[x], req.jobType, req.lockKey.value);
              if waiting then
                !created && Tables() == old(Tables()) && res.Replayed? && res.id in jobs && res.status == jobs[res.id].status
                && UnfinishedOn(jobs[res.id], req.jobType, req.lockKey.value)
                && forall x :: x in jobs && UnfinishedOn(jobs[x], req.jobType, req.lockKey.value) ==> NoLater(jobs, res.id, x)
              else
                EnqueueOutcome(old(Tables()), Tables(), id, req, now, res)
                && created == (res.Enqueued? || res.Replayed? || req.lockKey.None?)
    {
      if req.lockKey.Some? {
        var active := FindActiveByLock(req.jobType, req.lockKey.value);
        if active.Some? { return Replayed(active.value, jobs[active.value].status), false; }
      }
      res := Enqueue(id, req, now, refresh);
      created := res.Enqueued? || res.Replayed? || req.lockKey.None?;
    }

    // --------------------------------------------------------------- claim

    method SelectCandidate(now: Time) returns (job: Option<JobId>)
      ensures job.None? ==> forall j :: j in jobs ==> !Eligible(jobs[j], now)
      ensures job.Some? ==> Candidate(Tables(), job.value, now)
      ensures job.None? <==> forall j :: j in jobs ==> !(jobs[j].status == Queued && jobs[j].runAfter <= now && jobs[j].attempts < jobs[j].maxAttempts)
      ensures job.Some? ==> FirstDue(jobs, job.value, now)
    {
      job := None;
      var todo := jobs.Keys;
      while todo != {}
        invariant todo <= jobs.Keys
        invariant job.Some? ==> job.value in jobs && Eligible(jobs[job.value], now)
        invariant forall k :: k in jobs && k !in todo && Eligible(jobs[k], now) ==> job.Some? && ClaimBefore(jobs[job.value], jobs[k])
        decreases |todo|
      {
        SomeMember(todo);
        var k :| k in todo;
        if Eligible(jobs[k], now) && (job.None? || !ClaimBefore(jobs[job.value], jobs[k])) { job := Some(k); }
        todo := todo - {k};
      }
    }

    method ClaimNext(w: WorkerId, now: Time, lease: Time, refresh: bool) returns (job: Option<JobId>)
      requires Valid()
      modifies this
      ensures Valid() && locks == old(locks)
      ensures job.None? ==> Tables() == old(Tables()) && forall j :: j in jobs ==> !Eligible(jobs[j], now)
      ensures job.Some? ==> Candidate(old(Tables()), job.value, now)
      ensures job.None? <==>
                forall j :: j in old(jobs) ==>
                  !(old(jobs)[j].status == Queued && old(jobs)[j].runAfter <= now && old(jobs)[j].attempts < old(jobs)[j].maxAttempts)
      ensures job.Some? ==> FirstDue(old(jobs), job.value, now)
      ensures job.Some? ==> TakenBy(old(jobs), jobs, job.value, w, now + if lease <= 0 then 30 * SECOND else lease)
      ensures job.Some? ==> Tables() == Claimed(old(Tables()), job.value, w, now, if lease <= 0 then 30 * SECOND else lease)
      ensures refresh && Agrees(old(jobs), old(workflows)) ==> Agrees(jobs, workflows)
    {
      job := SelectCandidate(now);
      if job.None? { return; }
      var id := job.value;
      jobs := jobs[id := ClaimedRow(jobs[id], w, now, if lease <= 0 then 30 * SECOND else lease)];
      AddEvent(id, EvClaimed, Running, Some(w), now);
      RefreshWorkflowStatus(jobs[id].group, refresh);
      OneRowAgrees(old(jobs), jobs, id, old(workflows));
    }

    // ----------------------------------------------- writes under the lease

    method Start(j: JobId, w: WorkerId, now: Time, refresh: bool) returns (ok: bool)
      requires Valid()
      modifies this
      ensures Valid() && ok == Owns(old(Tables()), j, w) && Tables() == Started(old(Tables()), j, w, now)
      ensures ok <==> Leased(old(jobs), j, w)
      ensures ok ==> OnlyRow(old(jobs), jobs, j) && jobs[j].startedAt == (if old(jobs)[j].startedAt.None? then Some(now) else old(jobs)[j].startedAt)
      ensures ok ==> jobs[j] == old(jobs)[j].(startedAt := jobs[j].startedAt) && locks == old(locks)
      ensures ok ==> events == old(events) + [Event(old(nextEvent), j, EvStarted, Running, Some(w), now)]
      ensures !ok ==> Tables() == old(Tables())
      ensures refresh && Agrees(old(jobs), old(workflows)) ==> Agrees(jobs, workflows)
    {
      if !Owns(Tables(), j, w) { return false; }
      jobs := jobs[j := StartedRow(jobs[j], now)];
      AddEvent(j, EvStarted, Running, Some(w), now);
      RefreshWorkflowStatus(jobs[j].group, refresh);
      OneRowAgrees(old(jobs), jobs, j, old(workflows));
      return true;
    }

    /** Two statements: the lease of the row first, then the locks of the owner. */
    method Heartbeat(j: JobId, w: WorkerId, now: Time, lease: Time)
      modifies this`jobs, this`locks
      ensures jobs == LeaseRenewed(old(Tables()), j, w, now + lease).jobs
      ensures locks == if Owns(old(Tables()), j, w) then LocksExtended(old(locks), j, w, now + lease) else old(locks)
      ensures Leased(old(jobs), j, w) ==> OnlyRow(old(jobs), jobs, j) && jobs[j] == old(jobs)[j].(leaseExpires := Some(now + lease))
      ensures Leased(old(jobs), j, w) ==> locks.Keys == old(locks).Keys && forall l :: l in locks ==>
                locks[l] == if IsHeld(old(locks)[l], j, w) then old(locks)[l].(expiresAt := now + lease) else old(locks)[l]
      ensures !Leased(old(jobs), j, w) ==> jobs == old(jobs) && locks == old(locks)
    {
      if !Owns(Tables(), j, w) { return; }
      jobs := jobs[j := jobs[j].(leaseExpires := Some(now + lease))];
      ExtendLocks(j, w, now + lease);
    }

    method ExtendLocks(j: JobId, w: WorkerId, expires: Time)
      modifies this`locks
      ensures locks == LocksExtended(old(locks), j, w, expires)
    {
      locks := LocksExtended(locks, j, w, expires);
    }

    method ExpireLocks(now: Time)
      modifies this`locks
      ensures locks == LocksExpired(old(locks), now)
      ensures locks.Keys == old(locks).Keys && forall l :: l in locks ==>
                locks[l] == if old(locks)[l].status == Held && old(locks)[l].expiresAt <= now then old(locks)[l].(status := Expired) else old(locks)[l]
    {
      locks := LocksExpired(locks, now);
    }

    /** Expires what is over, then inserts; the unique index on held keys answers "not locked". */
    method AcquireLock(id: LockId, j: JobId, key: Option<int>, w: WorkerId, now: Time, lease: Time) returns (locked: bool)
      requires id !in locks
      modifies this`locks
      ensures key.None? ==> locked && locks == old(locks)
      ensures key.Some? ==>
                var db := old(Tables()).(locks := LocksExpired(old(locks), now));
                && (locked <==> !KeyHeld(db, key.value))
                && Tables() == if locked then LockInserted(db, id, key.value, j, w, now, lease) else db
      ensures key.Some? ==>
                (locked <==> forall l :: l in old(locks) ==>
                   !(old(locks)[l].key == key.value && old(locks)[l].status == Held && old(locks)[l].expiresAt > now))
      ensures key.Some? && locked ==> id in locks && locks[id] == Lock(key.value, j, w, Held, now, now + lease, None)
    {
      if key.None? { return true; }
      ExpireLocks(now);
      if l :| l in locks && HeldOn(locks[l], key.value) {
        assert KeyHeld(Tables(), key.value);
        return false;
      }
      locks := locks[id := Lock(key.value, j, w, Held, now, now + lease, None)];
      return true;
    }

    method Complete(j: JobId, w: WorkerId, status: Status, now: Time, refresh: bool) returns (ok: bool)
      requires Valid()
      modifies this
      ensures Valid() && ok == Owns(old(Tables()), j, w) && Tables() == Completed(old(Tables()), j, w, status, now)
      ensures ok <==> Leased(old(jobs), j, w)
      ensures ok ==> OnlyRow(old(jobs), jobs, j) && jobs[j] == old(jobs)[j].(status := status, finishedAt := Some(now))
      ensures ok ==> GivesBack(old(locks), locks, j, w, now)
      ensures ok ==> |events| == |old(events)| + 1 && events[..|old(events)|] == old(events)
      ensures ok && status != Queued ==> EndEvent(events[|old(events)|], j, status, w, now)
      ensures !ok ==> Tables() == old(Tables())
      ensures refresh && Agrees(old(jobs), old(workflows)) ==> Agrees(jobs, workflows)
    {
      if !Owns(Tables(), j, w) { return false; }
      jobs := jobs[j := FinishedRow(jobs[j], status, now)];
      locks := LocksReleased(locks, j, w, now);
      AddEvent(j, TerminalEvent(status), status, Some(w), now);
      RefreshWorkflowStatus(jobs[j].group, refresh);
      OneRowAgrees(old(jobs), jobs, j, old(workflows));
      return true;
    }

    method Requeue(j: JobId, w: WorkerId, runAfter: Time, now: Time, refresh: bool) returns (ok: bool)
      requires Valid()
      modifies this
      ensures Valid() && ok == Owns(old(Tables()), j, w) && Tables() == Requeued(old(Tables()), j, w, runAfter, now)
      ensures ok <==> Leased(old(jobs), j, w)
      ensures ok ==> OnlyRow(old(jobs), jobs, j)
      ensures ok ==> jobs[j] == old(jobs)[j].(status := Queued, leasedBy := None, leaseExpires := None, runAfter := runAfter)
      ensures ok ==> GivesBack(old(locks), locks, j, w, now)
      ensures ok ==> |events| == |old(events)| + 1 && events[..|old(events)|] == old(events)
      ensures ok ==> EndEvent(events[|old(events)|], j, Queued, w, now)
      ensures !ok ==> Tables() == old(Tables())
      ensures refresh && Agrees(old(jobs), old(workflows)) ==> Agrees(jobs, workflows)
    {
      if !Owns(Tables(), j, w) { return false; }
      jobs := jobs[j := RequeuedRow(jobs[j], runAfter)];
      locks := LocksReleased(locks, j, w, now);
      AddEvent(j, EvRetryScheduled, Queued, Some(w), now);
      RefreshWorkflowStatus(jobs[j].group, refresh);
      OneRowAgrees(old(jobs), jobs, j, old(workflows));
      return true;
    }

    // ----------------------------------------------------------- retention

    /** The oldest entries of a table of ages. */
    method SelectOldest(age: map<nat, Time>, batch: nat) returns (doomed: set<nat>)
      ensures doomed <= age.Keys && |doomed| == if |age| <= batch then |age| else batch
      ensures forall x, y :: x in doomed && y in age && y !in doomed ==> age[x] < age[y] || (age[x] == age[y] && x < y)
    {
      var ids := SelectOrdered(age, batch);
      OrderedCount(age, ids);
      doomed := set i | 0 <= i < |ids| && ids[i] in age :: ids[i];
      assert doomed == set x | x in ids;
      forall x, y | x in doomed && y in age && y !in doomed ensures age[x] < age[y] || (age[x] == age[y] && x < y) {
        var i :| 0 <= i < |ids| && ids[i] == x;
        assert Before(age, ids[i], y);
      }
    }

    /** The oldest stale events, at most `batch` of them. */
    method SelectStaleEvents(cutoff: Time, batch: nat) returns (doomed: set<nat>)
      requires DistinctIds(events)
      ensures doomed <= StaleEvents(events, jobs, cutoff)
      ensures |doomed| == if |StaleEvents(events, jobs, cutoff)| <= batch then |StaleEvents(events, jobs, cutoff)| else batch
      ensures OldestEvents(events, jobs, cutoff, doomed)
    {
      var age := map i | 0 <= i < |events| && StaleEvent(events[i], jobs, cutoff) :: events[i].id := events[i].createdAt;
      assert age.Keys == StaleEvents(events, jobs, cutoff);
      doomed := SelectOldest(age, batch);
      AgesAreOldest(events, jobs, cutoff, age, doomed);
    }

    method CleanupEventsBatch(cutoff: Time, batch: nat) returns (deleted: nat, ghost gone: set<nat>)
      requires Valid()
      modifies this`events
      ensures Valid() && events == Without(old(events), gone) && gone <= StaleEvents(old(events), jobs, cutoff)
      ensures deleted == |gone| == if |StaleEvents(old(events), jobs, cutoff)| <= batch then |StaleEvents(old(events), jobs, cutoff)| else batch
      ensures OldestEvents(old(events), jobs, cutoff, gone)
    {
      var doomed := SelectStaleEvents(cutoff, batch);
      WithoutLength(events, doomed) by { StaleAreIds(events, jobs, cutoff); }
      WithoutDistinct(events, doomed);
      WithoutSubset(events, doomed);
      var before := |events|;
      events := Without(events, doomed);
      deleted, gone := before - |events|, doomed;
    }

    method SelectStaleLocks(cutoff: Time, batch: nat) returns (doomed: set<LockId>)
      ensures doomed <= StaleLocks(locks, cutoff)
      ensures |doomed| == if |StaleLocks(locks, cutoff)| <= batch then |StaleLocks(locks, cutoff)| else batch
      ensures OldestLocks(locks, cutoff, doomed)
    {
      var age := map l | l in locks && StaleLock(locks[l], cutoff) :: LockAge(locks[l]);
      assert age.Keys == StaleLocks(locks, cutoff);
      var ids := SelectOrdered(age, batch);
      OrderedCount(age, ids);
      doomed := set x | x in ids;
      forall l, m | l in doomed && m in StaleLocks(locks, cutoff) && m !in doomed
        ensures LockAge(locks[l]) < LockAge(locks[m]) || (LockAge(locks[l]) == LockAge(locks[m]) && l < m)
      {
        var i :| 0 <= i < |ids| && ids[i] == l;
        assert Before(age, ids[i], m);
      }
    }

    method CleanupLocksBatch(cutoff: Time, batch: nat) returns (deleted: nat, ghost gone: set<LockId>)
      modifies this`locks
      ensures locks == LocksDeleted(old(Tables()), gone).locks && gone <= StaleLocks(old(locks), cutoff)
      ensures deleted == |gone| == if |StaleLocks(old(locks), cutoff)| <= batch then |StaleLocks(old(locks), cutoff)| else batch
      ensures OldestLocks(old(locks), cutoff, gone)
    {
      var doomed := SelectStaleLocks(cutoff, batch);
      var kept := map l | l in locks && l !in doomed :: locks[l];
      assert locks.Keys == kept.Keys + doomed;
      deleted, gone := |locks| - |kept|, doomed;
      locks := kept;
    }

    /**
     Deletes batch after batch until one comes back short: exactly the stale
     events and locks go, and the counts returned are exact, for any batch size.
     */
    method CleanupRetention(cutoff: Time, batch: nat) returns (deletedEvents: nat, deletedLocks: nat)
      requires Valid() && batch >= 1
      modifies this`events, this`locks
      ensures Valid()
      ensures Tables() == LocksDeleted(EventsDeleted(old(Tables()), StaleEvents(old(events), jobs, cutoff)), StaleLocks(old(locks), cutoff))
      ensures deletedEvents == |StaleEvents(old(events), jobs, cutoff)|
      ensures deletedLocks == |StaleLocks(old(locks), cutoff)|
      ensures forall e :: e in events <==>
                e in old(events) && !(e.createdAt < cutoff && e.job in jobs && jobs[e.job].status in {Succeeded, Failed, Cancelled})
      ensures forall l :: l in locks <==>
                l in old(locks) && (old(locks)[l].status == Held ||
                  (if old(locks)[l].releasedAt.Some? then old(locks)[l].releasedAt.value else old(locks)[l].expiresAt) >= cutoff)
      ensures forall l :: l in locks ==> locks[l] == old(locks)[l]
    {
      StaleRemovedExactly(events, jobs, cutoff);
      deletedEvents := CleanupAllEvents(cutoff, batch);
      deletedLocks := CleanupAllLocks(cutoff, batch);
    }

    method CleanupAllEvents(cutoff: Time, batch: nat) returns (total: nat)
      requires Valid() && batch >= 1
      modifies this`events
      ensures Valid() && events == Without(old(events), StaleEvents(old(events), jobs, cutoff))
      ensures total == |StaleEvents(old(events), jobs, cutoff)|
    {
      total := 0;
      ghost var all := StaleEvents(events, jobs, cutoff);
      ghost var gone: set<nat> := {};
      var deleted := batch;
      WithoutNone(events);
      while deleted >= batch
        invariant Valid() && gone <= all && events == Without(old(events), gone) && total == |gone|
        invariant all - gone == StaleEvents(events, jobs, cutoff)
        invariant deleted < batch ==> gone == all
        decreases |all - gone| + if deleted >= batch then 1 else 0
      {
        ghost var g;
        deleted, g := CleanupEventsBatch(cutoff, batch);
        total := total + deleted;
        WithoutTwice(old(events), gone, g);
        assert gone !! g;
        Joined(gone, g, all);
        gone := gone + g;
        StaleLeft(old(events), jobs, cutoff, gone);
      }
    }

    method CleanupAllLocks(cutoff: Time, batch: nat) returns (total: nat)
      requires batch >= 1
      modifies this`locks
      ensures locks == LocksDeleted(old(Tables()), StaleLocks(old(locks), cutoff)).locks
      ensures total == |StaleLocks(old(locks), cutoff)|
    {
      total := 0;
      ghost var all := StaleLocks(locks, cutoff);
      ghost var gone: set<LockId> := {};
      var deleted := batch;
      while deleted >= batch
        invariant gone <= all && locks == LocksDeleted(old(Tables()), gone).locks && total == |gone|
        invariant all - gone == StaleLocks(locks, cutoff)
        invariant deleted < batch ==> gone == all
        decreases |all - gone| + if deleted >= batch then 1 else 0
      {
        ghost var g;
        deleted, g := CleanupLocksBatch(cutoff, batch);
        total := total + deleted;
        Joined(gone, g, all);
        LocksDeletedTwice(old(Tables()), gone, g, cutoff);
        gone := gone + g;
      }
    }
  }

  // ------------- the contracts in terms of columns, apart from the statements' own functions

  /** The request repeats the one that made the row: same key, actor and type. */
  predicate KeyedAs(r: Job, req: EnqueueRequest) {
    req.idemKey.Some? && r.idemKey == req.idemKey && r.actor == req.actor && r.jobType == req.jobType
  }

  /** The row is an unfinished repository operation on the key. */
  predicate OperatesOn(r: Job, key: int) {
    r.jobType in {RepoClone, RepoPull, RepoSync} && r.lockKey == Some(key) && r.status in {Queued, Running}
  }

  /** The row is a queued or running job of the type on the key. */
  predicate WaitsOn(r: Job, jobType: JobType, key: int) {
    r.jobType == jobType && r.lockKey == Some(key) && r.status in {Queued, Running}
  }

  /** The job runs under a lease of the worker. */
  predicate Leased(jobs: map<JobId, Job>, j: JobId, w: WorkerId) {
    j in jobs && jobs[j].status == Running && jobs[j].leasedBy == Some(w)
  }

  /** Job j is there before and after, and no other row has changed. */
  ghost predicate OnlyRow(jobs: map<JobId, Job>, jobs': map<JobId, Job>, j: JobId) {
    j in jobs && jobs'.Keys == jobs.Keys && forall k :: k in jobs && k != j ==> jobs'[k] == jobs[k]
  }

  predicate IsHeld(l: Lock, j: JobId, w: WorkerId) { l.status == Held && l.job == j && l.owner == w }

  /** Exactly the locks the worker holds for the job are released, now. */
  ghost predicate GivesBack(locks: map<LockId, Lock>, locks': map<LockId, Lock>, j: JobId, w: WorkerId, now: Time) {
    locks'.Keys == locks.Keys && forall l :: l in locks ==>
      locks'[l] == if IsHeld(locks[l], j, w) then locks[l].(status := Released, releasedAt := Some(now)) else locks[l]
  }

  /** The event of a pass that ends: its kind tells the status the job was left in. */
  predicate EndEvent(e: Event, j: JobId, status: Status, w: WorkerId, now: Time) {
    && e.job == j && e.status == status && e.worker == Some(w) && e.createdAt == now
    && (status == Succeeded ==> e.kind == EvSucceeded) && (status == Failed ==> e.kind == EvFailed)
    && (status == Cancelled ==> e.kind == EvCancelled) && (status == Queued ==> e.kind == EvRetryScheduled)
  }

  /** A row as the request asks for it: never leased, never tried, with three attempts and due at once unless it says otherwise. */
  predicate QueuedAs(r: Job, req: EnqueueRequest, now: Time) {
    && r.status == Queued && r.attempts == 0 && r.createdAt == now
    && r.leasedBy == None && r.leaseExpires == None && r.startedAt == None && r.finishedAt == None
    && r.jobType == req.jobType && r.actor == req.actor && r.idemKey == req.idemKey && r.payload == req.payload
    && r.group == req.group && r.lockKey == req.lockKey && r.priority == req.priority
    && (req.maxAttempts > 0 ==> r.maxAttempts == req.maxAttempts) && (req.maxAttempts == 0 ==> r.maxAttempts == 3)
    && (req.runAfter.Some? ==> r.runAfter == req.runAfter.value) && (req.runAfter.None? ==> r.runAfter == now)
  }

  /**
   The job is due, and every other job that is due has a later run_after, or the
   same and no higher priority, or the same of both and was created no earlier.
   */
  ghost predicate FirstDue(jobs: map<JobId, Job>, j: JobId, now: Time) {
    && j in jobs && jobs[j].status == Queued && jobs[j].runAfter <= now && jobs[j].attempts < jobs[j].maxAttempts
    && forall k :: k in jobs && k != j && jobs[k].status == Queued && jobs[k].runAfter <= now && jobs[k].attempts < jobs[k].maxAttempts ==>
         || jobs[k].runAfter > jobs[j].runAfter
         || (jobs[k].runAfter == jobs[j].runAfter && jobs[k].priority < jobs[j].priority)
         || (jobs[k].runAfter == jobs[j].runAfter && jobs[k].priority == jobs[j].priority && jobs[k].createdAt >= jobs[j].createdAt)
  }

  /** The worker holds the job until the given time, with one attempt more; nothing else of it has changed, and no other job. */
  ghost predicate TakenBy(jobs: map<JobId, Job>, jobs': map<JobId, Job>, j: JobId, w: WorkerId, until: Time) {
    && j in jobs && jobs'.Keys == jobs.Keys && (forall k :: k in jobs && k != j ==> jobs'[k] == jobs[k])
    && jobs'[j].status == Running && jobs'[j].leasedBy == Some(w) && jobs'[j].leaseExpires == Some(until)
    && jobs'[j].attempts == jobs[j].attempts + 1
    && jobs'[j] == jobs[j].(status := jobs'[j].status, leasedBy := jobs'[j].leasedBy, leaseExpires := jobs'[j].leaseExpires, attempts := jobs'[j].attempts)
  }

  /** ORDER BY created_at ASC, id ASC: job k does not come after job x. */
  predicate NoLater(jobs: map<JobId, Job>, k: JobId, x: JobId)
    requires k in jobs && x in jobs
  {
    jobs[k].createdAt < jobs[x].createdAt || (jobs[k].createdAt == jobs[x].createdAt && k <= x)
  }

  /** What is oldest by a table of the ages of stale events is oldest among the events. */
  lemma AgesAreOldest(events: seq<Event>, jobs: map<JobId, Job>, cutoff: Time, age: map<nat, Time>, doomed: set<nat>)
    requires DistinctIds(events) && age.Keys == StaleEvents(events, jobs, cutoff) && doomed <= age.Keys
    requires forall i :: 0 <= i < |events| && StaleEvent(events[i], jobs, cutoff) ==> events[i].id in age && age[events[i].id] == events[i].createdAt
    requires forall x, y :: x in doomed && y in age && y !in doomed ==> age[x] < age[y] || (age[x] == age[y] && x < y)
    ensures OldestEvents(events, jobs, cutoff, doomed)
  {
    forall e, f | e in events && e.id in doomed && f in events && StaleEvent(f, jobs, cutoff) && f.id !in doomed
      ensures e.createdAt < f.createdAt || (e.createdAt == f.createdAt && e.id < f.id)
    {
      AgeOfEvent(events, jobs, cutoff, age, e);
      AgeOfEvent(events, jobs, cutoff, age, f);
    }
  }

  lemma LocksDeletedTwice(db: Db, gone: set<LockId>, more: set<LockId>, cutoff: Time)
    ensures LocksDeleted(LocksDeleted(db, gone), more).locks == LocksDeleted(db, gone + more).locks
    ensures StaleLocks(LocksDeleted(db, gone + more).locks, cutoff) == StaleLocks(db.locks, cutoff) - (gone + more)
  {
  }

  lemma TotalZeroIff(jobs: map<JobId, Job>, g: int)
    ensures CountsOf(jobs, g).Total() == 0 <==> Members(jobs, g) == {}
  {
    Partition(jobs, g);
  }

  lemma StaleAreIds(events: seq<Event>, jobs: map<JobId, Job>, cutoff: Time)
    ensures StaleEvents(events, jobs, cutoff) <= Ids(events)
  {
  }

  lemma Joined(x: set<int>, y: set<int>, all: set<int>)
    requires x <= all && y <= all - x
    ensures |x + y| == |x| + |y| && |all - (x + y)| == |all - x| - |y|
    ensures |y| == |all - x| ==> x + y == all
  {
    assert all - x == (all - (x + y)) + y;
    if |y| == |all - x| { assert all - (x + y) == {}; }
  }

  lemma FewerRows(x: set<JobId>, y: set<JobId>, j: JobId)
    requires x <= y && j in y && j !in x
    ensures |x| < |y|
  {
    SubsetSize(x, y - {j});
  }

  /** The counts of the rows outside `todo`. */
  ghost function Counted(jobs: map<JobId, Job>, g: int, todo: set<JobId>): Counts {
    Counts(|With(jobs, g, Queued) - todo|, |With(jobs, g, Running) - todo|,
           |With(jobs, g, Succeeded) - todo|, |With(jobs, g, Failed) - todo|, |With(jobs, g, Cancelled) - todo|)
  }

  function OneMore(c: Counts, st: Status): Counts {
    match st
    case Queued => c.(queued := c.queued + 1)
    case Running => c.(running := c.running + 1)
    case Succeeded => c.(succeeded := c.succeeded + 1)
    case Failed => c.(failed := c.failed + 1)
    case Cancelled => c.(cancelled := c.cancelled + 1)
  }

  lemma NothingCounted(jobs: map<JobId, Job>, g: int)
    ensures Counted(jobs, g, jobs.Keys) == Counts(0, 0, 0, 0, 0)
  {
    forall st: Status ensures With(jobs, g, st) - jobs.Keys == {} {}
  }

  lemma AllCounted(jobs: map<JobId, Job>, g: int)
    ensures Counted(jobs, g, {}) == CountsOf(jobs, g)
  {
    forall st: Status ensures With(jobs, g, st) - {} == With(jobs, g, st) {}
  }

  lemma CountOne(jobs: map<JobId, Job>, g: int, todo: set<JobId>, j: JobId)
    requires j in todo && j in jobs
    ensures Counted(jobs, g, todo - {j}) ==
            if jobs[j].group == g then OneMore(Counted(jobs, g, todo), jobs[j].status) else Counted(jobs, g, todo)
  {
    CountStatus(jobs, g, todo, j, Queued);
    CountStatus(jobs, g, todo, j, Running);
    CountStatus(jobs, g, todo, j, Succeeded);
    CountStatus(jobs, g, todo, j, Failed);
    CountStatus(jobs, g, todo, j, Cancelled);
  }

  lemma CountStatus(jobs: map<JobId, Job>, g: int, todo: set<JobId>, j: JobId, st: Status)
    requires j in todo && j in jobs
    ensures |With(jobs, g, st) - (todo - {j})| == |With(jobs, g, st) - todo| + if jobs[j].group == g && jobs[j].status == st then 1 else 0
  {
    if jobs[j].group == g && jobs[j].status == st {
      assert With(jobs, g, st) - (todo - {j}) == (With(jobs, g, st) - todo) + {j};
    } else {
      assert With(jobs, g, st) - (todo - {j}) == With(jobs, g, st) - todo;
    }
  }

  /** Rewriting one row without moving it, then refreshing its group, keeps the read model in agreement. */
  lemma OneRowAgrees(jobs: map<JobId, Job>, jobs': map<JobId, Job>, j: JobId, workflows: map<int, Workflow>)
    requires j in jobs' && jobs' == jobs[j := jobs'[j]]
    requires j in jobs ==> jobs'[j].group == jobs[j].group
    ensures Members(jobs', jobs'[j].group) != {}
    ensures Agrees(jobs, workflows) ==> Agrees(jobs', workflows[jobs'[j].group := Summary(jobs', jobs'[j].group)])
  {
    var g := jobs'[j].group;
    assert j in Members(jobs', g);
    if Agrees(jobs, workflows) {
      forall k | k in jobs' && jobs'[k].group != g
        ensures jobs'[k].group in workflows && workflows[jobs'[k].group] == Summary(jobs', jobs'[k].group)
      {
        assert k in jobs && jobs[k] == jobs'[k];
        SameGroupSameSummary(jobs, jobs', jobs'[k].group);
      }
    }
  }
}
