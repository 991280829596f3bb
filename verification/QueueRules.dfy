/**
 What the steps of the queue protocol mean in terms of columns and times: which
 job a claim may take, how the end of a pass leaves a job, and how long a retry
 waits.
 */
module QueueRules {
  import opened Common
  import opened JobTables
  import opened JobProtocol
  import opened JobInvariants
  import opened JobRuns
  import opened JobStore

  /** A claim may take exactly a job that is due and comes first. */
  lemma ClaimTakesFirstDue(s: Sys, slot: SlotId, j: JobId)
    ensures Enabled(s, Claim(slot, j)) <==>
            slot in s.slots && s.slots[slot].flight.None? && s.slots[slot].lease > 0 && FirstDue(s.db.jobs, j, s.clock)
    ensures Enabled(s, Claim(slot, j)) ==>
              TakenBy(s.db.jobs, Next(s, Claim(slot, j)).db.jobs, j, s.slots[slot].worker, s.clock + s.slots[slot].lease)
  {
  }

  // ------------------------------------------------------------ the end of a pass

  /**
   The status an outcome leaves a job in, on the row as it was claimed. Only the
   attempts and their limit count of that row.
   */
  predicate OutcomeLeaves(attempts: nat, most: nat, o: Outcome, status: Status) {
    var left := attempts < most;
    match o
    case NoHandler => status == Failed
    case SetupFailed => if left then status == Queued else status == Failed
    case HandlerReturned => status == Succeeded
    case HandlerFailed(retryable, cancelled, shutdown) =>
      && (status == Running <==> cancelled && shutdown)
      && (status == Queued <==> retryable && left && !(cancelled && shutdown))
      && (status == Cancelled <==> cancelled && !shutdown && !(retryable && left))
      && (status == Failed <==> !cancelled && !(retryable && left))
      && status != Succeeded
  }

  /**
   The end of a pass. If the job still runs under the lease of the slot's worker, it
   is left as the outcome says, with one event that tells its status unless it is
   left running; otherwise the tables do not change. The slot is free either way.
   */
  lemma EndPassLeaves(s: Sys, a: Action)
    requires Enabled(s, a) && a.EndPass?
    ensures var t, f, w := Next(s, a), s.slots[a.slot].flight.value, s.slots[a.slot].worker;
            && t.slots[a.slot].flight == None
            && (!Leased(s.db.jobs, f.job, w) ==> t.db == s.db)
            && (Leased(s.db.jobs, f.job, w) ==> OnlyRow(s.db.jobs, t.db.jobs, f.job))
            && (Leased(s.db.jobs, f.job, w) ==> OutcomeLeaves(f.row.attempts, f.row.maxAttempts, a.outcome, t.db.jobs[f.job].status))
            && (Leased(s.db.jobs, f.job, w) && t.db.jobs[f.job].status == Running ==> t.db == s.db)
            && (Leased(s.db.jobs, f.job, w) && t.db.jobs[f.job].status != Running ==>
                  && GivesBack(s.db.locks, t.db.locks, f.job, w, s.clock)
                  && |t.db.events| == |s.db.events| + 1 && s.db.events <= t.db.events
                  && EndEvent(t.db.events[|s.db.events|], f.job, t.db.jobs[f.job].status, w, s.clock))
            && (Leased(s.db.jobs, f.job, w) && t.db.jobs[f.job].status == Queued ==>
                  t.db.jobs[f.job].runAfter == s.clock + a.delay && 4 * SECOND <= a.delay <= 5 * MINUTE)
  {
  }

  // ------------------------------------------------------------- other steps

  /** A job is queued exactly where no row has its key and no unfinished operation its lock; its row is the one asked for. */
  lemma EnqueueQueues(s: Sys, id: JobId, req: EnqueueRequest)
    ensures Enabled(s, Enqueue(id, req)) <==>
            && req.maxAttempts >= 0 && req.priority >= 0 && id !in s.db.jobs
            && (forall k :: k in s.db.jobs ==> !KeyedAs(s.db.jobs[k], req))
            && !(req.jobType in {RepoClone, RepoPull, RepoSync} && req.lockKey.Some? &&
                 exists k :: k in s.db.jobs && OperatesOn(s.db.jobs[k], req.lockKey.value))
    ensures Enabled(s, Enqueue(id, req)) ==>
              var t := Next(s, Enqueue(id, req));
              && id in t.db.jobs && QueuedAs(t.db.jobs[id], req, s.clock) && t.db.jobs == s.db.jobs[id := t.db.jobs[id]]
              && t.db.events == s.db.events + [Event(s.db.nextEvent, id, EvQueued, Queued, None, s.clock)]
  {
    assert forall k :: k in s.db.jobs ==> (SameIdempotency(s.db.jobs[k], req) <==> KeyedAs(s.db.jobs[k], req));
    assert req.lockKey.Some? ==> forall k :: k in s.db.jobs ==>
             (ActiveOperationOn(s.db.jobs[k], req.lockKey.value) <==> OperatesOn(s.db.jobs[k], req.lockKey.value));
  }

  /**
   The two statements of a heartbeat: the first renews the lease if the worker still
   has it, the second gives the locks it holds for the job the same expiry, whoever
   has the lease by then.
   */
  lemma BeatRenews(s: Sys, slot: SlotId)
    requires Enabled(s, BeatLease(slot))
    ensures var t, f, w := Next(s, BeatLease(slot)), s.slots[slot].flight.value, s.slots[slot].worker;
            if Leased(s.db.jobs, f.job, w) && s.db.jobs[f.job].leaseExpires.Some? then
              && OnlyRow(s.db.jobs, t.db.jobs, f.job)
              && t.db.jobs[f.job] == s.db.jobs[f.job].(leaseExpires := Some(s.clock + s.slots[slot].lease))
              && t.db.locks == s.db.locks && t.db.events == s.db.events
              && t.slots[slot].flight == Some(f.(beat := Some(Beat(s.db.jobs[f.job].leaseExpires.value, s.clock + s.slots[slot].lease))))
            else t == s
  {
  }

  lemma BeatExtends(s: Sys, slot: SlotId)
    requires Enabled(s, BeatLocks(slot))
    ensures var t, f, w := Next(s, BeatLocks(slot)), s.slots[slot].flight.value, s.slots[slot].worker;
            && t.db.jobs == s.db.jobs && t.db.events == s.db.events && t.db.locks.Keys == s.db.locks.Keys
            && (forall l :: l in s.db.locks ==>
                  t.db.locks[l] == if IsHeld(s.db.locks[l], f.job, w) then s.db.locks[l].(expiresAt := f.beat.value.expires) else s.db.locks[l])
            && t.slots[slot].flight == Some(f.(beat := None))
  {
  }

  // ------------------------------------------------------------ waiting for a time

  /** While nobody claims it, a queued job keeps its row. */
  lemma {:induction false} QueuedStands(s: Sys, run: seq<Action>, j: JobId)
    requires Valid(s, run) && Inv(s) && OneSlotPerWorker(s) && LeasesPositive(s)
    requires j in s.db.jobs && s.db.jobs[j].status == Queued && Claims(run, j) == 0
    ensures j in Exec(s, run).db.jobs && Exec(s, run).db.jobs[j] == s.db.jobs[j]
    decreases |run|
  {
    if run != [] {
      RowFootprint(s, run[0], j);
      ChangeJustified(s, run[0], j);
      InvKept(s, run[0]);
      QueuedStands(Next(s, run[0]), run[1..], j);
    }
  }

  /** No job is claimed before the run_after it was queued with. */
  lemma ClaimedNotBefore(s: Sys, before: seq<Action>, between: seq<Action>, claim: Action, j: JobId)
    requires Fresh(s) && Valid(s, before) && Valid(Exec(s, before), between)
    requires j in Exec(s, before).db.jobs && Exec(s, before).db.jobs[j].status == Queued && Claims(between, j) == 0
    requires claim.Claim? && claim.job == j && Enabled(Exec(Exec(s, before), between), claim)
    ensures Exec(s, before).db.jobs[j].runAfter <= Exec(Exec(s, before), between).clock
  {
    ReachableInv(s, before);
    QueuedStands(Exec(s, before), between, j);
    ClaimTakesFirstDue(Exec(Exec(s, before), between), claim.slot, j);
  }

  lemma RetryIsQueued(t: Sys, end: Action)
    requires Enabled(t, end) && end.EndPass? && Leased(t.db.jobs, t.slots[end.slot].flight.value.job, t.slots[end.slot].worker)
    requires Next(t, end).db.jobs[t.slots[end.slot].flight.value.job].status == Queued
    ensures t.slots[end.slot].flight.value.job in Next(t, end).db.jobs
    ensures Next(t, end).db.jobs[t.slots[end.slot].flight.value.job].runAfter >= t.clock + 4 * SECOND
  {
    EndPassLeaves(t, end);
  }

  /** From the end of a pass that sends its job back to the next claim of it at least four seconds pass. */
  lemma RetryWaits(s: Sys, before: seq<Action>, end: Action, between: seq<Action>, claim: Action)
    requires Fresh(s) && Valid(s, before) && end.EndPass? && Enabled(Exec(s, before), end)
    requires var t := Exec(s, before);
             var j := t.slots[end.slot].flight.value.job;
             && Leased(t.db.jobs, j, t.slots[end.slot].worker)
             && Next(t, end).db.jobs[j].status == Queued
             && Valid(Next(t, end), between) && Claims(between, j) == 0
             && claim.Claim? && claim.job == j && Enabled(Exec(Next(t, end), between), claim)
    ensures Exec(Next(Exec(s, before), end), between).clock >= Exec(s, before).clock + 4 * SECOND
  {
    var t := Exec(s, before);
    var j := t.slots[end.slot].flight.value.job;
    RetryIsQueued(t, end);
    JobRuns.OneMore(s, before, end);
    ClaimedNotBefore(s, before + [end], between, claim, j);
  }
}
