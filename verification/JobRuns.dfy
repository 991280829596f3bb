/**
 Theorems about whole runs of the queue: fencing of attempts, finality of
 terminal rows, the bound on status changes, the event log, and recovery of
 expired leases without the ABA problem.
 */
module JobRuns {
  import opened Common
  import opened JobTables
  import opened JobProtocol
  import opened JobInvariants

  /** Starting points: nothing in the tables, idle slots, one slot per worker id. */
  ghost predicate Fresh(s: Sys) {
    Init(s) && OneSlotPerWorker(s) && LeasesPositive(s)
  }

  lemma {:induction false} Appended(s: Sys, run: seq<Action>, more: seq<Action>)
    requires Valid(s, run) && Valid(Exec(s, run), more)
    ensures Valid(s, run + more) && Exec(s, run + more) == Exec(Exec(s, run), more)
    decreases |run|
  {
    if run == [] {
      assert run + more == more;
    } else {
      Appended(Next(s, run[0]), run[1..], more);
      assert (run + more)[1..] == run[1..] + more;
    }
  }

  lemma OneMore(s: Sys, run: seq<Action>, a: Action)
    requires Valid(s, run) && Enabled(Exec(s, run), a)
    ensures Valid(s, run + [a]) && Exec(s, run + [a]) == Next(Exec(s, run), a)
  {
    var t := Exec(s, run);
    assert [a][1..] == [];
    assert Valid(Next(t, a), []);
    assert Valid(t, [a]) && Exec(t, [a]) == Next(t, a);
    Appended(s, run, [a]);
  }

  // ------------------------------------------------------------------ fencing

  /** How often job j is claimed in a run. */
  ghost function Claims(run: seq<Action>, j: JobId): nat {
    if run == [] then 0
    else (if run[0].Claim? && run[0].job == j then 1 else 0) + Claims(run[1..], j)
  }

  /** The attempt number in a row counts the claims of the job. */
  lemma {:induction false} AttemptsCountClaims(s: Sys, run: seq<Action>, j: JobId)
    requires Valid(s, run) && j in s.db.jobs
    ensures j in Exec(s, run).db.jobs
    ensures Exec(s, run).db.jobs[j].attempts == s.db.jobs[j].attempts + Claims(run, j)
    decreases |run|
  {
    if run != [] {
      RowFootprint(s, run[0], j);
      AttemptsCountClaims(Next(s, run[0]), run[1..], j);
    }
  }

  /** The slot holds job j at this attempt, and its writes pass the lease guard on the row. */
  ghost predicate PassesGuard(s: Sys, slot: SlotId, j: JobId, attempt: nat) {
    && Busy(s, slot) && s.slots[slot].flight.value.job == j && s.slots[slot].flight.value.row.attempts == attempt
    && Owns(s.db, j, s.slots[slot].worker)
  }

  lemma ReachableInv(s: Sys, run: seq<Action>)
    requires Fresh(s) && Valid(s, run)
    ensures Inv(Exec(s, run)) && OneSlotPerWorker(Exec(s, run)) && LeasesPositive(Exec(s, run))
  {
    InvInit(s);
    InvAlways(s, run);
  }

  lemma FencedSince(s: Sys, j: JobId, run: seq<Action>, slot: SlotId)
    requires Valid(s, run) && Inv(s) && OneSlotPerWorker(s) && LeasesPositive(s) && j in s.db.jobs
    requires PassesGuard(Exec(s, run), slot, j, s.db.jobs[j].attempts)
    ensures Claims(run, j) == 0 && j in Exec(s, run).db.jobs && Exec(s, run).db.jobs[j].attempts == s.db.jobs[j].attempts
  {
    InvAlways(s, run);
    AttemptsCountClaims(s, run, j);
    assert SlotFenced(Exec(s, run), slot);
  }

  /**
   Attempt fencing. A slot claims a job at the end of `before`. As long as its
   later writes for that claim pass the lease guard (that of Start, Heartbeat,
   Complete and Requeue), nobody has claimed the job since, and the row still
   carries the attempt number of that claim.
   */
  lemma AttemptFencing(s: Sys, before: seq<Action>, claim: Action, between: seq<Action>)
    requires Fresh(s) && claim.Claim?
    requires Valid(s, before) && Enabled(Exec(s, before), claim)
    requires Valid(Next(Exec(s, before), claim), between)
    requires PassesGuard(Exec(Next(Exec(s, before), claim), between), claim.slot, claim.job,
                         Exec(s, before).db.jobs[claim.job].attempts + 1)
    ensures Claims(between, claim.job) == 0
    ensures claim.job in Exec(Next(Exec(s, before), claim), between).db.jobs
    ensures Exec(Next(Exec(s, before), claim), between).db.jobs[claim.job].attempts ==
            Exec(s, before).db.jobs[claim.job].attempts + 1
  {
    ReachableInv(s, before);
    var u := Exec(s, before);
    InvKept(u, claim);
    RowFootprint(u, claim, claim.job);
    FencedSince(Next(u, claim), claim.job, between, claim.slot);
  }

  // ----------------------------------------------------- status changes, finality

  /** A row that has ended never changes again. */
  lemma {:induction false} TerminalForever(s: Sys, run: seq<Action>, j: JobId)
    requires Valid(s, run) && Inv(s) && OneSlotPerWorker(s) && LeasesPositive(s)
    requires j in s.db.jobs && s.db.jobs[j].status.Terminal()
    ensures j in Exec(s, run).db.jobs && Exec(s, run).db.jobs[j] == s.db.jobs[j]
    decreases |run|
  {
    if run != [] {
      RowFootprint(s, run[0], j);
      ChangeJustified(s, run[0], j);
      InvKept(s, run[0]);
      TerminalForever(Next(s, run[0]), run[1..], j);
    }
  }

  /** Status writes still possible for a row. */
  function Budget(r: Job): int {
    if r.status.Terminal() then 0
    else 2 * (r.maxAttempts - r.attempts) + (if r.status == Running then 1 else 0)
  }

  /** 1 if the action changes the status of job j. */
  ghost function Flip(s: Sys, a: Action, j: JobId): nat
    requires Enabled(s, a)
  {
    if j in s.db.jobs && j in Next(s, a).db.jobs && Next(s, a).db.jobs[j].status != s.db.jobs[j].status then 1 else 0
  }

  ghost function StatusChanges(s: Sys, run: seq<Action>, j: JobId): nat
    requires Valid(s, run)
    decreases |run|
  {
    if run == [] then 0 else Flip(s, run[0], j) + StatusChanges(Next(s, run[0]), run[1..], j)
  }

  lemma BudgetStep(s: Sys, a: Action, j: JobId)
    requires Enabled(s, a) && Inv(s) && j in s.db.jobs
    ensures j in Next(s, a).db.jobs
    ensures Flip(s, a, j) + Budget(Next(s, a).db.jobs[j]) <= Budget(s.db.jobs[j])
    ensures !Next(s, a).db.jobs[j].status.Terminal() ==>
              !s.db.jobs[j].status.Terminal() && Flip(s, a, j) + Budget(Next(s, a).db.jobs[j]) == Budget(s.db.jobs[j])
  {
    RowFootprint(s, a, j);
    ChangeJustified(s, a, j);
    assert RowOk(s.db.jobs[j]);
  }

  /** Every status change uses up the budget: by one, or down to zero when the job ends. */
  lemma {:induction false} StatusChangesBounded(s: Sys, run: seq<Action>, j: JobId)
    requires Valid(s, run) && Inv(s) && OneSlotPerWorker(s) && LeasesPositive(s) && j in s.db.jobs
    ensures j in Exec(s, run).db.jobs
    ensures StatusChanges(s, run, j) + Budget(Exec(s, run).db.jobs[j]) <= Budget(s.db.jobs[j])
    ensures !Exec(s, run).db.jobs[j].status.Terminal() ==>
              StatusChanges(s, run, j) + Budget(Exec(s, run).db.jobs[j]) == Budget(s.db.jobs[j])
    decreases |run|
  {
    if run != [] {
      var a, t, rest := run[0], Next(s, run[0]), run[1..];
      BudgetStep(s, a, j);
      InvKept(s, a);
      StatusChangesBounded(t, rest, j);
      if !Exec(t, rest).db.jobs[j].status.Terminal() && t.db.jobs[j].status.Terminal() {
        TerminalForever(t, rest, j);
      }
    }
  }

  lemma NewJobBudget(s: Sys, a: Action)
    requires Enabled(s, a) && a.Enqueue?
    ensures a.id in Next(s, a).db.jobs && Budget(Next(s, a).db.jobs[a.id]) == 2 * Next(s, a).db.jobs[a.id].maxAttempts
  {
    RowFootprint(s, a, a.id);
  }

  /**
   From its enqueue on, a job changes status at most twice per allowed attempt;
   and whenever it is queued it has an attempt left, so it is never stranded.
   */
  lemma RetriesTerminate(s: Sys, before: seq<Action>, enqueue: Action, after: seq<Action>)
    requires Fresh(s) && enqueue.Enqueue?
    requires Valid(s, before) && Enabled(Exec(s, before), enqueue) && Valid(Next(Exec(s, before), enqueue), after)
    ensures var t := Next(Exec(s, before), enqueue);
            && enqueue.id in t.db.jobs && enqueue.id in Exec(t, after).db.jobs
            && StatusChanges(t, after, enqueue.id) <= 2 * t.db.jobs[enqueue.id].maxAttempts
            && (Exec(t, after).db.jobs[enqueue.id].status == Queued ==>
                  Exec(t, after).db.jobs[enqueue.id].attempts < Exec(t, after).db.jobs[enqueue.id].maxAttempts)
  {
    ReachableInv(s, before);
    InvKept(Exec(s, before), enqueue);
    var t := Next(Exec(s, before), enqueue);
    NewJobBudget(Exec(s, before), enqueue);
    QueuedHasAttempt(t, after, enqueue.id);
  }

  lemma QueuedHasAttempt(t: Sys, after: seq<Action>, j: JobId)
    requires Valid(t, after) && Inv(t) && OneSlotPerWorker(t) && LeasesPositive(t) && j in t.db.jobs
    ensures j in Exec(t, after).db.jobs && StatusChanges(t, after, j) <= Budget(t.db.jobs[j])
    ensures Exec(t, after).db.jobs[j].status == Queued ==> Exec(t, after).db.jobs[j].attempts < Exec(t, after).db.jobs[j].maxAttempts
  {
    StatusChangesBounded(t, after, j);
    InvAlways(t, after);
    assert RowOk(Exec(t, after).db.jobs[j]);
  }

  // ------------------------------------------------------------------ event log

  /**
   The event log refines the table: in every reachable state, retention cleanup
   included, replaying the status events of an unfinished job yields its status,
   its attempt count as the number of claims, one retry for every claim but the
   current one, whether it was started, and who holds its lease.
   */
  lemma EventLogTellsTable(s: Sys, run: seq<Action>, j: JobId)
    requires Fresh(s) && Valid(s, run)
    requires j in Exec(s, run).db.jobs && !Exec(s, run).db.jobs[j].status.Terminal()
    ensures var r, t := Exec(s, run).db.jobs[j], Replay(Exec(s, run).db.events, j);
            && t.status == Some(r.status) && t.queued == 1 && t.ended == 0
            && r.attempts == t.claimed == t.retried + (if r.status == Queued then 0 else 1)
            && t.started == r.startedAt.Some? && t.holder == r.leasedBy
  {
    InvInit(s);
    InvAlways(s, run);
    assert RowOk(Exec(s, run).db.jobs[j]);
  }

  // ------------------------------------------------------------------ recovery

  /** No action of the run renews, ends or re-grants the lease of job j. */
  ghost predicate LeaseUntouched(s: Sys, run: seq<Action>, j: JobId)
    requires Valid(s, run)
    decreases |run|
  {
    run == [] ||
    ((ChangeOf(s, run[0], j).Same? || ChangeOf(s, run[0], j).Begun?) && LeaseUntouched(Next(s, run[0]), run[1..], j))
  }

  /** Once an expired lease is gone from the row it never comes back. */
  lemma {:induction false} ExpiredLeaseStaysGone(s: Sys, run: seq<Action>, j: JobId, snap: Job)
    requires Valid(s, run) && LeasesPositive(s) && j in s.db.jobs
    requires snap.leaseExpires.Some? && snap.leaseExpires.value <= s.clock && !SameLease(s.db, j, snap)
    ensures !SameLease(Exec(s, run).db, j, snap)
    decreases |run|
  {
    if run != [] {
      RowFootprint(s, run[0], j);
      WorkersFixed(s, run[0]);
      ExpiredLeaseStaysGone(Next(s, run[0]), run[1..], j, snap);
    }
  }

  /**
   The compare-and-set of recovery has no ABA problem: if the guard still matches
   an expired lease read earlier, that lease was never touched since.
   */
  lemma {:induction false} NoAba(s: Sys, run: seq<Action>, j: JobId, snap: Job)
    requires Valid(s, run) && LeasesPositive(s)
    requires SameLease(s.db, j, snap) && snap.leaseExpires.value <= s.clock
    ensures SameLease(Exec(s, run).db, j, snap) <==> LeaseUntouched(s, run, j)
    decreases |run|
  {
    if run != [] {
      var t := Next(s, run[0]);
      RowFootprint(s, run[0], j);
      WorkersFixed(s, run[0]);
      if SameLease(t.db, j, snap) {
        NoAba(t, run[1..], j, snap);
      } else {
        ExpiredLeaseStaysGone(t, run[1..], j, snap);
      }
    }
  }

  lemma RecoveryStep(t: Sys, a: Action)
    requires Enabled(t, a) && a.SweepOne? && Inv(t)
    ensures var (j, snap) := t.sweeps[a.sweep].todo[0];
            && j in t.db.jobs && j in Next(t, a).db.jobs
            && (Next(t, a).db.jobs[j] != t.db.jobs[j] <==> SameLease(t.db, j, snap))
            && (SameLease(t.db, j, snap) ==>
                  && LeaseExpired(t.db.jobs[j], t.clock)
                  && (Next(t, a).db.jobs[j].status == Queued <==> t.db.jobs[j].attempts < t.db.jobs[j].maxAttempts)
                  && (Next(t, a).db.jobs[j].status == Failed <==> t.db.jobs[j].attempts == t.db.jobs[j].maxAttempts))
  {
    var todo := t.sweeps[a.sweep].todo;
    assert SnapOk(t, todo[0].0, todo[0].1);
    assert RowOk(t.db.jobs[todo[0].0]);
  }

  /**
   One recovery step, in any reachable state: it changes a row exactly if the
   lease that was read is still there, and then that lease has expired; it
   requeues exactly the jobs with an attempt left and fails those without.
   */
  lemma RecoveryDecision(s: Sys, run: seq<Action>, a: Action)
    requires Fresh(s) && Valid(s, run) && Enabled(Exec(s, run), a) && a.SweepOne?
    ensures var t := Exec(s, run);
            var (j, snap) := t.sweeps[a.sweep].todo[0];
            && j in t.db.jobs && j in Next(t, a).db.jobs
            && (Next(t, a).db.jobs[j] != t.db.jobs[j] <==> SameLease(t.db, j, snap))
            && (SameLease(t.db, j, snap) ==>
                  && LeaseExpired(t.db.jobs[j], t.clock)
                  && (Next(t, a).db.jobs[j].status == Queued <==> t.db.jobs[j].attempts < t.db.jobs[j].maxAttempts)
                  && (Next(t, a).db.jobs[j].status == Failed <==> t.db.jobs[j].attempts == t.db.jobs[j].maxAttempts))
  {
    ReachableInv(s, run);
    RecoveryStep(Exec(s, run), a);
  }
}
