/**
 Mutual exclusion of handlers through lock rows. The code renews a lease and
 extends the lock in two statements and does not check that the lease is still
 live, so exclusion rests on heartbeats being timely: the first statement runs
 before the lease expires, and the second before the replaced lease would have.
 */
module LockExclusion {
  import opened Common
  import opened JobTables
  import opened JobProtocol
  import opened JobInvariants
  import opened JobRuns

  /** The partial unique index on (lock_key) WHERE status = 'held'. */
  ghost predicate LocksUnique(db: Db) {
    forall l, m ::
      (l in db.locks && m in db.locks && db.locks[l].status == Held && db.locks[m].status == Held
       && db.locks[l].key == db.locks[m].key) ==> l == m
  }

  predicate OwnsFlight(s: Sys, b: SlotId) {
    Busy(s, b) && Owns(s.db, s.slots[b].flight.value.job, s.slots[b].worker)
  }

  /** The lease on the row of the slot's job. */
  function LeaseOf(s: Sys, b: SlotId): Time
    requires OwnsFlight(s, b)
  {
    var r := s.db.jobs[s.slots[b].flight.value.job];
    if r.leaseExpires.Some? then r.leaseExpires.value else s.clock
  }

  /** The slot runs its handler under a lease that has not expired. */
  predicate LiveInHandler(s: Sys, b: SlotId) {
    OwnsFlight(s, b) && s.slots[b].flight.value.phase == InHandler && s.clock < LeaseOf(s, b)
  }

  /** Until when the lock row must outlive the clock: during a heartbeat, the lease it replaced. */
  function CoverUntil(s: Sys, b: SlotId): Time
    requires OwnsFlight(s, b)
  {
    var f := s.slots[b].flight.value;
    if f.beat.Some? then f.beat.value.previous else LeaseOf(s, b)
  }

  predicate Covers(l: Lock, s: Sys, b: SlotId)
    requires OwnsFlight(s, b)
  {
    var f := s.slots[b].flight.value;
    HeldBy(l, f.job, s.slots[b].worker) && Some(l.key) == f.row.lockKey && CoverUntil(s, b) <= l.expiresAt
  }

  /** A slot past lock acquisition whose cover time is ahead has a held lock row that lasts that long. */
  ghost predicate Covered(s: Sys, b: SlotId) {
    (OwnsFlight(s, b) && !s.slots[b].flight.value.phase.AfterClaim? && s.slots[b].flight.value.row.lockKey.Some?
     && s.clock < CoverUntil(s, b)) ==>
      exists l :: l in s.db.locks && Covers(s.db.locks[l], s, b)
  }

  /** Leases are at most one lease period ahead; a heartbeat under way is inside the lease it replaces. */
  predicate BeatOk(s: Sys, b: SlotId) {
    OwnsFlight(s, b) ==>
      && LeaseOf(s, b) <= s.clock + s.slots[b].lease
      && (s.slots[b].flight.value.beat.Some? ==>
            && !s.slots[b].flight.value.phase.AfterClaim?
            && LeaseOf(s, b) == s.slots[b].flight.value.beat.value.expires
            && s.clock < s.slots[b].flight.value.beat.value.previous)
  }

  ghost predicate LockInv(s: Sys) {
    LocksUnique(s.db) && forall b :: b in s.slots ==> Covered(s, b) && BeatOk(s, b)
  }

  /** The scheduling hypothesis, step by step. */
  ghost predicate Timely(s: Sys, a: Action) {
    match a
    case Tick(to) =>
      forall b :: OwnsFlight(s, b) && s.slots[b].flight.value.beat.Some? ==> to < s.slots[b].flight.value.beat.value.previous
    case BeatLease(slot) => OwnsFlight(s, slot) ==> s.clock < LeaseOf(s, slot)
    case BeatFails(slot) => !OwnsFlight(s, slot)
    case _ => true
  }

  ghost predicate TimelyRun(s: Sys, run: seq<Action>)
    requires Valid(s, run)
    decreases |run|
  {
    run == [] || (Timely(s, run[0]) && TimelyRun(Next(s, run[0]), run[1..]))
  }

  // ------------------------------------------------------------- preservation

  /** What the exclusion proof uses of the invariant; it has no use for the event log. */
  ghost predicate Steady(s: Sys) {
    RowsOk(s.db) && FlightsOk(s) && Fenced(s) && SweepsOk(s)
  }

  /** Only acquisition makes a lock row held. */
  lemma HeldBefore(s: Sys, a: Action, l: LockId)
    requires Enabled(s, a) && l in Next(s, a).db.locks && Next(s, a).db.locks[l].status == Held
    ensures (l in s.db.locks && s.db.locks[l].status == Held && s.db.locks[l].key == Next(s, a).db.locks[l].key)
            || (a.TakeLock? && l == a.lock && l !in s.db.locks && !KeyHeld(s.db, Next(s, a).db.locks[l].key))
  {
  }

  lemma UniqueKept(s: Sys, a: Action)
    requires Enabled(s, a) && LocksUnique(s.db)
    ensures LocksUnique(Next(s, a).db)
  {
    var t := Next(s, a);
    forall l, m | l in t.db.locks && m in t.db.locks && t.db.locks[l].status == Held
                  && t.db.locks[m].status == Held && t.db.locks[l].key == t.db.locks[m].key
      ensures l == m
    {
      HeldBefore(s, a, l);
      HeldBefore(s, a, m);
      assert l in s.db.locks ==> HeldOn(s.db.locks[l], t.db.locks[l].key);
      assert m in s.db.locks ==> HeldOn(s.db.locks[m], t.db.locks[m].key);
    }
  }

  lemma BeatKept(s: Sys, a: Action, b: SlotId)
    requires Enabled(s, a) && Steady(s) && OneSlotPerWorker(s) && LeasesPositive(s) && Timely(s, a)
    requires b in s.slots && BeatOk(s, b)
    ensures b in Next(s, a).slots && BeatOk(Next(s, a), b)
  {
    var t := Next(s, a);
    WorkersFixed(s, a);
    if OwnsFlight(t, b) {
      RowFootprint(s, a, t.slots[b].flight.value.job);
      assert RowOk(t.db.jobs[t.slots[b].flight.value.job]) by { RowsKept(s, a); }
    }
  }

  /** A lock row that covers a slot still covers it after any timely step that leaves the slot past acquisition. */
  lemma CoverSurvives(s: Sys, a: Action, b: SlotId, l: LockId)
    requires Enabled(s, a) && Steady(s) && OneSlotPerWorker(s) && LeasesPositive(s) && Timely(s, a) && BeatOk(s, b)
    requires OwnsFlight(s, b) && l in s.db.locks && Covers(s.db.locks[l], s, b)
    requires OwnsFlight(Next(s, a), b) && Next(s, a).clock < CoverUntil(Next(s, a), b)
    requires !s.slots[b].flight.value.phase.AfterClaim?
    requires s.clock < CoverUntil(s, b)
    ensures l in Next(s, a).db.locks && Covers(Next(s, a).db.locks[l], Next(s, a), b)
  {
    RowFootprint(s, a, s.slots[b].flight.value.job);
    assert RowOk(s.db.jobs[s.slots[b].flight.value.job]);
  }

  lemma CoverKept(s: Sys, a: Action, b: SlotId)
    requires Enabled(s, a) && Steady(s) && OneSlotPerWorker(s) && LeasesPositive(s) && Timely(s, a)
    requires b in s.slots && BeatOk(s, b) && Covered(s, b)
    ensures Covered(Next(s, a), b)
  {
    var t := Next(s, a);
    WorkersFixed(s, a);
    BeatKept(s, a, b);
    if OwnsFlight(t, b) && !t.slots[b].flight.value.phase.AfterClaim? && t.slots[b].flight.value.row.lockKey.Some?
       && t.clock < CoverUntil(t, b) {
      if a.TakeLock? && a.slot == b {
        assert Covers(t.db.locks[a.lock], t, b);
      } else {
        StillOwned(s, a, b);
        var l :| l in s.db.locks && Covers(s.db.locks[l], s, b);
        CoverSurvives(s, a, b, l);
      }
    }
  }

  /** A covered slot was already past acquisition, owned its row and had its cover time ahead before the step. */
  lemma StillOwned(s: Sys, a: Action, b: SlotId)
    requires Enabled(s, a) && Steady(s) && OneSlotPerWorker(s) && LeasesPositive(s) && Timely(s, a)
    requires b in s.slots && BeatOk(s, b) && !(a.TakeLock? && a.slot == b)
    requires OwnsFlight(Next(s, a), b) && !Next(s, a).slots[b].flight.value.phase.AfterClaim?
    requires Next(s, a).clock < CoverUntil(Next(s, a), b)
    ensures OwnsFlight(s, b) && !s.slots[b].flight.value.phase.AfterClaim? && s.clock < CoverUntil(s, b)
    ensures s.slots[b].flight.value.row == Next(s, a).slots[b].flight.value.row
  {
    var t := Next(s, a);
    WorkersFixed(s, a);
    RowFootprint(s, a, t.slots[b].flight.value.job);
    assert Busy(s, b);
    assert RowOk(s.db.jobs[s.slots[b].flight.value.job]);
  }

  lemma LockInvKept(s: Sys, a: Action)
    requires Enabled(s, a) && Inv(s) && OneSlotPerWorker(s) && LeasesPositive(s) && Timely(s, a) && LockInv(s)
    ensures LockInv(Next(s, a))
  {
    WorkersFixed(s, a);
    UniqueKept(s, a);
    forall b | b in Next(s, a).slots
      ensures Covered(Next(s, a), b) && BeatOk(Next(s, a), b)
    {
      BeatKept(s, a, b);
      CoverKept(s, a, b);
    }
  }

  lemma {:induction false} LockInvAlways(s: Sys, run: seq<Action>)
    requires Valid(s, run) && TimelyRun(s, run)
    requires Inv(s) && OneSlotPerWorker(s) && LeasesPositive(s) && LockInv(s)
    ensures LockInv(Exec(s, run))
    decreases |run|
  {
    if run != [] {
      InvKept(s, run[0]);
      LockInvKept(s, run[0]);
      LockInvAlways(Next(s, run[0]), run[1..]);
    }
  }

  /**
   Mutual exclusion over whole runs: under timely heartbeats no two slots are in
   their handlers with live leases for jobs that share a lock key.
   */
  lemma HandlersExclude(s: Sys, run: seq<Action>, b: SlotId, c: SlotId)
    requires Fresh(s) && Valid(s, run) && TimelyRun(s, run)
    requires LiveInHandler(Exec(s, run), b) && LiveInHandler(Exec(s, run), c)
    requires Exec(s, run).slots[b].flight.value.row.lockKey.Some?
    requires Exec(s, run).slots[b].flight.value.row.lockKey == Exec(s, run).slots[c].flight.value.row.lockKey
    ensures b == c
  {
    InvInit(s);
    LockInvAlways(s, run);
    ReachableInv(s, run);
    LiveMeansHeld(Exec(s, run), b);
    LiveMeansHeld(Exec(s, run), c);
  }

  /** A live handler has a held lock row on its key, in its own name. */
  lemma LiveMeansHeld(t: Sys, b: SlotId)
    requires LockInv(t) && LiveInHandler(t, b) && t.slots[b].flight.value.row.lockKey.Some?
    ensures exists l :: l in t.db.locks && HeldBy(t.db.locks[l], t.slots[b].flight.value.job, t.slots[b].worker)
                        && Some(t.db.locks[l].key) == t.slots[b].flight.value.row.lockKey
  {
    assert Covered(t, b) && BeatOk(t, b);
    var l :| l in t.db.locks && Covers(t.db.locks[l], t, b);
  }

  /**
   Exactly when a whole heartbeat, both statements back to back, leaves its slot
   covered: when the job's lock row is still held at that moment. A live lease
   guarantees that (LiveMeansHeld); an expired one does not.
   */
  lemma HeartbeatCoversIff(s: Sys, b: SlotId)
    requires Enabled(s, BeatLease(b)) && LeasesPositive(s) && Inv(s) && OwnsFlight(s, b)
    requires s.slots[b].flight.value.row.lockKey.Some?
    ensures Enabled(Next(s, BeatLease(b)), BeatLocks(b))
    ensures LiveInHandler(Next(Next(s, BeatLease(b)), BeatLocks(b)), b)
    ensures Covered(Next(Next(s, BeatLease(b)), BeatLocks(b)), b) <==>
            exists l :: l in s.db.locks && HeldBy(s.db.locks[l], s.slots[b].flight.value.job, s.slots[b].worker)
                        && Some(s.db.locks[l].key) == s.slots[b].flight.value.row.lockKey
  {
    assert RowOk(s.db.jobs[s.slots[b].flight.value.job]);
    var t := Next(s, BeatLease(b));
    var u := Next(t, BeatLocks(b));
    if l :| l in s.db.locks && HeldBy(s.db.locks[l], s.slots[b].flight.value.job, s.slots[b].worker)
            && Some(s.db.locks[l].key) == s.slots[b].flight.value.row.lockKey {
      assert Covers(u.db.locks[l], u, b);
    }
    if l :| l in u.db.locks && Covers(u.db.locks[l], u, b) {
      assert l in s.db.locks && HeldBy(s.db.locks[l], s.slots[b].flight.value.job, s.slots[b].worker);
    }
  }
}
