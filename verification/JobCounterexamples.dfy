/**
 Concrete runs at the limits of the queue theorems: why hypotheses are needed, and
 what a slow sweep does. Each is built step by step from empty tables.
 */
module JobCounterexamples {
  import opened Common
  import opened JobTables
  import opened JobProtocol
  import opened JobInvariants
  import opened JobRuns
  import opened LockExclusion
  import opened ClaimFairness

  const LEASE: Time := 30 * SECOND

  // ------------------------------------------------ one worker id, two slots

  const TWO_ATTEMPTS := EnqueueRequest(ConfigReload, 0, None, 0, 0, None, 2, None, 0)

  const ROW_NEW := Job(ConfigReload, 0, None, 0, 0, None, 0, 0, Queued, 0, 2, None, None, 0, None, None)
  const ROW_TAKEN := ROW_NEW.(status := Running, leasedBy := Some(7), leaseExpires := Some(LEASE), attempts := 1)
  const ROW_BACK := ROW_TAKEN.(status := Queued, leasedBy := None, leaseExpires := None, runAfter := LEASE + RETRY_MIN)
  const ROW_AGAIN := ROW_BACK.(status := Running, leasedBy := Some(7), leaseExpires := Some(LEASE + RETRY_MIN + LEASE), attempts := 2)

  /**
   Two slots under one worker id: the write of an old attempt is accepted on a
   newer one, and the retry it writes leaves the job queued with no attempt left,
   so that no worker will ever claim it again.
   */
  lemma SharedWorkerIdStrandsJob() returns (s: Sys, run: seq<Action>)
    ensures Init(s) && LeasesPositive(s) && !OneSlotPerWorker(s) && Valid(s, run)
    ensures 1 in Exec(s, run).db.jobs && Exec(s, run).db.jobs[1].status == Queued
    ensures Exec(s, run).db.jobs[1].attempts == Exec(s, run).db.jobs[1].maxAttempts
    ensures forall now :: !Candidate(Exec(s, run).db, 1, now)
  {
    s := Sys(Db(map[], map[], [], 0), 0, map[1 := Slot(7, LEASE, None), 2 := Slot(7, LEASE, None)], map[]);
    assert s.slots[1].worker == s.slots[2].worker;
    var run1, t1 := FirstAttemptExpires(s);
    var run2, t2 := SecondAttemptWhileFirstInMemory(s, run1, t1);
    var a := EndPass(1, SetupFailed, RETRY_MIN);
    assert Decide(ROW_TAKEN, SetupFailed) == Retry;
    OneMore(s, run2, a);
    run := run2 + [a];
  }

  lemma FirstAttemptExpires(s: Sys) returns (run: seq<Action>, t: Sys)
    requires s == Sys(Db(map[], map[], [], 0), 0, map[1 := Slot(7, LEASE, None), 2 := Slot(7, LEASE, None)], map[])
    ensures Valid(s, run) && t == Exec(s, run)
    ensures t.clock == LEASE && t.db.jobs == map[1 := ROW_TAKEN]
    ensures t.slots == map[1 := Slot(7, LEASE, Some(Flight(1, ROW_TAKEN, AfterClaim, None))), 2 := Slot(7, LEASE, None)]
  {
    run := [];
    OneMore(s, run, Enqueue(1, TWO_ATTEMPTS));
    run := run + [Enqueue(1, TWO_ATTEMPTS)];
    t := Exec(s, run);
    assert t.db.jobs == map[1 := ROW_NEW];
    OneMore(s, run, Claim(1, 1));
    run := run + [Claim(1, 1)];
    t := Exec(s, run);
    OneMore(s, run, Tick(LEASE));
    run := run + [Tick(LEASE)];
    t := Exec(s, run);
  }

  lemma SweepRequeues(s: Sys, run0: seq<Action>, t0: Sys) returns (run: seq<Action>, t: Sys)
    requires Valid(s, run0) && t0 == Exec(s, run0)
    requires t0.clock == LEASE && t0.db.jobs == map[1 := ROW_TAKEN]
    ensures Valid(s, run) && t == Exec(s, run)
    ensures t.clock == LEASE && t.db.jobs == map[1 := ROW_BACK] && t.slots == t0.slots
  {
    OneMore(s, run0, BeginSweep(1, 9, [1]));
    run := run0 + [BeginSweep(1, 9, [1])];
    t := Exec(s, run);
    assert t.sweeps[1].todo[0] == (1, ROW_TAKEN);
    OneMore(s, run, SweepOne(1, RETRY_MIN));
    run := run + [SweepOne(1, RETRY_MIN)];
    t := Exec(s, run);
  }

  lemma RetryIsDue(s: Sys, run0: seq<Action>, t0: Sys) returns (run: seq<Action>, t: Sys)
    requires Valid(s, run0) && t0 == Exec(s, run0) && t0.clock == LEASE
    ensures Valid(s, run) && t == Exec(s, run) && t == t0.(clock := LEASE + RETRY_MIN)
  {
    OneMore(s, run0, Tick(LEASE + RETRY_MIN));
    run := run0 + [Tick(LEASE + RETRY_MIN)];
    t := Exec(s, run);
  }

  lemma SecondAttemptWhileFirstInMemory(s: Sys, run0: seq<Action>, t0: Sys) returns (run: seq<Action>, t: Sys)
    requires Valid(s, run0) && t0 == Exec(s, run0)
    requires t0.clock == LEASE && t0.db.jobs == map[1 := ROW_TAKEN]
    requires t0.slots == map[1 := Slot(7, LEASE, Some(Flight(1, ROW_TAKEN, AfterClaim, None))), 2 := Slot(7, LEASE, None)]
    ensures Valid(s, run) && t == Exec(s, run)
    ensures t.db.jobs == map[1 := ROW_AGAIN] && 1 in t.slots && t.slots[1] == t0.slots[1]
  {
    run, t := SweepRequeues(s, run0, t0);
    run, t := RetryIsDue(s, run, t);
    OneMore(s, run, Claim(2, 1));
    run := run + [Claim(2, 1)];
    t := Exec(s, run);
  }

  // ---------------------------------------------------- a heartbeat that is late

  const KEYED := EnqueueRequest(ConfigReload, 0, None, 0, 0, Some(5), 3, None, 0)
  const KEYED_NEW := Job(ConfigReload, 0, None, 0, 0, Some(5), 0, 0, Queued, 0, 3, None, None, 0, None, None)

  function TakenBy(w: WorkerId, now: Time): Job {
    KEYED_NEW.(status := Running, leasedBy := Some(w), leaseExpires := Some(now + LEASE), attempts := 1)
  }

  function Begun(w: WorkerId, now: Time): Job {
    TakenBy(w, now).(startedAt := Some(now))
  }

  function HandlingSlot(w: WorkerId, now: Time): Slot {
    Slot(w, LEASE, Some(Flight(w, TakenBy(w, now), InHandler, None)))
  }

  /** Two queued jobs with the same lock key; job w will be taken by worker w in slot w. */
  lemma TwoKeyedJobs(s: Sys) returns (run: seq<Action>, t: Sys)
    requires s == Sys(Db(map[], map[], [], 0), 0, map[1 := Slot(1, LEASE, None), 2 := Slot(2, LEASE, None)], map[])
    ensures Valid(s, run) && t == Exec(s, run)
    ensures t.clock == 0 && t.db.jobs == map[1 := KEYED_NEW, 2 := KEYED_NEW] && t.db.locks == map[]
    ensures t.slots == s.slots
  {
    run := [];
    OneMore(s, run, Enqueue(1, KEYED));
    run := run + [Enqueue(1, KEYED)];
    t := Exec(s, run);
    OneMore(s, run, Enqueue(2, KEYED));
    run := run + [Enqueue(2, KEYED)];
    t := Exec(s, run);
  }

  /** Worker w claims job w, takes the lock row w on the free key and enters its handler. */
  lemma WorkerEnters(s: Sys, run0: seq<Action>, t0: Sys, w: WorkerId, other: Job) returns (run: seq<Action>, t: Sys)
    requires Valid(s, run0) && t0 == Exec(s, run0) && (w == 1 || w == 2)
    requires t0.db.jobs == map[w := KEYED_NEW, 3 - w := other] && 0 <= t0.clock
    requires other == KEYED_NEW || other.status == Running
    requires w in t0.slots && t0.slots[w] == Slot(w, LEASE, None)
    requires w !in t0.db.locks && !KeyHeld(t0.db, 5)
    ensures Valid(s, run) && t == Exec(s, run) && t.clock == t0.clock
    ensures t.db.jobs == t0.db.jobs[w := Begun(w, t0.clock)]
    ensures t.db.locks == t0.db.locks[w := Lock(5, w, w, Held, t0.clock, t0.clock + LEASE, None)]
    ensures t.slots == t0.slots[w := HandlingSlot(w, t0.clock)]
  {
    run, t := WorkerClaims(s, run0, t0, w, other);
    OneMore(s, run, Start(w));
    run := run + [Start(w)];
    t := Exec(s, run);
    OneMore(s, run, EnterHandler(w));
    run := run + [EnterHandler(w)];
    t := Exec(s, run);
  }

  lemma WorkerClaims(s: Sys, run0: seq<Action>, t0: Sys, w: WorkerId, other: Job) returns (run: seq<Action>, t: Sys)
    requires Valid(s, run0) && t0 == Exec(s, run0) && (w == 1 || w == 2)
    requires t0.db.jobs == map[w := KEYED_NEW, 3 - w := other] && 0 <= t0.clock
    requires other == KEYED_NEW || other.status == Running
    requires w in t0.slots && t0.slots[w] == Slot(w, LEASE, None)
    requires w !in t0.db.locks && !KeyHeld(t0.db, 5)
    ensures Valid(s, run) && t == Exec(s, run) && t.clock == t0.clock
    ensures t.db.jobs == t0.db.jobs[w := TakenBy(w, t0.clock)]
    ensures t.db.locks == t0.db.locks[w := Lock(5, w, w, Held, t0.clock, t0.clock + LEASE, None)]
    ensures t.slots == t0.slots[w := Slot(w, LEASE, Some(Flight(w, TakenBy(w, t0.clock), AfterLock, None)))]
  {
    OneMore(s, run0, Claim(w, w));
    run := run0 + [Claim(w, w)];
    t := Exec(s, run);
    OneMore(s, run, TakeLock(w, w));
    run := run + [TakeLock(w, w)];
    t := Exec(s, run);
  }

  /**
   A heartbeat that fires after its lease expired breaks exclusion: the lock was
   expired and taken by another job, the row was not, and the late heartbeat makes
   the first lease live again while both handlers run.
   */
  lemma LateHeartbeatBreaksExclusion() returns (s: Sys, run: seq<Action>)
    ensures Fresh(s) && Valid(s, run) && !TimelyRun(s, run)
    ensures LiveInHandler(Exec(s, run), 1) && LiveInHandler(Exec(s, run), 2)
    ensures Exec(s, run).slots[1].flight.value.row.lockKey == Exec(s, run).slots[2].flight.value.row.lockKey == Some(5)
  {
    s := Sys(Db(map[], map[], [], 0), 0, map[1 := Slot(1, LEASE, None), 2 := Slot(2, LEASE, None)], map[]);
    var t: Sys;
    run, t := TwoKeyedJobs(s);
    run, t := WorkerEnters(s, run, t, 1, KEYED_NEW);
    run, t := LockExpires(s, run, t);
    run, t := WorkerEnters(s, run, t, 2, Begun(1, 0));
    run, t := LateBeat(s, run, t);
    if TimelyRun(s, run) { HandlersExclude(s, run, 1, 2); }
  }

  lemma LateBeat(s: Sys, run0: seq<Action>, t0: Sys) returns (run: seq<Action>, t: Sys)
    requires Valid(s, run0) && t0 == Exec(s, run0) && t0.clock == LEASE
    requires t0.db.jobs == map[1 := Begun(1, 0), 2 := Begun(2, LEASE)]
    requires t0.slots == map[1 := HandlingSlot(1, 0), 2 := HandlingSlot(2, LEASE)]
    ensures Valid(s, run) && t == Exec(s, run) && LiveInHandler(t, 1) && LiveInHandler(t, 2)
    ensures t.slots[1].flight.value.row.lockKey == t.slots[2].flight.value.row.lockKey == Some(5)
  {
    BeatIsLate(t0);
    OneMore(s, run0, BeatLease(1));
    run := run0 + [BeatLease(1)];
    t := Exec(s, run);
  }

  lemma BeatIsLate(t0: Sys)
    requires t0.clock == LEASE
    requires t0.db.jobs == map[1 := Begun(1, 0), 2 := Begun(2, LEASE)]
    requires t0.slots == map[1 := HandlingSlot(1, 0), 2 := HandlingSlot(2, LEASE)]
    ensures Enabled(t0, BeatLease(1))
    ensures var t := Next(t0, BeatLease(1));
            && LiveInHandler(t, 1) && LiveInHandler(t, 2)
            && t.slots[1].flight.value.row.lockKey == t.slots[2].flight.value.row.lockKey == Some(5)
  {
  }

  lemma LockExpires(s: Sys, run0: seq<Action>, t0: Sys) returns (run: seq<Action>, t: Sys)
    requires Valid(s, run0) && t0 == Exec(s, run0) && t0.clock == 0
    requires t0.db.locks == map[1 := Lock(5, 1, 1, Held, 0, LEASE, None)]
    ensures Valid(s, run) && t == Exec(s, run) && t.clock == LEASE
    ensures t.db.jobs == t0.db.jobs && t.slots == t0.slots
    ensures t.db.locks == map[1 := Lock(5, 1, 1, Expired, 0, LEASE, None)] && !KeyHeld(t.db, 5)
  {
    OneMore(s, run0, Tick(LEASE));
    run := run0 + [Tick(LEASE)];
    t := Exec(s, run);
    OneMore(s, run, ExpireLocks(LEASE));
    run := run + [ExpireLocks(LEASE)];
    t := Exec(s, run);
  }

  // ------------------------------------------------------------- a stale sweep

  const ROW_LATER := ROW_NEW.(createdAt := LEASE + MINUTE, runAfter := LEASE + MINUTE)

  /** Job 1 is claimed and its lease expires. */
  lemma LeaseRunsOut(s: Sys) returns (run: seq<Action>, t: Sys)
    requires s == Sys(Db(map[], map[], [], 0), 0, map[1 := Slot(7, LEASE, None), 2 := Slot(8, LEASE, None)], map[])
    ensures Valid(s, run) && t == Exec(s, run) && t.clock == LEASE && t.db.jobs == map[1 := ROW_TAKEN]
    ensures t.slots == map[1 := Slot(7, LEASE, Some(Flight(1, ROW_TAKEN, AfterClaim, None))), 2 := Slot(8, LEASE, None)]
    ensures t.sweeps == map[]
  {
    run := [];
    OneMore(s, run, Enqueue(1, TWO_ATTEMPTS));
    run := run + [Enqueue(1, TWO_ATTEMPTS)];
    t := Exec(s, run);
    assert t.db.jobs == map[1 := ROW_NEW];
    OneMore(s, run, Claim(1, 1));
    run := run + [Claim(1, 1)];
    t := Exec(s, run);
    OneMore(s, run, Tick(LEASE));
    run := run + [Tick(LEASE)];
    t := Exec(s, run);
  }

  /** A sweep reads the expired job at that moment. */
  lemma SweepReadsJob(s: Sys) returns (run: seq<Action>, t: Sys)
    requires s == Sys(Db(map[], map[], [], 0), 0, map[1 := Slot(7, LEASE, None), 2 := Slot(8, LEASE, None)], map[])
    ensures Valid(s, run) && t == Exec(s, run) && t.clock == LEASE && t.db.jobs == map[1 := ROW_TAKEN]
    ensures t.slots == map[1 := Slot(7, LEASE, Some(Flight(1, ROW_TAKEN, AfterClaim, None))), 2 := Slot(8, LEASE, None)]
    ensures t.sweeps == map[1 := Sweep(9, LEASE, [(1, ROW_TAKEN)])]
  {
    run, t := LeaseRunsOut(s);
    OneMore(s, run, BeginSweep(1, 9, [1]));
    run := run + [BeginSweep(1, 9, [1])];
    t := Exec(s, run);
    assert t.sweeps[1].todo == [(1, ROW_TAKEN)];
  }

  /** A minute later job 2 arrives and becomes due; nothing is ahead of it. */
  lemma SecondJobWaits(s: Sys, run0: seq<Action>, t0: Sys) returns (run: seq<Action>, t: Sys)
    requires Valid(s, run0) && t0 == Exec(s, run0) && t0.clock == LEASE && t0.db.jobs == map[1 := ROW_TAKEN]
    ensures Valid(s, run) && t == Exec(s, run) && t.clock == LEASE + MINUTE + 1
    ensures t.db.jobs == map[1 := ROW_TAKEN, 2 := ROW_LATER] && t.slots == t0.slots && t.sweeps == t0.sweeps
  {
    OneMore(s, run0, Tick(LEASE + MINUTE));
    run := run0 + [Tick(LEASE + MINUTE)];
    t := Exec(s, run);
    OneMore(s, run, Enqueue(2, TWO_ATTEMPTS));
    run := run + [Enqueue(2, TWO_ATTEMPTS)];
    t := Exec(s, run);
    OneMore(s, run, Tick(LEASE + MINUTE + 1));
    run := run + [Tick(LEASE + MINUTE + 1)];
    t := Exec(s, run);
  }

  /**
   A sweep that read its clock a minute ago sends its job back with a run_after
   that is already over: the job passes one that was due and had nothing ahead.
   */
  lemma StaleSweepOvertakes() returns (s: Sys, before: seq<Action>, run: seq<Action>)
    ensures Fresh(s) && Valid(s, before) && Valid(Exec(s, before), run)
    ensures var t := Exec(s, before);
            && Waits(t, run, 2) && t.db.jobs[2].runAfter < t.clock
            && |Ahead(t.db, 2)| == 0 && AllClaims(run) == 1
  {
    s := Sys(Db(map[], map[], [], 0), 0, map[1 := Slot(7, LEASE, None), 2 := Slot(8, LEASE, None)], map[]);
    var t: Sys;
    before, t := SweepReadsJob(s);
    before, t := SecondJobWaits(s, before, t);
    assert Ahead(t.db, 2) == {};
    var a, b := SweepOne(1, RETRY_MIN), Claim(2, 1);
    run := [a, b];
    var u := Next(t, a);
    assert t.sweeps[1].todo[0] == (1, ROW_TAKEN);
    assert u.db.jobs == map[1 := ROW_BACK, 2 := ROW_LATER];
    assert run[1..] == [b] && [b][1..] == [];
    var v := Next(u, b);
    assert Valid(v, []);
    assert Valid(u, [b]);
    assert Waits(v, [], 2);
    assert Waits(u, [b], 2);
    assert AllClaims([b]) == 1;
  }
}
