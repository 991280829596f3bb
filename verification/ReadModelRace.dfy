/**
 A run in which two refreshes of one group succeed and yet leave the stored row
 wrong: they write in the opposite order of their reads.
 */
module ReadModelRace {
  import opened Common
  import opened JobTables
  import opened JobProtocol
  import opened JobInvariants
  import opened JobRuns
  import opened WorkflowStatus
  import opened ReadModel

  const LEASE: Time := 30 * SECOND
  const REQUEST := EnqueueRequest(ConfigReload, 0, None, 0, 0, None, 3, None, 0)

  const ROW_NEW := Job(ConfigReload, 0, None, 0, 0, None, 0, 0, Queued, 0, 3, None, None, 0, None, None)
  const ROW_TAKEN := ROW_NEW.(status := Running, leasedBy := Some(7), leaseExpires := Some(LEASE), attempts := 1)
  const ROW_FAILED := ROW_TAKEN.(status := Failed, finishedAt := Some(0))

  const HALFWAY := Workflow(AggRunning, 0, 1)
  const COMPLETE := Workflow(AggFailed, 1, 1)

  const QUEUE := Sys(Db(map[], map[], [], 0), 0, map[1 := Slot(7, LEASE, None)], map[])

  // --------------------------------------------------- the group of a single job

  lemma WithOne(row: Job, st: Status)
    requires row.group == 0
    ensures |With(map[1 := row], 0, st)| == if st == row.status then 1 else 0
  {
    assert With(map[1 := row], 0, st) == if st == row.status then {1} else {};
  }

  /** The group has a job and this summary. */
  ghost predicate Shows(jobs: map<JobId, Job>, w: Workflow) { Members(jobs, 0) != {} && Summary(jobs, 0) == w }

  lemma TakenShows()
    ensures Shows(map[1 := ROW_TAKEN], HALFWAY)
  {
    CountsOfOne(ROW_TAKEN);
  }

  lemma FailedShows()
    ensures Shows(map[1 := ROW_FAILED], COMPLETE)
  {
    CountsOfOne(ROW_FAILED);
  }

  lemma CountsOfOne(row: Job)
    requires row.group == 0
    ensures Members(map[1 := row], 0) != {}
    ensures row.status == Running ==> CountsOf(map[1 := row], 0) == Counts(0, 1, 0, 0, 0)
    ensures row.status == Failed ==> CountsOf(map[1 := row], 0) == Counts(0, 0, 0, 1, 0)
  {
    WithOne(row, Queued);
    WithOne(row, Running);
    WithOne(row, Succeeded);
    WithOne(row, Failed);
    WithOne(row, Cancelled);
    assert 1 in Members(map[1 := row], 0);
  }

  // ---------------------------------------------------------- the steps of the queue

  lemma QueueStep(m: Model, run: seq<Step>, a: Action)
    requires Runs(m, run) && Enabled(After(m, run).sys, a)
    ensures Runs(m, run + [Queue(a)])
    ensures var t, u := After(m, run), After(m, run + [Queue(a)]);
            u.sys == Next(t.sys, a) && u.rows == t.rows && u.pending == t.pending && |u.tables| == |t.tables| + 1
  {
    AppendedRun(m, run, Queue(a));
  }

  lemma JobIsTaken(m: Model) returns (run: seq<Step>)
    requires m == Model(QUEUE, map[], map[], [map[]], map[])
    ensures Runs(m, run)
    ensures var t := After(m, run);
            && t.sys.clock == 0 && t.sys.db.jobs == map[1 := ROW_TAKEN]
            && t.sys.slots == map[1 := Slot(7, LEASE, Some(Flight(1, ROW_TAKEN, AfterClaim, None)))]
            && t.rows == map[] && t.pending == map[] && |t.tables| == 3
  {
    run := [];
    QueueStep(m, run, Enqueue(1, REQUEST));
    run := run + [Queue(Enqueue(1, REQUEST))];
    assert After(m, run).sys.db.jobs == map[1 := ROW_NEW];
    QueueStep(m, run, Claim(1, 1));
    run := run + [Queue(Claim(1, 1))];
  }

  lemma JobFails(m: Model, run0: seq<Step>) returns (run: seq<Step>)
    requires Runs(m, run0)
    requires After(m, run0).sys.clock == 0 && After(m, run0).sys.db.jobs == map[1 := ROW_TAKEN]
    requires After(m, run0).sys.slots == map[1 := Slot(7, LEASE, Some(Flight(1, ROW_TAKEN, AfterClaim, None)))]
    ensures Runs(m, run)
    ensures var t, u := After(m, run0), After(m, run);
            u.sys.db.jobs == map[1 := ROW_FAILED] && u.rows == t.rows && u.pending == t.pending && |u.tables| == |t.tables| + 1
  {
    QueueStep(m, run0, EndPass(1, NoHandler, RETRY_MIN));
    run := run0 + [Queue(EndPass(1, NoHandler, RETRY_MIN))];
  }

  // ------------------------------------------------------------ the two refreshes

  lemma ReadStep(m: Model, id: RefreshId, w: Workflow)
    requires Shows(m.sys.db.jobs, w) && id !in m.pending && m.tables != []
    ensures Can(m, Read(id, 0))
    ensures Do(m, Read(id, 0)) == m.(pending := m.pending[id := Pending(0, w, |m.tables| - 1)])
  {
  }

  lemma RefreshReads(m: Model, run: seq<Step>, id: RefreshId, w: Workflow)
    requires Runs(m, run) && Shows(After(m, run).sys.db.jobs, w)
    requires id !in After(m, run).pending && After(m, run).tables != []
    ensures Runs(m, run + [Read(id, 0)])
    ensures After(m, run + [Read(id, 0)]) ==
            After(m, run).(pending := After(m, run).pending[id := Pending(0, w, |After(m, run).tables| - 1)])
  {
    ReadStep(After(m, run), id, w);
    AppendedRun(m, run, Read(id, 0));
  }

  lemma StartingPoint(m: Model)
    requires m == Model(QUEUE, map[], map[], [map[]], map[])
    ensures Starts(m)
  {
  }

  /** One refresh has read the group while its job ran, and no other is under way. */
  ghost predicate OneLeft(t: Model) {
    1 in t.pending && t.pending[1] == Pending(0, HALFWAY, 2) && forall id :: id in t.pending ==> id == 1
  }

  lemma FirstPending(before: Model, t: Model)
    requires before.pending == map[] && t.pending == before.pending[1 := Pending(0, HALFWAY, 2)]
    ensures OneLeft(t)
  {
  }

  /** The job is claimed, a refresh reads that, and the job fails. */
  lemma FirstHasRead(m: Model) returns (run: seq<Step>)
    requires m == Model(QUEUE, map[], map[], [map[]], map[])
    ensures Runs(m, run)
    ensures var t := After(m, run);
            && t.sys.db.jobs == map[1 := ROW_FAILED] && t.rows == map[] && |t.tables| == 4
            && OneLeft(t)
  {
    run := JobIsTaken(m);
    TakenShows();
    RefreshReads(m, run, 1, HALFWAY);
    FirstPending(After(m, run), After(m, run + [Read(1, 0)]));
    run := JobFails(m, run + [Read(1, 0)]);
  }

  lemma WriteStep(t: Model, u: Model, at: nat)
    requires OneLeft(t) && u == t.(pending := t.pending[2 := Pending(0, COMPLETE, at)])
    ensures Can(u, Write(2))
    ensures var v := Do(u, Write(2)); v.sys == t.sys && 0 in v.rows && v.rows[0] == COMPLETE && OneLeft(v)
  {
    assert u.pending[2] == Pending(0, COMPLETE, at);
  }

  /** The second refresh has read the group, and nothing has been written. */
  ghost predicate BothRead(t: Model, u: Model) {
    OneLeft(t) && t.tables != [] && u == t.(pending := t.pending[2 := Pending(0, COMPLETE, |t.tables| - 1)])
  }

  /** A second refresh reads the failed job. */
  lemma SecondReads(m: Model, run: seq<Step>)
    requires Runs(m, run) && Shows(After(m, run).sys.db.jobs, COMPLETE) && After(m, run).tables != [] && OneLeft(After(m, run))
    ensures Runs(m, run + [Read(2, 0)]) && BothRead(After(m, run), After(m, run + [Read(2, 0)]))
  {
    RefreshReads(m, run, 2, COMPLETE);
  }

  /** It writes that. */
  lemma SecondWrites(m: Model, run: seq<Step>, t: Model)
    requires Runs(m, run) && BothRead(t, After(m, run))
    ensures Runs(m, run + [Write(2)])
    ensures var u := After(m, run + [Write(2)]); u.sys == t.sys && 0 in u.rows && u.rows[0] == COMPLETE && OneLeft(u)
  {
    WriteStep(t, After(m, run), |t.tables| - 1);
    AppendedRun(m, run, Write(2));
  }

  lemma LateWrite(t: Model)
    requires Shows(t.sys.db.jobs, COMPLETE) && 0 in t.rows && t.rows[0] == COMPLETE && OneLeft(t)
    ensures Can(t, Write(1))
    ensures var u := Do(t, Write(1));
            && Agreeing(t, 0) && !Agreeing(u, 0)
            && t.rows[0].current == 1 && 0 in u.rows && u.rows[0].current == 0 && forall id :: id !in u.pending
  {
  }

  /**
   Both refreshes succeed, the row agreed and was complete, and the write that
   comes last takes both away: agreement is lost and progress falls.
   */
  lemma LateWriteLosesAgreement() returns (m: Model, run: seq<Step>)
    ensures Starts(m) && Runs(m, run) && Can(After(m, run), Write(1))
    ensures var t := After(m, run);
            var u := Do(t, Write(1));
            && Agreeing(t, 0) && !Agreeing(u, 0)
            && t.rows[0].current == 1 && 0 in u.rows && u.rows[0].current == 0 && forall id :: id !in u.pending
  {
    m := Model(QUEUE, map[], map[], [map[]], map[]);
    StartingPoint(m);
    run := FirstHasRead(m);
    var t := After(m, run);
    FailedShows();
    SecondReads(m, run);
    SecondWrites(m, run + [Read(2, 0)], t);
    run := run + [Read(2, 0)] + [Write(2)];
    LateWrite(After(m, run));
  }
}
