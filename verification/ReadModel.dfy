/**
 The workflow rows beside the queue, with a refresh in its two statements: the
 counts of a group are read at one moment and its row is written at another.
 Between them the queue moves on and other refreshes read and write.
 */
module ReadModel {
  import opened Common
  import opened JobTables
  import opened JobProtocol
  import opened JobInvariants
  import opened JobRuns
  import opened WorkflowStatus

  type RefreshId = int

  /** A refresh that has read the counts of its group but not written its row; `at` says when it read. */
  datatype Pending = Pending(group: int, row: Workflow, at: nat)

  /**
   The queue, the stored rows, the refreshes between their statements, and two
   records kept for the statements of the theorems: every jobs table so far, and
   when the row of each group was read.
   */
  datatype Model = Model(
    sys: Sys, rows: map<int, Workflow>, pending: map<RefreshId, Pending>,
    tables: seq<map<JobId, Job>>, readAt: map<int, nat>)

  datatype Step =
    | Queue(action: Action)
    | Read(refresh: RefreshId, group: int)
    | Write(refresh: RefreshId)
    | Drop(refresh: RefreshId)

  ghost predicate Can(m: Model, a: Step) {
    match a
    case Queue(action) => Enabled(m.sys, action)
    case Read(id, _) => id !in m.pending && m.tables != []
    case Write(id) => id in m.pending
    case Drop(id) => id in m.pending
  }

  /** A refresh of a group without jobs ends at its read; a failing one is dropped. */
  ghost function Do(m: Model, a: Step): Model
    requires Can(m, a)
  {
    match a
    case Queue(action) => m.(sys := Next(m.sys, action), tables := m.tables + [Next(m.sys, action).db.jobs])
    case Read(id, g) =>
      if Members(m.sys.db.jobs, g) == {} then m
      else m.(pending := m.pending[id := Pending(g, Summary(m.sys.db.jobs, g), |m.tables| - 1)])
    case Write(id) =>
      var p := m.pending[id];
      m.(rows := m.rows[p.group := p.row], readAt := m.readAt[p.group := p.at], pending := m.pending - {id})
    case Drop(id) => m.(pending := m.pending - {id})
  }

  ghost predicate Runs(m: Model, run: seq<Step>)
    decreases |run|
  {
    run == [] || (Can(m, run[0]) && Runs(Do(m, run[0]), run[1..]))
  }

  ghost function After(m: Model, run: seq<Step>): Model
    requires Runs(m, run)
    decreases |run|
  {
    if run == [] then m else After(Do(m, run[0]), run[1..])
  }

  /** A fresh queue without rows and refreshes. */
  ghost predicate Starts(m: Model) {
    Fresh(m.sys) && m.rows == map[] && m.pending == map[] && m.readAt == map[] && m.tables == [m.sys.db.jobs]
  }

  // --------------------------------------------------------------- invariant

  /** The row is the summary of the group in the table of that moment. */
  ghost predicate ReadFrom(tables: seq<map<JobId, Job>>, g: int, row: Workflow, at: nat) {
    at < |tables| && row == Summary(tables[at], g)
  }

  ghost predicate RowsFrom(m: Model) {
    && m.tables != [] && m.tables[|m.tables| - 1] == m.sys.db.jobs
    && m.rows.Keys == m.readAt.Keys
    && (forall id :: id in m.pending ==> ReadFrom(m.tables, m.pending[id].group, m.pending[id].row, m.pending[id].at))
    && (forall g :: g in m.rows ==> ReadFrom(m.tables, g, m.rows[g], m.readAt[g]))
  }

  /** Finished jobs only become more from one table to a later one. */
  ghost predicate DoneMonotone(tables: seq<map<JobId, Job>>) {
    forall g, i, k :: 0 <= i <= k < |tables| ==> DoneOf(tables[i], g) <= DoneOf(tables[k], g)
  }

  ghost predicate QueueOk(s: Sys) { Inv(s) && OneSlotPerWorker(s) && LeasesPositive(s) }

  ghost predicate ModelInv(m: Model) { QueueOk(m.sys) && RowsFrom(m) && DoneMonotone(m.tables) }

  lemma MonotoneExtends(tables: seq<map<JobId, Job>>, next: map<JobId, Job>)
    requires DoneMonotone(tables) && tables != []
    requires forall g: int :: DoneOf(tables[|tables| - 1], g) <= DoneOf(next, g)
    ensures DoneMonotone(tables + [next])
  {
    var more := tables + [next];
    forall g, i, k | 0 <= i <= k < |more| ensures DoneOf(more[i], g) <= DoneOf(more[k], g) {
      if k < |tables| {
        assert DoneOf(tables[i], g) <= DoneOf(tables[k], g);
      } else if i < |tables| {
        assert DoneOf(tables[i], g) <= DoneOf(tables[|tables| - 1], g);
      }
    }
  }

  lemma MonotoneAfter(s: Sys, a: Action, tables: seq<map<JobId, Job>>)
    requires Enabled(s, a) && Inv(s) && DoneMonotone(tables) && tables != [] && tables[|tables| - 1] == s.db.jobs
    ensures DoneMonotone(tables + [Next(s, a).db.jobs])
  {
    forall g: int ensures DoneOf(tables[|tables| - 1], g) <= DoneOf(Next(s, a).db.jobs, g) { DoneGrows(s, a, g); }
    MonotoneExtends(tables, Next(s, a).db.jobs);
  }

  lemma RowsFromKept(m: Model, a: Step)
    requires Can(m, a) && RowsFrom(m)
    ensures RowsFrom(Do(m, a))
  {
    var t := Do(m, a);
    forall g, row, at: nat | ReadFrom(m.tables, g, row, at) ensures ReadFrom(t.tables, g, row, at) {
      assert t.tables[at] == m.tables[at];
    }
    if a.Read? {
      assert ReadFrom(m.tables, a.group, Summary(m.sys.db.jobs, a.group), |m.tables| - 1);
    }
  }

  lemma QueueKept(s: Sys, a: Action)
    requires Enabled(s, a) && QueueOk(s)
    ensures QueueOk(Next(s, a))
  {
    InvKept(s, a);
  }

  lemma TablesKept(m: Model, a: Step)
    requires Can(m, a) && RowsFrom(m) && DoneMonotone(m.tables) && QueueOk(m.sys)
    ensures DoneMonotone(Do(m, a).tables)
  {
    if a.Queue? { MonotoneAfter(m.sys, a.action, m.tables); }
  }

  lemma ModelInvKept(m: Model, a: Step)
    requires Can(m, a) && ModelInv(m)
    ensures ModelInv(Do(m, a))
  {
    RowsFromKept(m, a);
    TablesKept(m, a);
    if a.Queue? { QueueKept(m.sys, a.action); }
  }

  lemma {:induction false} ModelInvAlways(m: Model, run: seq<Step>)
    requires Runs(m, run) && ModelInv(m)
    ensures ModelInv(After(m, run))
    decreases |run|
  {
    if run != [] {
      ModelInvKept(m, run[0]);
      ModelInvAlways(Do(m, run[0]), run[1..]);
    }
  }

  lemma StartsInv(m: Model)
    requires Starts(m)
    ensures ModelInv(m)
  {
    InvInit(m.sys);
  }

  // --------------------------------------------------------------- agreement

  /** The stored row of the group is what a refresh would compute now. */
  ghost predicate Agreeing(m: Model, g: int) { g in m.rows && m.rows[g] == Summary(m.sys.db.jobs, g) }

  /** In every reachable state a stored row agrees exactly when the summary of its group is what it was when the row was read. */
  lemma AgreesIff(m: Model, run: seq<Step>, g: int)
    requires Starts(m) && Runs(m, run) && g in After(m, run).rows
    ensures var t := After(m, run);
            && g in t.readAt && t.readAt[g] < |t.tables|
            && (Agreeing(t, g) <==> Summary(t.tables[t.readAt[g]], g) == Summary(t.sys.db.jobs, g))
  {
    StartsInv(m);
    ModelInvAlways(m, run);
  }

  lemma WrittenRow(m: Model, id: RefreshId)
    requires RowsFrom(m) && id in m.pending
    ensures var p := m.pending[id];
            p.at < |m.tables|
            && (Agreeing(Do(m, Write(id)), p.group) <==> Summary(m.tables[p.at], p.group) == Summary(m.sys.db.jobs, p.group))
  {
    var p := m.pending[id];
    assert ReadFrom(m.tables, p.group, p.row, p.at);
    assert Do(m, Write(id)).rows[p.group] == p.row && Do(m, Write(id)).sys == m.sys;
  }

  /** A write leaves its row in agreement exactly when nothing has moved the summary of the group since its read. */
  lemma WriteAgreesIff(m: Model, run: seq<Step>, id: RefreshId)
    requires Starts(m) && Runs(m, run) && id in After(m, run).pending
    ensures var t := After(m, run);
            var p := t.pending[id];
            && p.at < |t.tables|
            && (Agreeing(Do(t, Write(id)), p.group) <==> Summary(t.tables[p.at], p.group) == Summary(t.sys.db.jobs, p.group))
  {
    StartsInv(m);
    ModelInvAlways(m, run);
    WrittenRow(After(m, run), id);
  }

  /** No change to a job of the group since the table of that moment. */
  ghost predicate QuietSince(m: Model, g: int, at: nat) {
    forall i :: at <= i < |m.tables| - 1 ==> SameGroup(m.tables[i], m.tables[i + 1], g)
  }

  lemma {:induction false} QuietSummary(m: Model, g: int, at: nat)
    requires at < |m.tables| && QuietSince(m, g, at)
    ensures Summary(m.tables[at], g) == Summary(m.tables[|m.tables| - 1], g)
    decreases |m.tables| - at
  {
    if at < |m.tables| - 1 {
      assert SameGroup(m.tables[at], m.tables[at + 1], g);
      SameGroupSameSummary(m.tables[at], m.tables[at + 1], g);
      QuietSummary(m, g, at + 1);
    }
  }

  /** A row agrees in every reachable state in which its last write read after the last change to the group. */
  lemma ReadAfterChangeAgrees(m: Model, run: seq<Step>, g: int)
    requires Starts(m) && Runs(m, run) && g in After(m, run).rows
    requires g in After(m, run).readAt && QuietSince(After(m, run), g, After(m, run).readAt[g])
    ensures Agreeing(After(m, run), g)
  {
    AgreesIff(m, run, g);
    var t := After(m, run);
    QuietSummary(t, g, t.readAt[g]);
    StartsInv(m);
    ModelInvAlways(m, run);
  }

  // ------------------------------------------------- catching up after a change

  /** The step is no write to a job of the group. */
  ghost predicate LeavesGroup(m: Model, a: Step, g: int)
    requires Can(m, a)
  {
    a.Queue? && TouchedJob(m.sys, a.action).Some? && TouchedJob(m.sys, a.action).value in Next(m.sys, a.action).db.jobs ==>
      Next(m.sys, a.action).db.jobs[TouchedJob(m.sys, a.action).value].group != g
  }

  ghost predicate LeftAlone(m: Model, run: seq<Step>, g: int)
    requires Runs(m, run)
    decreases |run|
  {
    run == [] || (LeavesGroup(m, run[0], g) && LeftAlone(Do(m, run[0]), run[1..], g))
  }

  ghost predicate Writes(m: Model, run: seq<Step>, g: int)
    requires Runs(m, run)
    decreases |run|
  {
    run != [] && ((run[0].Write? && m.pending[run[0].refresh].group == g) || Writes(Do(m, run[0]), run[1..], g))
  }

  /** No refresh of the group is under way whose reading is out of date. */
  ghost predicate NoneStale(m: Model, g: int) {
    forall id :: id in m.pending && m.pending[id].group == g ==> m.pending[id].row == Summary(m.sys.db.jobs, g)
  }

  lemma QuietStep(m: Model, a: Step, g: int)
    requires Can(m, a) && LeavesGroup(m, a, g) && NoneStale(m, g)
    ensures NoneStale(Do(m, a), g) && Summary(Do(m, a).sys.db.jobs, g) == Summary(m.sys.db.jobs, g)
    ensures Agreeing(m, g) || (a.Write? && m.pending[a.refresh].group == g) ==> Agreeing(Do(m, a), g)
  {
    if a.Queue? { OtherGroupsUnchanged(m.sys, a.action, g); }
  }

  /**
   Catching up: once no stale refresh of a group is under way, the first write to
   its row makes it agree, and it agrees until a job of the group changes again,
   whatever other refreshes and other groups do.
   */
  lemma {:induction false} CatchesUp(m: Model, run: seq<Step>, g: int)
    requires Runs(m, run) && LeftAlone(m, run, g) && NoneStale(m, g)
    requires Agreeing(m, g) || Writes(m, run, g)
    ensures Agreeing(After(m, run), g)
    decreases |run|
  {
    if run != [] {
      QuietStep(m, run[0], g);
      CatchesUp(Do(m, run[0]), run[1..], g);
    }
  }

  // ---------------------------------------------------------------- progress

  /** A write lowers the stored progress only if it read before the row it replaces was read. */
  lemma OnlyStaleWritesLower(m: Model, run: seq<Step>, id: RefreshId)
    requires Starts(m) && Runs(m, run) && id in After(m, run).pending
    ensures var t := After(m, run);
            var p := t.pending[id];
            p.group in t.rows && Do(t, Write(id)).rows[p.group].current < t.rows[p.group].current ==>
              p.group in t.readAt && p.at < t.readAt[p.group]
  {
    StartsInv(m);
    ModelInvAlways(m, run);
    WriteProgress(After(m, run), id);
  }

  lemma WriteProgress(m: Model, id: RefreshId)
    requires RowsFrom(m) && DoneMonotone(m.tables) && id in m.pending
    ensures var p := m.pending[id];
            p.group in m.rows && m.readAt[p.group] <= p.at ==> m.rows[p.group].current <= p.row.current
  {
    var p := m.pending[id];
    if p.group in m.rows && m.readAt[p.group] <= p.at {
      var at := m.readAt[p.group];
      assert ReadFrom(m.tables, p.group, m.rows[p.group], at) && ReadFrom(m.tables, p.group, p.row, p.at);
      DoneIs(m.tables[at], p.group);
      DoneIs(m.tables[p.at], p.group);
      assert DoneOf(m.tables[m.readAt[p.group]], p.group) <= DoneOf(m.tables[p.at], p.group);
    }
  }

  /** Each write of the run read no earlier than the row it replaces. */
  ghost predicate InReadOrder(m: Model, run: seq<Step>)
    requires Runs(m, run)
    decreases |run|
  {
    run == [] ||
    ((run[0].Write? && m.pending[run[0].refresh].group in m.readAt ==>
        m.readAt[m.pending[run[0].refresh].group] <= m.pending[run[0].refresh].at)
     && InReadOrder(Do(m, run[0]), run[1..]))
  }

  lemma RowProgress(m: Model, a: Step, g: int)
    requires Can(m, a) && RowsFrom(m) && DoneMonotone(m.tables) && g in m.rows
    requires a.Write? && m.pending[a.refresh].group in m.readAt ==> m.readAt[m.pending[a.refresh].group] <= m.pending[a.refresh].at
    ensures g in Do(m, a).rows && m.rows[g].current <= Do(m, a).rows[g].current
  {
    if a.Write? { WriteProgress(m, a.refresh); }
  }

  /** When writes land in the order of their reads, no stored progress ever falls. */
  lemma {:induction false} StoredProgressNeverFalls(m: Model, run: seq<Step>, g: int)
    requires Runs(m, run) && ModelInv(m) && InReadOrder(m, run) && g in m.rows
    ensures g in After(m, run).rows && m.rows[g].current <= After(m, run).rows[g].current
    decreases |run|
  {
    if run != [] {
      ModelInvKept(m, run[0]);
      RowProgress(m, run[0], g);
      StoredProgressNeverFalls(Do(m, run[0]), run[1..], g);
    }
  }

  lemma {:induction false} AppendedRun(m: Model, run: seq<Step>, a: Step)
    requires Runs(m, run) && Can(After(m, run), a)
    ensures Runs(m, run + [a]) && After(m, run + [a]) == Do(After(m, run), a)
    decreases |run|
  {
    if run == [] {
      assert run + [a] == [a] && [a][1..] == [];
      assert Runs(Do(m, a), []) && After(Do(m, a), []) == Do(m, a);
    } else {
      AppendedRun(Do(m, run[0]), run[1..], a);
      assert (run + [a])[1..] == run[1..] + [a];
    }
  }
}
