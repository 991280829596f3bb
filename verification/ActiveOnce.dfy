/**
 The enqueue that wants at most one unfinished job of its type on a lock key. It
 looks one up and, finding none, inserts; no unique index stands behind it, so
 calls that interleave can both insert.
 */
module ActiveOnce {
  import opened Common
  import opened JobTables
  import opened JobProtocol
  import opened JobInvariants
  import opened JobRuns
  import opened EnqueueRules

  type CallId = int

  /** A call that found no unfinished job; `since` are the jobs inserted on its type and key after its look-up. */
  datatype Call = Call(jobType: JobType, key: int, req: EnqueueRequest, since: set<JobId>)

  datatype Model = Model(sys: Sys, calls: map<CallId, Call>)

  /** A call that finds a job, or whose insert is refused, just leaves. */
  datatype Step =
    | Queue(action: Action)
    | LookUp(call: CallId, key: int, req: EnqueueRequest)
    | Insert(call: CallId, id: JobId)
    | Leave(call: CallId)

  ghost predicate SomeUnfinished(db: Db, jobType: JobType, key: int) {
    exists j :: j in db.jobs && UnfinishedOn(db.jobs[j], jobType, key)
  }

  /** What the calls are for: at most one unfinished job of the type on the key. */
  ghost predicate OneUnfinished(db: Db, jobType: JobType, key: int) {
    forall j, k :: j in db.jobs && k in db.jobs && UnfinishedOn(db.jobs[j], jobType, key) && UnfinishedOn(db.jobs[k], jobType, key) ==> j == k
  }

  ghost predicate Can(m: Model, a: Step) {
    match a
    case Queue(action) => Enabled(m.sys, action)
    case LookUp(c, key, req) => c !in m.calls && req.lockKey == Some(key)
    case Insert(c, id) => c in m.calls && Enabled(m.sys, Enqueue(id, m.calls[c].req))
    case Leave(c) => c in m.calls
  }

  predicate Fits(req: EnqueueRequest, c: Call) { req.jobType == c.jobType && req.lockKey == Some(c.key) }

  /** Every call under way learns, for the theorems only, of a job inserted on its type and key. */
  function Told(calls: map<CallId, Call>, id: JobId, req: EnqueueRequest): map<CallId, Call> {
    map c | c in calls :: if Fits(req, calls[c]) then calls[c].(since := calls[c].since + {id}) else calls[c]
  }

  ghost function Do(m: Model, a: Step): Model
    requires Can(m, a)
  {
    match a
    case Queue(action) =>
      Model(Next(m.sys, action), if action.Enqueue? then Told(m.calls, action.id, action.req) else m.calls)
    case LookUp(c, key, req) =>
      if SomeUnfinished(m.sys.db, req.jobType, key) then m else m.(calls := m.calls[c := Call(req.jobType, key, req, {})])
    case Insert(c, id) =>
      Model(Next(m.sys, Enqueue(id, m.calls[c].req)), Told(m.calls - {c}, id, m.calls[c].req))
    case Leave(c) => m.(calls := m.calls - {c})
  }

  ghost predicate Runs(m: Model, run: seq<Step>)
    decreases |run|
  {
    run == [] || (Can(m, run[0]) && Runs(Do(m, run[0]), run[1..]))
  }

  ghost function After(m: Model, run: seq<Step>): Model
    requires Runs(m, run)
    decreases |run|
  {
    if run == [] then m else After(Do(m, run[0]), run[1..])
  }

  // --------------------------------------------------------------- invariant

  /** Since its look-up found none, an unfinished job a call would double was inserted after it. */
  ghost predicate CallOk(db: Db, c: Call) {
    && Fits(c.req, c)
    && forall j :: j in db.jobs && UnfinishedOn(db.jobs[j], c.jobType, c.key) ==> j in c.since
  }

  ghost predicate CallsOk(m: Model) { forall c :: c in m.calls ==> CallOk(m.sys.db, m.calls[c]) }

  ghost predicate ModelInv(m: Model) { Inv(m.sys) && OneSlotPerWorker(m.sys) && LeasesPositive(m.sys) && CallsOk(m) }

  /** A job that is unfinished after a step was so before, or the step inserted it. */
  lemma UnfinishedBefore(s: Sys, a: Action, j: JobId, jobType: JobType, key: int)
    requires Enabled(s, a) && Inv(s) && j in Next(s, a).db.jobs && UnfinishedOn(Next(s, a).db.jobs[j], jobType, key)
    ensures (j in s.db.jobs && UnfinishedOn(s.db.jobs[j], jobType, key))
            || (a.Enqueue? && a.id == j && a.req.jobType == jobType && a.req.lockKey == Some(key) && j !in s.db.jobs)
  {
    KeysAreOld(s, a, j);
  }

  lemma CallKept(s: Sys, a: Action, c: Call)
    requires Enabled(s, a) && Inv(s) && CallOk(s.db, c)
    ensures CallOk(Next(s, a).db, if a.Enqueue? && Fits(a.req, c) then c.(since := c.since + {a.id}) else c)
  {
    var t := Next(s, a);
    forall j | j in t.db.jobs && UnfinishedOn(t.db.jobs[j], c.jobType, c.key)
      ensures j in c.since || (a.Enqueue? && Fits(a.req, c) && j == a.id)
    {
      UnfinishedBefore(s, a, j, c.jobType, c.key);
    }
  }

  lemma CallsKept(m: Model, a: Step)
    requires Can(m, a) && Inv(m.sys) && CallsOk(m)
    ensures CallsOk(Do(m, a))
  {
    var t := Do(m, a);
    forall c | c in t.calls ensures CallOk(t.sys.db, t.calls[c]) {
      if a.Queue? { CallKept(m.sys, a.action, m.calls[c]); }
      if a.Insert? { CallKept(m.sys, Enqueue(a.id, m.calls[a.call].req), m.calls[c]); }
    }
  }

  lemma ModelInvKept(m: Model, a: Step)
    requires Can(m, a) && ModelInv(m)
    ensures ModelInv(Do(m, a))
  {
    CallsKept(m, a);
    if a.Queue? { InvKept(m.sys, a.action); }
    if a.Insert? { InvKept(m.sys, Enqueue(a.id, m.calls[a.call].req)); }
  }

  // ---------------------------------------------------------------- theorems

  /** The job the call would double is finished by the time it inserts. */
  ghost predicate ComesInTime(m: Model, c: CallId)
    requires c in m.calls
  {
    forall j :: j in m.calls[c].since && j in m.sys.db.jobs ==> !UnfinishedOn(m.sys.db.jobs[j], m.calls[c].jobType, m.calls[c].key)
  }

  lemma EnqueuedIsUnfinished(s: Sys, id: JobId, req: EnqueueRequest, j: JobId)
    requires Enabled(s, Enqueue(id, req))
    ensures var t := Next(s, Enqueue(id, req));
            && id !in s.db.jobs && id in t.db.jobs && t.db.jobs[id] == NewRow(req, s.clock)
            && (j in s.db.jobs ==> j in t.db.jobs && t.db.jobs[j] == s.db.jobs[j])
            && (j in t.db.jobs ==> j == id || j in s.db.jobs)
  {
  }

  /** An insert on the type and key leaves at most one unfinished job exactly when none was there. */
  lemma InsertIff(s: Sys, id: JobId, req: EnqueueRequest, key: int)
    requires Enabled(s, Enqueue(id, req)) && req.lockKey == Some(key)
    ensures OneUnfinished(Next(s, Enqueue(id, req)).db, req.jobType, key) <==> !SomeUnfinished(s.db, req.jobType, key)
  {
    var t := Next(s, Enqueue(id, req));
    EnqueuedIsUnfinished(s, id, req, id);
    assert UnfinishedOn(t.db.jobs[id], req.jobType, key);
    if j :| j in s.db.jobs && UnfinishedOn(s.db.jobs[j], req.jobType, key) { EnqueuedIsUnfinished(s, id, req, j); }
    if !SomeUnfinished(s.db, req.jobType, key) {
      forall j | j in t.db.jobs && UnfinishedOn(t.db.jobs[j], req.jobType, key) ensures j == id { EnqueuedIsUnfinished(s, id, req, j); }
    }
  }

  /** A call that inserts keeps its promise exactly when every job inserted since its look-up has finished. */
  lemma CallInsertIff(m: Model, c: CallId, id: JobId)
    requires Can(m, Insert(c, id)) && CallsOk(m)
    ensures OneUnfinished(Do(m, Insert(c, id)).sys.db, m.calls[c].jobType, m.calls[c].key) <==> ComesInTime(m, c)
  {
    assert CallOk(m.sys.db, m.calls[c]);
    InsertIff(m.sys, id, m.calls[c].req, m.calls[c].key);
  }

  /** Jobs of the type reach the key through these calls only. */
  ghost predicate OnlyCalls(run: seq<Step>, jobType: JobType, key: int) {
    forall i :: 0 <= i < |run| && run[i].Queue? && run[i].action.Enqueue? ==>
      !(run[i].action.req.jobType == jobType && run[i].action.req.lockKey == Some(key))
  }

  /** Every call of the run on the type and key that inserts comes in time. */
  ghost predicate AllInTime(m: Model, run: seq<Step>, jobType: JobType, key: int)
    requires Runs(m, run)
    decreases |run|
  {
    run == [] ||
    ((run[0].Insert? && m.calls[run[0].call].jobType == jobType && m.calls[run[0].call].key == key ==> ComesInTime(m, run[0].call))
     && AllInTime(Do(m, run[0]), run[1..], jobType, key))
  }

  ghost predicate AlwaysOne(m: Model, run: seq<Step>, jobType: JobType, key: int)
    requires Runs(m, run)
    decreases |run|
  {
    OneUnfinished(m.sys.db, jobType, key) && (run == [] || AlwaysOne(Do(m, run[0]), run[1..], jobType, key))
  }

  lemma OtherStepsKeepOne(s: Sys, a: Action, jobType: JobType, key: int)
    requires Enabled(s, a) && Inv(s) && OneUnfinished(s.db, jobType, key)
    requires a.Enqueue? ==> !(a.req.jobType == jobType && a.req.lockKey == Some(key))
    ensures OneUnfinished(Next(s, a).db, jobType, key)
  {
    var t := Next(s, a);
    forall j, k | j in t.db.jobs && k in t.db.jobs && UnfinishedOn(t.db.jobs[j], jobType, key) && UnfinishedOn(t.db.jobs[k], jobType, key)
      ensures j == k
    {
      UnfinishedBefore(s, a, j, jobType, key);
      UnfinishedBefore(s, a, k, jobType, key);
    }
  }

  lemma StepIff(m: Model, a: Step, jobType: JobType, key: int)
    requires Can(m, a) && ModelInv(m) && OneUnfinished(m.sys.db, jobType, key) && OnlyCalls([a], jobType, key)
    ensures OneUnfinished(Do(m, a).sys.db, jobType, key) <==>
            (a.Insert? && m.calls[a.call].jobType == jobType && m.calls[a.call].key == key ==> ComesInTime(m, a.call))
  {
    if a.Queue? {
      assert [a][0] == a;
      OtherStepsKeepOne(m.sys, a.action, jobType, key);
    }
    if a.Insert? {
      assert CallOk(m.sys.db, m.calls[a.call]);
      if m.calls[a.call].jobType == jobType && m.calls[a.call].key == key {
        CallInsertIff(m, a.call, a.id);
      } else {
        OtherStepsKeepOne(m.sys, Enqueue(a.id, m.calls[a.call].req), jobType, key);
      }
    }
  }

  /**
   Over every run in which jobs of a type reach a lock key through these calls only:
   there is never more than one unfinished, exactly when every call that inserts
   comes after the end of each job inserted since its own look-up.
   */
  lemma {:induction false} AlwaysOneIff(m: Model, run: seq<Step>, jobType: JobType, key: int)
    requires Runs(m, run) && ModelInv(m) && OneUnfinished(m.sys.db, jobType, key) && OnlyCalls(run, jobType, key)
    ensures AlwaysOne(m, run, jobType, key) <==> AllInTime(m, run, jobType, key)
    decreases |run|
  {
    if run != [] {
      OnlyCallsSplit(run, jobType, key);
      StepIff(m, run[0], jobType, key);
      ModelInvKept(m, run[0]);
      if OneUnfinished(Do(m, run[0]).sys.db, jobType, key) { AlwaysOneIff(Do(m, run[0]), run[1..], jobType, key); }
      else { NotOne(Do(m, run[0]), run[1..], jobType, key); }
    }
  }

  lemma NotOne(m: Model, run: seq<Step>, jobType: JobType, key: int)
    requires Runs(m, run) && !OneUnfinished(m.sys.db, jobType, key)
    ensures !AlwaysOne(m, run, jobType, key)
  {
  }

  lemma OnlyCallsSplit(run: seq<Step>, jobType: JobType, key: int)
    requires run != [] && OnlyCalls(run, jobType, key)
    ensures OnlyCalls([run[0]], jobType, key) && OnlyCalls(run[1..], jobType, key)
  {
    forall i | 0 <= i < |run[1..]| && run[1..][i].Queue? && run[1..][i].action.Enqueue?
      ensures !(run[1..][i].action.req.jobType == jobType && run[1..][i].action.req.lockKey == Some(key))
    {
      assert run[1..][i] == run[i + 1];
    }
  }

  // ------------------------------------------------------- two calls that cross

  lemma {:induction false} OneMoreStep(m: Model, run: seq<Step>, a: Step)
    requires Runs(m, run) && Can(After(m, run), a)
    ensures Runs(m, run + [a]) && After(m, run + [a]) == Do(After(m, run), a)
    decreases |run|
  {
    if run == [] {
      assert run + [a] == [a] && [a][1..] == [];
      assert Runs(Do(m, a), []) && After(Do(m, a), []) == Do(m, a);
    } else {
      OneMoreStep(Do(m, run[0]), run[1..], a);
      assert (run + [a])[1..] == run[1..] + [a];
    }
  }

  const DISCOVERY := EnqueueRequest(ProjectDiscovery, 0, None, 0, 0, Some(5), 3, None, 0)
  const ROW := Job(ProjectDiscovery, 0, None, 0, 0, Some(5), 0, 0, Queued, 0, 3, None, None, 0, None, None)
  const EMPTY := Model(Sys(Db(map[], map[], [], 0), 0, map[], map[]), map[])

  const BOTH := EMPTY.(calls := map[1 := Call(ProjectDiscovery, 5, DISCOVERY, {}), 2 := Call(ProjectDiscovery, 5, DISCOVERY, {})])

  lemma BothLookUp() returns (run: seq<Step>)
    ensures run == [LookUp(1, 5, DISCOVERY), LookUp(2, 5, DISCOVERY)] && Runs(EMPTY, run) && After(EMPTY, run) == BOTH
  {
    run := [];
    OneMoreStep(EMPTY, run, LookUp(1, 5, DISCOVERY));
    run := run + [LookUp(1, 5, DISCOVERY)];
    OneMoreStep(EMPTY, run, LookUp(2, 5, DISCOVERY));
    run := run + [LookUp(2, 5, DISCOVERY)];
  }

  /** The first insert has happened, and the second call is still to make its own. */
  ghost predicate OneInserted(m: Model) {
    m.sys.db.jobs == map[1 := ROW] && 2 in m.calls && m.calls[2].req == DISCOVERY
  }

  lemma FirstInserts()
    ensures Can(BOTH, Insert(1, 1)) && OneInserted(Do(BOTH, Insert(1, 1)))
  {
    assert Do(BOTH, Insert(1, 1)).sys.db.jobs == map[1 := NewRow(DISCOVERY, 0)];
  }

  lemma SecondInserts(m: Model)
    requires OneInserted(m)
    ensures Can(m, Insert(2, 2)) && !OneUnfinished(Do(m, Insert(2, 2)).sys.db, ProjectDiscovery, 5)
  {
    var t := Do(m, Insert(2, 2));
    EnqueuedIsUnfinished(m.sys, 2, DISCOVERY, 1);
    assert 1 in t.sys.db.jobs && 2 in t.sys.db.jobs && UnfinishedOn(t.sys.db.jobs[1], ProjectDiscovery, 5) && UnfinishedOn(t.sys.db.jobs[2], ProjectDiscovery, 5);
  }

  lemma StartingPoint()
    ensures Fresh(EMPTY.sys) && ModelInv(EMPTY)
  {
    InvInit(EMPTY.sys);
  }

  ghost predicate NoEnqueue(run: seq<Step>) { forall i :: 0 <= i < |run| ==> !run[i].Queue? }

  lemma FirstOfTwo() returns (run: seq<Step>)
    ensures Runs(EMPTY, run) && NoEnqueue(run) && OneInserted(After(EMPTY, run))
  {
    run := BothLookUp();
    FirstInserts();
    OneMoreStep(EMPTY, run, Insert(1, 1));
    run := run + [Insert(1, 1)];
  }

  lemma OneMoreInserts(m: Model, run0: seq<Step>) returns (run: seq<Step>)
    requires Runs(m, run0) && NoEnqueue(run0) && OneInserted(After(m, run0))
    ensures Runs(m, run) && NoEnqueue(run) && !OneUnfinished(After(m, run).sys.db, ProjectDiscovery, 5)
  {
    SecondInserts(After(m, run0));
    OneMoreStep(m, run0, Insert(2, 2));
    run := run0 + [Insert(2, 2)];
  }

  /** Two scans that come upon one project at the same time both find no discovery of it, and both insert one. */
  lemma CrossingCallsInsertTwo() returns (run: seq<Step>)
    ensures Fresh(EMPTY.sys) && ModelInv(EMPTY) && Runs(EMPTY, run) && OnlyCalls(run, ProjectDiscovery, 5)
    ensures !OneUnfinished(After(EMPTY, run).sys.db, ProjectDiscovery, 5)
  {
    StartingPoint();
    run := FirstOfTwo();
    run := OneMoreInserts(EMPTY, run);
  }
}
