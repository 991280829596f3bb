/** The scan of one root by a single worker, with the loop of the worker written out. */
module RootScan {
  import opened Common
  import opened Paths
  import opened DirectoryScan
  import opened Traversal
  import opened TraversalResult

  /** What the root path turns out to be before the traversal starts. */
  datatype RootPath = Unavailable | RootLink | NotDirectory | RootDirectory

  /** Some run of the machine leads from one state to the other. */
  ghost predicate Reaches(w: Plan, known: set<string>, s: Scan, t: Scan) {
    exists run :: Valid(w, known, s, run) && Exec(w, known, s, run) == t
  }

  lemma {:induction false} RunAndStep(w: Plan, known: set<string>, s: Scan, run: seq<Step>, a: Step)
    requires Valid(w, known, s, run) && Can(w, Exec(w, known, s, run), a)
    ensures Valid(w, known, s, run + [a]) && Exec(w, known, s, run + [a]) == Do(w, known, Exec(w, known, s, run), a)
    decreases |run|
  {
    if run == [] {
      assert (run + [a])[1..] == [];
    } else {
      assert (run + [a])[1..] == run[1..] + [a];
      RunAndStep(w, known, Do(w, known, s, run[0]), run[1..], a);
    }
  }

  lemma OneMoreStep(w: Plan, known: set<string>, s: Scan, t: Scan, a: Step)
    requires Reaches(w, known, s, t) && Can(w, t, a)
    ensures Reaches(w, known, s, Do(w, known, t, a))
  {
    var run :| Valid(w, known, s, run) && Exec(w, known, s, run) == t;
    RunAndStep(w, known, s, run, a);
  }

  lemma ReachedInv(w: Plan, known: set<string>, s: Scan)
    requires PlanOk(w) && Reaches(w, known, Initial(1), s)
    ensures Inv(w, s)
  {
    var run :| Valid(w, known, Initial(1), run) && Exec(w, known, Initial(1), run) == s;
    InvInitial(w, 1);
    InvAlways(w, known, Initial(1), run);
  }

  // ------------------------------------------------------- shapes of the steps

  lemma SectionShape(w: Plan, known: set<string>, s: Scan, d: Path, k: nat)
    requires s.workers == [Working(d, k)] && d in w && k < |w[d].sections| && d in s.entered
    ensures Can(w, s, Step.Section(0))
    ensures var u := Do(w, known, s, Step.Section(0));
            && u.workers == [Working(d, k + 1)] && u.queue == s.queue && u.active == s.active
            && u.entered.Keys == s.entered.Keys && u.tally == Enter(s.tally, known, w[d].sections[k])
  {
  }

  lemma EnterFrom(t: Tally, known: set<string>, cs: seq<Section>, k: nat)
    requires k < |cs|
    ensures EnterAll(t, known, cs[k..]) == EnterAll(Enter(t, known, cs[k]), known, cs[k + 1..])
  {
    assert cs[k..] == [cs[k]] + cs[k + 1..];
    EnterAppend(t, known, [cs[k]], cs[k + 1..]);
    EnterOne(t, known, cs[k]);
  }

  /** A single worker enters the sections of its directory one after the other. */
  lemma {:induction false} EntersAll(w: Plan, known: set<string>, start: Scan, s: Scan, d: Path, k: nat) returns (t: Scan)
    requires Reaches(w, known, start, s) && s.workers == [Working(d, k)]
    requires d in w && d in s.entered && k <= |w[d].sections|
    ensures Reaches(w, known, start, t) && t.workers == [Working(d, |w[d].sections|)]
    ensures t.queue == s.queue && t.entered.Keys == s.entered.Keys
    ensures t.tally == EnterAll(s.tally, known, w[d].sections[k..])
    decreases |w[d].sections| - k
  {
    if k == |w[d].sections| {
      t := s;
    } else {
      SectionShape(w, known, s, d, k);
      OneMoreStep(w, known, start, s, Step.Section(0));
      EnterFrom(s.tally, known, w[d].sections, k);
      t := EntersAll(w, known, start, Do(w, known, s, Step.Section(0)), d, k + 1);
    }
  }

  lemma TakeShape(w: Plan, known: set<string>, s: Scan)
    requires Inv(w, s) && s.workers == [Ready] && s.queue != []
    ensures Can(w, s, Check(0))
    ensures var n := |s.queue| - 1; var d := s.queue[n];
            var u := Do(w, known, s, Check(0));
            && d in w && d !in s.entered
            && u.workers == [Working(d, 0)] && u.queue == s.queue[..n]
            && u.entered.Keys == s.entered.Keys + {d} && u.tally == s.tally
  {
    assert Pending(w, s, s.queue[|s.queue| - 1]);
  }

  lemma FinishShape(w: Plan, known: set<string>, s: Scan, d: Path)
    requires d in w && s.workers == [Working(d, |w[d].sections|)]
    ensures Can(w, s, Finish(0))
    ensures var u := Do(w, known, s, Finish(0));
            && u.workers == [Ready] && u.queue == s.queue + w[d].children
            && u.entered == s.entered && u.tally == s.tally
  {
    assert Woken([Ready]) == [Ready];
    assert s.workers[0 := Ready] == [Ready];
  }

  /** One turn of a single worker: it takes the last directory, reads it and queues its children. */
  lemma OneTurn(w: Plan, known: set<string>, s: Scan) returns (t: Scan)
    requires PlanOk(w) && Reaches(w, known, Initial(1), s) && s.workers == [Ready] && s.queue != []
    ensures var n := |s.queue| - 1; var d := s.queue[n];
            && d in w && d !in s.entered && t.entered.Keys == s.entered.Keys + {d}
            && Reaches(w, known, Initial(1), t) && t.workers == [Ready] && t.queue == s.queue[..n] + w[d].children
            && t.tally == EnterAll(s.tally, known, w[d].sections)
  {
    var d := s.queue[|s.queue| - 1];
    ReachedInv(w, known, s);
    TakeShape(w, known, s);
    OneMoreStep(w, known, Initial(1), s, Check(0));
    t := EntersAll(w, known, Initial(1), Do(w, known, s, Check(0)), d, 0);
    assert w[d].sections[0..] == w[d].sections;
    FinishShape(w, known, t, d);
    OneMoreStep(w, known, Initial(1), t, Finish(0));
    t := Do(w, known, t, Finish(0));
  }

  /** A run of the machine with one worker that ends with this tally. */
  ghost predicate OneWorkerResult(w: Plan, known: set<string>, tally: Tally) {
    exists t :: Reaches(w, known, Initial(1), t) && AllExited(t) && t.tally == tally
  }

  /** A single worker that finds nothing to do leaves. */
  lemma LastTurn(w: Plan, known: set<string>, s: Scan)
    requires PlanOk(w) && Reaches(w, known, Initial(1), s) && s.workers == [Ready] && s.queue == []
    ensures OneWorkerResult(w, known, s.tally)
  {
    ReachedInv(w, known, s);
    assert WorkingAt(s.workers) == {};
    OneMoreStep(w, known, Initial(1), s, Check(0));
    assert AllExited(Do(w, known, s, Check(0)));
  }

  /**
   Scans one root. An unusable root is one error and marks nothing; otherwise the
   counters are those every interleaving of more workers ends with.
   */
  method ScanRoot(result: SharedResult, root: RootPath, w: World)
    requires WorldOk(w) && result.tally == NOTHING
    modifies result
    ensures !root.RootDirectory? ==>
              result.tally == NOTHING.(errors := 1, directories := if root.RootLink? then 1 else 0, links := if root.RootLink? then 1 else 0)
    ensures root.RootDirectory? ==>
              OneWorkerResult(PlanOf(w), result.known, result.tally)
  {
    if root.Unavailable? || root.NotDirectory? {
      result.tally := result.tally.(errors := 1);
      return;
    }
    if root.RootLink? {
      result.tally := result.tally.(errors := 1, directories := 1, links := 1);
      return;
    }
    PlanOfOk(w);
    Traverse(result, w);
  }

  /** The loop of the only worker: the last directory off the stack, its children back on it. */
  method Traverse(result: SharedResult, w: World)
    requires WorldOk(w) && PlanOk(PlanOf(w)) && result.tally == NOTHING
    modifies result
    ensures OneWorkerResult(PlanOf(w), result.known, result.tally)
  {
    ghost var plan := PlanOf(w);
    ghost var s := Initial(1);
    assert Valid(plan, result.known, s, []);
    var queue := [[]];
    while queue != []
      invariant Reaches(plan, result.known, Initial(1), s) && s.workers == [Ready]
      invariant s.queue == queue && s.tally == result.tally
      decreases plan.Keys - s.entered.Keys
    {
      var n := |queue| - 1;
      var dir := queue[n];
      ghost var t := OneTurn(plan, result.known, s);
      queue := queue[..n];
      var children := result.ScanDirectory(dir, w.disk[dir], w.fate[dir]);
      queue := queue + children;
      s := t;
    }
    LastTurn(plan, result.known, s);
  }

  /** Any number of workers, in any interleaving, ends with the result of the one-worker loop. */
  lemma AsOneWorker(w: Plan, known: set<string>, one: Tally, n: nat, run: seq<Step>)
    requires PlanOk(w) && n > 0 && OneWorkerResult(w, known, one)
    requires Valid(w, known, Initial(n), run) && AllExited(Exec(w, known, Initial(n), run))
    ensures Exec(w, known, Initial(n), run).tally == one
  {
    var t :| Reaches(w, known, Initial(1), t) && AllExited(t) && t.tally == one;
    var single :| Valid(w, known, Initial(1), single) && Exec(w, known, Initial(1), single) == t;
    SameResult(w, known, n, run, 1, single);
  }
}
