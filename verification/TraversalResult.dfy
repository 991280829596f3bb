/**
 Every interleaving of the traversal ends, reads each reachable directory once,
 and leaves the counters and maps that a single worker leaves.
 */
module TraversalResult {
  import opened Common
  import opened Paths
  import opened DirectoryScan
  import opened Traversal
  import opened Sums

  // --------------------------------------------------------- sums of sections

  datatype Counter = Steps | Reads | Upserts | Discoveries | Directories | Links | Errors

  /** What one critical section adds to a counter. */
  function Amount(c: Counter, s: Section): nat {
    match c
    case Steps => 1
    case Reads => if s.Processed? then 1 else 0
    case Upserts => if s.Seen? then 1 else 0
    case Discoveries => if s.Discovery? then 1 else 0
    case Directories => if s.Seen? then s.directories else if s.Skipped? then 1 else 0
    case Links => if s.Seen? || s.Skipped? then s.links else 0
    case Errors => if s.Errored? then 1 else 0
  }

  function AmountAll(c: Counter, cs: seq<Section>): nat {
    if cs == [] then 0 else AmountAll(c, cs[..|cs| - 1]) + Amount(c, cs[|cs| - 1])
  }

  /** Sections entered so far, directory by directory. */
  ghost predicate Within(w: Plan, e: map<Path, nat>) {
    forall p :: p in e ==> p in w && e[p] <= |w[p].sections|
  }

  ghost function Amounts(w: Plan, c: Counter, e: map<Path, nat>): map<Path, nat>
    requires Within(w, e)
  {
    map p | p in e :: AmountAll(c, w[p].sections[..e[p]])
  }

  ghost function Total(w: Plan, c: Counter, e: map<Path, nat>): nat
    requires Within(w, e)
  {
    Sum(Amounts(w, c, e))
  }

  /** One more section of one directory adds its amount. */
  lemma TotalStep(w: Plan, c: Counter, e: map<Path, nat>, d: Path)
    requires Within(w, e) && d in e && e[d] < |w[d].sections|
    ensures Total(w, c, e[d := e[d] + 1]) == Total(w, c, e) + Amount(c, w[d].sections[e[d]])
  {
    var f := e[d := e[d] + 1];
    var v := AmountAll(c, w[d].sections[..f[d]]);
    assert w[d].sections[..e[d] + 1][..e[d]] == w[d].sections[..e[d]];
    assert Amounts(w, c, f) == Amounts(w, c, e)[d := v];
    SumSet(Amounts(w, c, e), d, v);
  }

  /** A directory whose sections have not begun adds nothing. */
  lemma TotalNew(w: Plan, c: Counter, e: map<Path, nat>, d: Path)
    requires Within(w, e) && d in w && d !in e
    ensures Total(w, c, e[d := 0]) == Total(w, c, e)
  {
    assert AmountAll(c, w[d].sections[..0]) == 0;
    assert Amounts(w, c, e[d := 0]) == Amounts(w, c, e)[d := 0];
    SumSet(Amounts(w, c, e), d, 0);
  }

  ghost function SeenKeys(w: Plan, e: map<Path, nat>): set<string>
    requires Within(w, e)
  {
    set p, i | p in e && 0 <= i < e[p] && w[p].sections[i].Seen? :: w[p].sections[i].key
  }

  ghost function ErroredKeys(w: Plan, e: map<Path, nat>): set<string>
    requires Within(w, e)
  {
    set p, i | p in e && 0 <= i < e[p] && w[p].sections[i].Errored? :: w[p].sections[i].key
  }

  /** What the counters must show after some sections, in whatever order. */
  datatype Account = Account(
    seen: set<string>, errored: set<string>,
    listed: nat, upserts: nat, discoveries: nat, directories: nat, links: nat, errors: nat)

  ghost function AccountOf(w: Plan, e: map<Path, nat>): Account
    requires Within(w, e)
  {
    Account(SeenKeys(w, e), ErroredKeys(w, e), Total(w, Reads, e), Total(w, Upserts, e), Total(w, Discoveries, e),
            Total(w, Directories, e), Total(w, Links, e), Total(w, Errors, e))
  }

  function Entered(a: Account, s: Section): Account {
    Account(a.seen + (if s.Seen? then {s.key} else {}), a.errored + (if s.Errored? then {s.key} else {}),
            a.listed + Amount(Reads, s), a.upserts + Amount(Upserts, s), a.discoveries + Amount(Discoveries, s),
            a.directories + Amount(Directories, s), a.links + Amount(Links, s), a.errors + Amount(Errors, s))
  }

  /** The shared counters agree with an account; a project is new once, however often its row is written. */
  ghost predicate Shows(t: Tally, known: set<string>, a: Account) {
    && t.processed == (a.listed > 0) && t.seen == a.seen && t.errored == a.errored
    && t.created == |a.seen - known| && t.created + t.updated == a.upserts
    && t.enqueued == a.discoveries && t.directories == a.directories && t.links == a.links && t.errors == a.errors
  }

  lemma OneMoreKey(seen: set<string>, known: set<string>, key: string)
    ensures |seen + {key} - known| == |seen - known| + if key in known || key in seen then 0 else 1
  {
    if key in known || key in seen {
      assert seen + {key} - known == seen - known;
    } else {
      assert seen + {key} - known == (seen - known) + {key};
    }
  }

  lemma ShowsStep(t: Tally, known: set<string>, a: Account, s: Section)
    requires Shows(t, known, a)
    ensures Shows(Enter(t, known, s), known, Entered(a, s))
  {
    match s
    case Seen(key, _, _) => OneMoreKey(t.seen, known, key);
    case Errored(_) => assert a.seen + {} == a.seen;
    case Processed => assert a.seen + {} == a.seen && a.errored + {} == a.errored;
    case Discovery => assert a.seen + {} == a.seen && a.errored + {} == a.errored;
    case Skipped(_) => assert a.seen + {} == a.seen && a.errored + {} == a.errored;
  }

  /** The tally is what the sections entered so far add up to. */
  ghost predicate TallyIs(w: Plan, known: set<string>, e: map<Path, nat>, t: Tally)
    requires Within(w, e)
  {
    Shows(t, known, AccountOf(w, e))
  }

  lemma AccountStep(w: Plan, e: map<Path, nat>, d: Path)
    requires Within(w, e) && d in e && e[d] < |w[d].sections|
    ensures AccountOf(w, e[d := e[d] + 1]) == Entered(AccountOf(w, e), w[d].sections[e[d]])
  {
    KeysStep(w, e, d);
    TotalStep(w, Reads, e, d);
    TotalStep(w, Upserts, e, d);
    TotalStep(w, Discoveries, e, d);
    TotalStep(w, Directories, e, d);
    TotalStep(w, Links, e, d);
    TotalStep(w, Errors, e, d);
  }

  lemma AccountNew(w: Plan, e: map<Path, nat>, d: Path)
    requires Within(w, e) && d in w && d !in e
    ensures AccountOf(w, e[d := 0]) == AccountOf(w, e)
  {
    KeysNew(w, e, d);
    TotalNew(w, Reads, e, d);
    TotalNew(w, Upserts, e, d);
    TotalNew(w, Discoveries, e, d);
    TotalNew(w, Directories, e, d);
    TotalNew(w, Links, e, d);
    TotalNew(w, Errors, e, d);
  }

  lemma KeysStep(w: Plan, e: map<Path, nat>, d: Path)
    requires Within(w, e) && d in e && e[d] < |w[d].sections|
    ensures var c := w[d].sections[e[d]];
            && SeenKeys(w, e[d := e[d] + 1]) == SeenKeys(w, e) + (if c.Seen? then {c.key} else {})
            && ErroredKeys(w, e[d := e[d] + 1]) == ErroredKeys(w, e) + (if c.Errored? then {c.key} else {})
  {
    var f := e[d := e[d] + 1];
    var c := w[d].sections[e[d]];
    forall k ensures k in SeenKeys(w, f) <==> k in SeenKeys(w, e) || (c.Seen? && k == c.key) {
      if k in SeenKeys(w, e) {
        var p, i :| p in e && 0 <= i < e[p] && w[p].sections[i].Seen? && w[p].sections[i].key == k;
        assert p in f && i < f[p];
      }
      if c.Seen? && k == c.key { assert d in f && e[d] < f[d] && w[d].sections[e[d]].key == k; }
    }
    forall k ensures k in ErroredKeys(w, f) <==> k in ErroredKeys(w, e) || (c.Errored? && k == c.key) {
      if k in ErroredKeys(w, e) {
        var p, i :| p in e && 0 <= i < e[p] && w[p].sections[i].Errored? && w[p].sections[i].key == k;
        assert p in f && i < f[p];
      }
      if c.Errored? && k == c.key { assert d in f && e[d] < f[d] && w[d].sections[e[d]].key == k; }
    }
  }

  lemma KeysNew(w: Plan, e: map<Path, nat>, d: Path)
    requires Within(w, e) && d in w && d !in e
    ensures SeenKeys(w, e[d := 0]) == SeenKeys(w, e) && ErroredKeys(w, e[d := 0]) == ErroredKeys(w, e)
  {
    var f := e[d := 0];
    forall k ensures k in SeenKeys(w, f) <==> k in SeenKeys(w, e) {
      if k in SeenKeys(w, e) {
        var p, i :| p in e && 0 <= i < e[p] && w[p].sections[i].Seen? && w[p].sections[i].key == k;
        assert p in f && i < f[p];
      }
    }
    forall k ensures k in ErroredKeys(w, f) <==> k in ErroredKeys(w, e) {
      if k in ErroredKeys(w, e) {
        var p, i :| p in e && 0 <= i < e[p] && w[p].sections[i].Errored? && w[p].sections[i].key == k;
        assert p in f && i < f[p];
      }
    }
  }

  /** Everything a scan keeps: the machine's invariant, and a tally that is the sum so far. */
  ghost predicate Sound(w: Plan, known: set<string>, s: Scan) {
    Inv(w, s) && Within(w, s.entered) && TallyIs(w, known, s.entered, s.tally)
  }

  lemma SoundInitial(w: Plan, known: set<string>, n: nat)
    requires PlanOk(w)
    ensures Sound(w, known, Initial(n))
  {
    InvInitial(w, n);
  }

  lemma SoundKept(w: Plan, known: set<string>, s: Scan, a: Step)
    requires Sound(w, known, s) && Can(w, s, a)
    ensures Sound(w, known, Do(w, known, s, a))
  {
    InvKept(w, known, s, a);
    if a.Section? {
      TallyAfterSection(w, known, s, a.worker);
    } else if a.Check? && s.queue != [] {
      LastIsPending(w, s);
      TallyAfterTake(w, known, s, a.worker);
    }
  }

  lemma LastIsPending(w: Plan, s: Scan)
    requires Inv(w, s) && s.queue != []
    ensures s.queue[|s.queue| - 1] !in s.entered && s.queue[|s.queue| - 1] in w
  {
    assert Pending(w, s, s.queue[|s.queue| - 1]);
  }

  lemma TallyAfterSection(w: Plan, known: set<string>, s: Scan, i: nat)
    requires WorkersOk(s) && Within(w, s.entered) && TallyIs(w, known, s.entered, s.tally) && Can(w, s, Section(i))
    ensures var t := Do(w, known, s, Section(i)); Within(w, t.entered) && TallyIs(w, known, t.entered, t.tally)
  {
    var d := s.workers[i].dir;
    TallyStep(w, known, s.entered, s.tally, d);
    assert s.workers[i].entered == s.entered[d];
  }

  lemma TallyStep(w: Plan, known: set<string>, e: map<Path, nat>, t: Tally, d: Path)
    requires Within(w, e) && d in e && e[d] < |w[d].sections| && TallyIs(w, known, e, t)
    ensures Within(w, e[d := e[d] + 1]) && TallyIs(w, known, e[d := e[d] + 1], Enter(t, known, w[d].sections[e[d]]))
  {
    var c := w[d].sections[e[d]];
    var a := AccountOf(w, e);
    AccountStep(w, e, d);
    var b := AccountOf(w, e[d := e[d] + 1]);
    ShowsNext(t, known, a, c, b);
  }

  lemma ShowsNext(t: Tally, known: set<string>, a: Account, s: Section, b: Account)
    requires Shows(t, known, a) && b == Entered(a, s)
    ensures Shows(Enter(t, known, s), known, b)
  {
    ShowsStep(t, known, a, s);
  }

  lemma TallyAfterTake(w: Plan, known: set<string>, s: Scan, i: nat)
    requires Within(w, s.entered) && TallyIs(w, known, s.entered, s.tally) && Can(w, s, Check(i)) && s.queue != []
    requires s.queue[|s.queue| - 1] !in s.entered
    ensures var t := Do(w, known, s, Check(i)); Within(w, t.entered) && TallyIs(w, known, t.entered, t.tally)
  {
    AccountNew(w, s.entered, s.queue[|s.queue| - 1]);
  }

  lemma {:induction false} SoundAlways(w: Plan, known: set<string>, s: Scan, run: seq<Step>)
    requires Sound(w, known, s) && Valid(w, known, s, run)
    ensures Sound(w, known, Exec(w, known, s, run))
    decreases |run|
  {
    if run != [] {
      SoundKept(w, known, s, run[0]);
      SoundAlways(w, known, Do(w, known, s, run[0]), run[1..]);
    }
  }

  // ------------------------------------------------------- what a finished scan is

  /** All sections of exactly the directories that have to be read. */
  ghost function Everything(w: Plan): map<Path, nat> {
    map p | p in w && Reached(w, p) :: |w[p].sections|
  }

  lemma {:induction false} ReachedIsTaken(w: Plan, s: Scan, p: Path)
    requires Inv(w, s) && AllExited(s) && |s.workers| > 0 && Reached(w, p)
    ensures Finished(s, p)
    decreases |p|
  {
    assert s.workers[0].Exited?;
    assert !Active(s, p);
    if p != [] {
      ReachedIsTaken(w, s, Parent(p));
      assert p in w[Parent(p)].children;
    }
  }

  lemma FinishedIsEverything(w: Plan, s: Scan)
    requires Inv(w, s) && AllExited(s) && |s.workers| > 0
    ensures s.entered == Everything(w)
  {
    forall p ensures p in s.entered <==> p in Everything(w) {
      if p in s.entered { assert Pending(w, s, p); }
      if p in Everything(w) { ReachedIsTaken(w, s, p); }
    }
    forall p | p in s.entered ensures s.entered[p] == Everything(w)[p] {
      assert Pending(w, s, p);
      ReachedIsTaken(w, s, p);
    }
  }

  /**
   The interleaving and the number of workers do not show: two scans of the same
   directories that have ended agree on every counter, on the directories seen and
   on the errored subtrees.
   */
  lemma SameResult(w: Plan, known: set<string>, n: nat, run: seq<Step>, n': nat, run': seq<Step>)
    requires PlanOk(w) && n > 0 && n' > 0
    requires Valid(w, known, Initial(n), run) && AllExited(Exec(w, known, Initial(n), run))
    requires Valid(w, known, Initial(n'), run') && AllExited(Exec(w, known, Initial(n'), run'))
    ensures Exec(w, known, Initial(n), run).tally == Exec(w, known, Initial(n'), run').tally
  {
    EndOfRun(w, known, n, run);
    EndOfRun(w, known, n', run');
  }

  lemma {:induction false} WorkersFixed(w: Plan, known: set<string>, s: Scan, run: seq<Step>)
    requires Valid(w, known, s, run)
    ensures |Exec(w, known, s, run).workers| == |s.workers|
    decreases |run|
  {
    if run != [] { WorkersFixed(w, known, Do(w, known, s, run[0]), run[1..]); }
  }

  lemma EndOfRun(w: Plan, known: set<string>, n: nat, run: seq<Step>)
    requires PlanOk(w) && n > 0 && Valid(w, known, Initial(n), run)
    requires AllExited(Exec(w, known, Initial(n), run))
    ensures Exec(w, known, Initial(n), run).entered == Everything(w)
    ensures Within(w, Everything(w)) && TallyIs(w, known, Everything(w), Exec(w, known, Initial(n), run).tally)
  {
    SoundInitial(w, known, n);
    SoundAlways(w, known, Initial(n), run);
    WorkersFixed(w, known, Initial(n), run);
    FinishedIsEverything(w, Exec(w, known, Initial(n), run));
  }

  // -------------------------------------------------------------- liveness

  /** A worker sleeps only while the queue is empty and another worker is busy. */
  lemma NoIdleSleeper(w: Plan, known: set<string>, n: nat, run: seq<Step>, i: nat)
    requires PlanOk(w) && Valid(w, known, Initial(n), run) && i < n
    requires |Exec(w, known, Initial(n), run).workers| == n && Exec(w, known, Initial(n), run).workers[i].Sleeping?
    ensures var s := Exec(w, known, Initial(n), run);
            s.queue == [] && exists k :: 0 <= k < n && k != i && s.workers[k].Working?
  {
    InvInitial(w, n);
    InvAlways(w, known, Initial(n), run);
    var s := Exec(w, known, Initial(n), run);
    SomeMember(WorkingAt(s.workers));
    var k :| k in WorkingAt(s.workers);
  }

  /** No deadlock: some worker can move exactly until every worker has left. */
  lemma NoDeadlock(w: Plan, s: Scan)
    requires Inv(w, s)
    ensures (exists a :: Can(w, s, a)) <==> !AllExited(s)
  {
    if AllExited(s) { return; }
    var i :| 0 <= i < |s.workers| && !s.workers[i].Exited?;
    var k := i;
    if s.workers[i].Sleeping? {
      SomeMember(WorkingAt(s.workers));
      k :| k in WorkingAt(s.workers);
    }
    if s.workers[k].Ready? {
      if s.queue != [] { assert Pending(w, s, s.queue[|s.queue| - 1]); }
      assert Can(w, s, Check(k));
    } else {
      assert Pending(w, s, s.workers[k].dir);
      assert Can(w, s, Section(k)) || Can(w, s, Finish(k));
    }
  }

  /** All sections of all directories, read or not. */
  ghost function AllSections(w: Plan): map<Path, nat> { map p | p in w :: |w[p].sections| }

  lemma {:induction false} AllSteps(cs: seq<Section>)
    ensures AmountAll(Steps, cs) == |cs|
  {
    if cs != [] { AllSteps(cs[..|cs| - 1]); }
  }

  lemma StepsGrow(w: Plan, e: map<Path, nat>)
    requires Within(w, e)
    ensures Total(w, Steps, e) <= Total(w, Steps, AllSections(w))
  {
    var m, n := Amounts(w, Steps, e), Amounts(w, Steps, AllSections(w));
    forall p | p in m ensures m[p] <= n[p] {
      AllSteps(w[p].sections[..e[p]]);
      AllSteps(w[p].sections[..|w[p].sections|]);
    }
    SumMonotone(m, n);
  }

  /** Directories not taken, sections not entered and busy workers. */
  ghost function Work(w: Plan, s: Scan): int
    requires Within(w, s.entered)
  {
    2 * (|w| - |s.entered|) + Total(w, Steps, AllSections(w)) - Total(w, Steps, s.entered) + s.active
  }

  /** n * x, as a sum. */
  ghost function Times(n: nat, x: int): int {
    if n == 0 then 0 else x + Times(n - 1, x)
  }

  lemma {:induction false} TimesLess(n: nat, x: int, y: int)
    requires x + 1 <= y
    ensures Times(n, x) + n <= Times(n, y)
  {
    if n > 0 { TimesLess(n - 1, x, y); }
  }

  lemma {:induction false} TimesNonnegative(n: nat, x: nat)
    ensures Times(n, x) >= 0
  {
    if n > 0 { TimesNonnegative(n - 1, x); }
  }

  /** What is left to do; one unit of work can wake every worker once. */
  ghost function Left(w: Plan, s: Scan): int
    requires Within(w, s.entered)
  {
    Times(|s.workers| + 1, Work(w, s)) + |ReadyAt(s.workers)|
  }

  lemma LeftNonnegative(w: Plan, s: Scan)
    requires Inv(w, s) && Within(w, s.entered)
    ensures Left(w, s) >= 0
  {
    WorkNonnegative(w, s);
    TimesNonnegative(|s.workers| + 1, Work(w, s));
  }

  lemma WorkNonnegative(w: Plan, s: Scan)
    requires Within(w, s.entered) && s.active >= 0
    ensures Work(w, s) >= 0
  {
    StepsGrow(w, s.entered);
    KeysWithin(w, s.entered);
  }

  lemma KeysWithin(w: Plan, e: map<Path, nat>)
    requires Within(w, e)
    ensures |e| <= |w|
  {
    SubsetSize(e.Keys, w.Keys);
  }

  lemma WorkFalls(w: Plan, known: set<string>, s: Scan, a: Step)
    requires Inv(w, s) && Within(w, s.entered) && Can(w, s, a) && (a.Check? ==> s.queue != [])
    ensures Within(w, Do(w, known, s, a).entered)
    ensures Work(w, Do(w, known, s, a)) + 1 <= Work(w, s)
  {
    match a
    case Check(i) => LastIsPending(w, s); StepsAfterTake(w, known, s, i);
    case Section(i) => StepsAfterSection(w, known, s, i);
    case Finish(i) =>
  }

  lemma StepsAfterTake(w: Plan, known: set<string>, s: Scan, i: nat)
    requires Within(w, s.entered) && Can(w, s, Check(i)) && s.queue != [] && s.queue[|s.queue| - 1] !in s.entered
    ensures var t := Do(w, known, s, Check(i));
            Within(w, t.entered) && |t.entered| == |s.entered| + 1 && Total(w, Steps, t.entered) == Total(w, Steps, s.entered)
  {
    TotalNew(w, Steps, s.entered, s.queue[|s.queue| - 1]);
  }

  lemma SameSize(e: map<Path, nat>, d: Path)
    requires d in e
    ensures |e[d := e[d] + 1]| == |e|
  {
    assert e[d := e[d] + 1].Keys == e.Keys;
  }

  lemma StepsAfterSection(w: Plan, known: set<string>, s: Scan, i: nat)
    requires WorkersOk(s) && Within(w, s.entered) && Can(w, s, Section(i))
    ensures var t := Do(w, known, s, Section(i));
            Within(w, t.entered) && |t.entered| == |s.entered| && Total(w, Steps, t.entered) == Total(w, Steps, s.entered) + 1
  {
    var d := s.workers[i].dir;
    TotalStep(w, Steps, s.entered, d);
    SameSize(s.entered, d);
  }

  lemma LeftFalls(w: Plan, known: set<string>, s: Scan, a: Step)
    requires Inv(w, s) && Within(w, s.entered) && Can(w, s, a)
    ensures Within(w, Do(w, known, s, a).entered)
    ensures Left(w, Do(w, known, s, a)) < Left(w, s)
  {
    var t := Do(w, known, s, a);
    if a.Check? && s.queue == [] {
      IdleFalls(w, known, s, a.worker);
    } else {
      WorkFalls(w, known, s, a);
      LessWork(w, s, t);
    }
  }

  /** Waking every worker costs less than the unit of work that woke them. */
  lemma LessWork(w: Plan, s: Scan, t: Scan)
    requires Within(w, s.entered) && Within(w, t.entered)
    requires |t.workers| == |s.workers| && Work(w, t) + 1 <= Work(w, s)
    ensures Left(w, t) < Left(w, s)
  {
    IndexSetSize(ReadyAt(t.workers), |t.workers|);
    TimesLess(|s.workers| + 1, Work(w, t), Work(w, s));
  }

  lemma IdleFalls(w: Plan, known: set<string>, s: Scan, i: nat)
    requires Within(w, s.entered) && Can(w, s, Check(i)) && s.queue == []
    ensures var t := Do(w, known, s, Check(i)); t.entered == s.entered && Left(w, t) < Left(w, s)
  {
    var t := Do(w, known, s, Check(i));
    assert t.entered == s.entered && t.active == s.active && |t.workers| == |s.workers|;
    assert ReadyAt(t.workers) == ReadyAt(s.workers) - {i} && i in ReadyAt(s.workers);
    assert Work(w, t) == Work(w, s);
  }

  /** Every run is bounded, so a scan that always lets some worker move ends with all workers gone. */
  lemma {:induction false} RunsEnd(w: Plan, known: set<string>, s: Scan, run: seq<Step>)
    requires Sound(w, known, s) && Valid(w, known, s, run)
    ensures |run| <= Left(w, s)
    decreases |run|
  {
    LeftNonnegative(w, s);
    if run != [] {
      SoundKept(w, known, s, run[0]);
      LeftFalls(w, known, s, run[0]);
      RunsEnd(w, known, Do(w, known, s, run[0]), run[1..]);
    }
  }

  // ------------------------------------------------------------- reads once

  /** How often the run takes directory p off the queue. */
  ghost function TakesOf(w: Plan, known: set<string>, s: Scan, run: seq<Step>, p: Path): nat
    requires Valid(w, known, s, run)
    decreases |run|
  {
    if run == [] then 0
    else
      (if run[0].Check? && s.queue != [] && s.queue[|s.queue| - 1] == p then 1 else 0)
      + TakesOf(w, known, Do(w, known, s, run[0]), run[1..], p)
  }

  lemma {:induction false} TakesAreEntered(w: Plan, known: set<string>, s: Scan, run: seq<Step>, p: Path)
    requires Inv(w, s) && Valid(w, known, s, run)
    ensures TakesOf(w, known, s, run, p) + (if p in s.entered then 1 else 0) ==
            if p in Exec(w, known, s, run).entered then 1 else 0
    decreases |run|
  {
    if run != [] {
      InvKept(w, known, s, run[0]);
      TakesAreEntered(w, known, Do(w, known, s, run[0]), run[1..], p);
    }
  }

  /** A scan that has ended read every reachable directory exactly once, and no other. */
  lemma ReadOnce(w: Plan, known: set<string>, n: nat, run: seq<Step>, p: Path)
    requires PlanOk(w) && n > 0 && Valid(w, known, Initial(n), run)
    requires AllExited(Exec(w, known, Initial(n), run))
    ensures TakesOf(w, known, Initial(n), run, p) == if Reached(w, p) then 1 else 0
  {
    InvInitial(w, n);
    EndOfRun(w, known, n, run);
    TakesAreEntered(w, known, Initial(n), run, p);
  }

  // ----------------------------------- what is read, in terms of the listings

  lemma ChildStep(w: World, p: Path)
    requires w.fate.Keys == w.disk.Keys && p != [] && Parent(p) in w.disk
    ensures p in PlanOf(w)[Parent(p)].children <==>
            w.fate[Parent(p)] != Cancelled && w.fate[Parent(p)] != Unreadable && Leads(w.disk[Parent(p)], p[|p| - 1])
  {
    var q := Parent(p);
    ChildIff(q, w.disk[q], w.fate[q], p[|p| - 1]);
    assert q + [p[|p| - 1]] == p;
  }

  /** Every directory above p is read and leads on to the next name of p. */
  ghost predicate WayDown(w: World, p: Path)
    requires w.fate.Keys == w.disk.Keys
  {
    forall n :: 0 <= n < |p| ==>
      p[..n] in w.disk && w.fate[p[..n]] != Cancelled && w.fate[p[..n]] != Unreadable && Leads(w.disk[p[..n]], p[n])
  }

  lemma {:induction false} ReachedIff(w: World, p: Path)
    requires WorldOk(w)
    ensures Reached(PlanOf(w), p) <==> WayDown(w, p)
    decreases |p|
  {
    if p != [] {
      var q := Parent(p);
      ReachedIff(w, q);
      WayStep(w, p);
      if q in w.disk { ChildStep(w, p); }
      if WayDown(w, p) {
        LedToIsThere(w, q, p[|p| - 1]);
        assert q + [p[|p| - 1]] == p;
      }
    }
  }

  lemma WayStep(w: World, p: Path)
    requires w.fate.Keys == w.disk.Keys && p != []
    ensures var q := Parent(p);
            WayDown(w, p) <==>
            WayDown(w, q) && q in w.disk && w.fate[q] != Cancelled && w.fate[q] != Unreadable && Leads(w.disk[q], p[|p| - 1])
  {
    var q := Parent(p);
    forall n | 0 <= n < |q| ensures q[..n] == p[..n] && q[n] == p[n] { }
    if WayDown(w, p) {
      assert p[..|p| - 1] == q;
      forall n | 0 <= n < |q|
        ensures q[..n] in w.disk && w.fate[q[..n]] != Cancelled && w.fate[q[..n]] != Unreadable && Leads(w.disk[q[..n]], q[n])
      {
        assert p[..n] in w.disk;
      }
    }
  }

  lemma LedToIsThere(w: World, q: Path, name: string)
    requires WorldOk(w) && q in w.disk && Leads(w.disk[q], name)
    ensures q + [name] in w.disk
  {
    var e :| e in w.disk[q] && e.kind == Directory && e.name != ".git" && !e.ignored && e.name == name;
    var i :| 0 <= i < |w.disk[q]| && w.disk[q][i] == e;
  }

  /**
   Over every ended scan: a directory was read, and read once, exactly when each name
   on its path is an entry to go into of the directory above, and no directory above
   holds a Terraform file, could not be read, or was reached after the cancellation.
   */
  lemma ReadIff(w: World, known: set<string>, n: nat, run: seq<Step>, p: Path)
    requires WorldOk(w) && n > 0 && Valid(PlanOf(w), known, Initial(n), run)
    requires AllExited(Exec(PlanOf(w), known, Initial(n), run))
    ensures TakesOf(PlanOf(w), known, Initial(n), run, p) == if WayDown(w, p) then 1 else 0
    ensures p in Exec(PlanOf(w), known, Initial(n), run).entered <==> WayDown(w, p)
  {
    PlanOfOk(w);
    ReadOnce(PlanOf(w), known, n, run, p);
    EndOfRun(PlanOf(w), known, n, run);
    ReachedIff(w, p);
  }

  /** From the start some interleaving runs to the end. */
  lemma SomeRunEnds(w: Plan, known: set<string>, n: nat) returns (run: seq<Step>)
    requires PlanOk(w)
    ensures Valid(w, known, Initial(n), run) && AllExited(Exec(w, known, Initial(n), run))
  {
    SoundInitial(w, known, n);
    run := RunToEnd(w, known, Initial(n));
  }

  lemma {:induction false} RunToEnd(w: Plan, known: set<string>, s: Scan) returns (run: seq<Step>)
    requires Inv(w, s) && Within(w, s.entered)
    ensures Valid(w, known, s, run) && AllExited(Exec(w, known, s, run))
    decreases Left(w, s)
  {
    NoDeadlock(w, s);
    if AllExited(s) {
      run := [];
    } else {
      var a :| Can(w, s, a);
      InvKept(w, known, s, a);
      LeftFalls(w, known, s, a);
      LeftNonnegative(w, s);
      var rest := RunToEnd(w, known, Do(w, known, s, a));
      run := [a] + rest;
      assert run[1..] == rest;
    }
  }
}
