/**
 The traversal of one root by several workers that share a stack of directories,
 a count of busy workers and a condition variable. A step is what one worker does
 while it holds the mutex once. In every interleaving the result is the same.
 */
module Traversal {
  import opened Common
  import opened Paths
  import opened DirectoryScan

  /** A ready worker is about to test the queue; a working one has entered some of its sections. */
  datatype Worker = Ready | Sleeping | Working(dir: Path, entered: nat) | Exited

  /** `entered` counts, for each directory taken so far, the sections run for it. */
  datatype Scan = Scan(queue: seq<Path>, active: int, workers: seq<Worker>, tally: Tally, entered: map<Path, nat>)

  datatype Step = Check(worker: nat) | Section(worker: nat) | Finish(worker: nat)

  /** What each directory contributes: its critical sections and its children. */
  datatype Duty = Duty(sections: seq<Section>, children: seq<Path>)

  type Plan = map<Path, Duty>

  function PlanOf(w: World): Plan
    requires w.fate.Keys == w.disk.Keys
  {
    map p | p in w.disk :: Duty(SectionsOf(p, w.disk[p], w.fate[p]), ChildrenOf(p, w.disk[p], w.fate[p]))
  }

  function Parent(p: Path): Path
    requires p != []
  {
    p[..|p| - 1]
  }

  /** Children are planned, distinct, and name their directory as their parent. */
  ghost predicate PlanOk(w: Plan) {
    && [] in w
    && (forall p, i :: p in w && 0 <= i < |w[p].children| ==>
          w[p].children[i] in w && w[p].children[i] != [] && Parent(w[p].children[i]) == p)
    && (forall p, i, k :: p in w && 0 <= i < k < |w[p].children| ==> w[p].children[i] != w[p].children[k])
  }

  /** The directories a scan has to read: the root, and the children of those it reads. */
  predicate Reached(w: Plan, p: Path)
    decreases |p|
  {
    p in w && (p == [] || (Reached(w, Parent(p)) && p in w[Parent(p)].children))
  }

  // -------------------------------------------------- the plan of a file system

  /** Listings name their entries distinctly, and hold what they descend into. */
  ghost predicate WorldOk(w: World) {
    && [] in w.disk && w.fate.Keys == w.disk.Keys
    && (forall p :: p in w.disk ==> OsPath(p) && ListingOk(w.disk[p]))
    && (forall p, i :: p in w.disk && 0 <= i < |w.disk[p]| ==>
          w.disk[p][i].kind != Directory || w.disk[p][i].name == ".git" || w.disk[p][i].ignored || p + [w.disk[p][i].name] in w.disk)
  }

  ghost predicate ListingOk(entries: seq<Entry>) {
    forall i, k :: 0 <= i < k < |entries| ==> entries[i].name != entries[k].name
  }

  lemma {:induction false} SubdirectoriesAre(p: Path, entries: seq<Entry>)
    requires ListingOk(entries)
    ensures forall c :: c in Subdirectories(p, entries) <==> exists e :: e in entries && Descends(e) && c == p + [e.name]
    ensures forall i, k :: 0 <= i < k < |Subdirectories(p, entries)| ==> Subdirectories(p, entries)[i] != Subdirectories(p, entries)[k]
  {
    if entries != [] {
      var n := |entries| - 1;
      var e := entries[n];
      SubdirectoriesAre(p, entries[..n]);
      assert entries == entries[..n] + [e];
      if Descends(e) {
        var rest := Subdirectories(p, entries[..n]);
        forall c | c in rest ensures c != p + [e.name] {
          var f :| f in entries[..n] && Descends(f) && c == p + [f.name];
          var i :| 0 <= i < n && entries[i] == f;
          assert c[|p|] == f.name && (p + [e.name])[|p|] == e.name;
        }
        forall i, k | 0 <= i < k < |rest| + 1 ensures (rest + [p + [e.name]])[i] != (rest + [p + [e.name]])[k] {
          assert rest[i] in rest;
        }
        forall c ensures c in Subdirectories(p, entries) <==> exists f :: f in entries && Descends(f) && c == p + [f.name] {
          if c == p + [e.name] { assert e in entries; }
          if c in rest { var f :| f in entries[..n] && Descends(f) && c == p + [f.name]; assert f in entries; }
        }
      }
    }
  }

  lemma PlanOfOk(w: World)
    requires WorldOk(w)
    ensures PlanOk(PlanOf(w))
  {
    forall p | p in w.disk
      ensures forall c :: c in ChildrenOf(p, w.disk[p], w.fate[p]) ==> c != [] && Parent(c) == p && c in w.disk
      ensures forall i, k :: 0 <= i < k < |ChildrenOf(p, w.disk[p], w.fate[p])| ==> ChildrenOf(p, w.disk[p], w.fate[p])[i] != ChildrenOf(p, w.disk[p], w.fate[p])[k]
    {
      ChildrenFacts(w, p);
    }
  }

  lemma ChildrenFacts(w: World, p: Path)
    requires WorldOk(w) && p in w.disk
    ensures forall c :: c in ChildrenOf(p, w.disk[p], w.fate[p]) ==> c != [] && Parent(c) == p && c in w.disk
    ensures forall i, k :: 0 <= i < k < |ChildrenOf(p, w.disk[p], w.fate[p])| ==> ChildrenOf(p, w.disk[p], w.fate[p])[i] != ChildrenOf(p, w.disk[p], w.fate[p])[k]
  {
    SubdirectoriesAre(p, w.disk[p]);
    forall c | c in ChildrenOf(p, w.disk[p], w.fate[p]) ensures c != [] && Parent(c) == p && c in w.disk {
      var e :| e in w.disk[p] && Descends(e) && c == p + [e.name];
      var i :| 0 <= i < |w.disk[p]| && w.disk[p][i] == e;
      assert p + [w.disk[p][i].name] in w.disk;
      assert Parent(c) == p;
    }
  }

  // ------------------------------------------------------------------- steps

  function Initial(n: nat): Scan { Scan([[]], 0, seq(n, i => Ready), NOTHING, map[]) }

  predicate Can(w: Plan, s: Scan, a: Step) {
    a.worker < |s.workers| &&
    match a
    case Check(i) => s.workers[i].Ready? && (s.queue != [] ==> s.queue[|s.queue| - 1] in w)
    case Section(i) =>
      s.workers[i].Working? && s.workers[i].dir in w &&
      s.workers[i].entered < |w[s.workers[i].dir].sections|
    case Finish(i) =>
      s.workers[i].Working? && s.workers[i].dir in w &&
      s.workers[i].entered >= |w[s.workers[i].dir].sections|
  }

  /** Broadcast: every sleeper tests the queue again. */
  function Woken(workers: seq<Worker>): seq<Worker> {
    seq(|workers|, i requires 0 <= i < |workers| => if workers[i].Sleeping? then Ready else workers[i])
  }

  function Do(w: Plan, known: set<string>, s: Scan, a: Step): Scan
    requires Can(w, s, a)
  {
    match a
    case Check(i) =>
      if s.queue == [] && s.active > 0 then s.(workers := s.workers[i := Sleeping])
      else if s.queue == [] then s.(workers := s.workers[i := Exited])
      else
        var n := |s.queue| - 1;
        s.(queue := s.queue[..n], active := s.active + 1, workers := s.workers[i := Working(s.queue[n], 0)],
           entered := s.entered[s.queue[n] := 0])
    case Section(i) =>
      var d, k := s.workers[i].dir, s.workers[i].entered;
      s.(tally := Enter(s.tally, known, w[d].sections[k]), workers := s.workers[i := Working(d, k + 1)],
         entered := s.entered[d := k + 1])
    case Finish(i) =>
      s.(queue := s.queue + w[s.workers[i].dir].children, active := s.active - 1,
         workers := Woken(s.workers[i := Ready]))
  }

  ghost predicate Valid(w: Plan, known: set<string>, s: Scan, run: seq<Step>)
    decreases |run|
  {
    run == [] || (Can(w, s, run[0]) && Valid(w, known, Do(w, known, s, run[0]), run[1..]))
  }

  ghost function Exec(w: Plan, known: set<string>, s: Scan, run: seq<Step>): Scan
    requires Valid(w, known, s, run)
    decreases |run|
  {
    if run == [] then s else Exec(w, known, Do(w, known, s, run[0]), run[1..])
  }

  ghost predicate AllExited(s: Scan) { forall i :: 0 <= i < |s.workers| ==> s.workers[i].Exited? }

  // --------------------------------------------------------------- invariant

  ghost function WorkingAt(workers: seq<Worker>): set<int> { set i | 0 <= i < |workers| && workers[i].Working? }

  ghost function ReadyAt(workers: seq<Worker>): set<int> { set i | 0 <= i < |workers| && workers[i].Ready? }

  ghost predicate Active(s: Scan, p: Path) {
    exists i :: 0 <= i < |s.workers| && s.workers[i].Working? && s.workers[i].dir == p
  }

  ghost predicate Finished(s: Scan, p: Path) { p in s.entered && !Active(s, p) }

  ghost predicate WorkersOk(s: Scan) {
    && s.active == |WorkingAt(s.workers)|
    && (forall i :: 0 <= i < |s.workers| && s.workers[i].Sleeping? ==> s.queue == [] && s.active > 0)
    && (forall i :: 0 <= i < |s.workers| && s.workers[i].Exited? ==> s.queue == [] && s.active == 0)
    && (forall i :: 0 <= i < |s.workers| && s.workers[i].Working? ==>
          s.workers[i].dir in s.entered && s.entered[s.workers[i].dir] == s.workers[i].entered)
    && (forall i, k :: 0 <= i < k < |s.workers| && s.workers[i].Working? && s.workers[k].Working? ==>
          s.workers[i].dir != s.workers[k].dir)
  }

  ghost predicate Pending(w: Plan, s: Scan, p: Path) { Reached(w, p) && (p != [] ==> Finished(s, Parent(p))) }

  ghost predicate QueueOk(w: Plan, s: Scan) {
    && (forall i :: 0 <= i < |s.queue| ==> Pending(w, s, s.queue[i]) && s.queue[i] !in s.entered)
    && (forall i, k :: 0 <= i < k < |s.queue| ==> s.queue[i] != s.queue[k])
  }

  ghost predicate TakenOk(w: Plan, s: Scan) {
    && (forall p :: p in s.entered ==> Pending(w, s, p) && s.entered[p] <= |w[p].sections|)
    && (forall p :: Finished(s, p) ==> s.entered[p] == |w[p].sections| && forall c :: c in w[p].children ==> c in s.entered || c in s.queue)
    && ([] in s.entered || [] in s.queue)
  }

  ghost predicate Inv(w: Plan, s: Scan) { PlanOk(w) && WorkersOk(s) && QueueOk(w, s) && TakenOk(w, s) }

  lemma InvInitial(w: Plan, n: nat)
    requires PlanOk(w)
    ensures Inv(w, Initial(n))
  {
    assert WorkingAt(Initial(n).workers) == {};
  }

  // -- each step keeps it

  lemma WorkersAfterTake(w: Plan, known: set<string>, s: Scan, i: nat)
    requires WorkersOk(s) && Can(w, s, Check(i)) && s.queue != [] && s.queue[|s.queue| - 1] !in s.entered
    ensures WorkersOk(Do(w, known, s, Check(i)))
    ensures forall p :: Finished(Do(w, known, s, Check(i)), p) <==> Finished(s, p)
  {
    var t := Do(w, known, s, Check(i));
    var d := s.queue[|s.queue| - 1];
    assert WorkingAt(t.workers) == WorkingAt(s.workers) + {i};
    assert t.workers[i] == Working(d, 0);
    forall k | 0 <= k < |s.workers| && k != i ensures t.workers[k] == s.workers[k] {}
    forall p ensures Finished(t, p) <==> Finished(s, p) {
      if Active(s, p) {
        var k :| 0 <= k < |s.workers| && s.workers[k].Working? && s.workers[k].dir == p;
        assert t.workers[k] == s.workers[k];
      }
    }
  }

  lemma KeptByTake(w: Plan, known: set<string>, s: Scan, i: nat)
    requires Inv(w, s) && Can(w, s, Check(i)) && s.queue != []
    ensures Inv(w, Do(w, known, s, Check(i)))
  {
    WorkersAfterTake(w, known, s, i);
    QueueAfterTake(w, s, Do(w, known, s, Check(i)));
    TakenAfter(w, s, Do(w, known, s, Check(i)));
  }

  lemma QueueAfterTake(w: Plan, s: Scan, t: Scan)
    requires QueueOk(w, s) && TakenOk(w, s) && s.queue != [] && forall p :: Finished(t, p) <==> Finished(s, p)
    requires t.queue == s.queue[..|s.queue| - 1] && t.entered == s.entered[s.queue[|s.queue| - 1] := 0]
    ensures QueueOk(w, t)
    ensures forall c :: c in s.queue ==> c in t.queue || c in t.entered
    ensures forall p :: p in t.entered ==> Pending(w, s, p) && t.entered[p] <= |w[p].sections|
  {
    var d := s.queue[|s.queue| - 1];
    assert Pending(w, s, d);
    forall k | 0 <= k < |t.queue| ensures Pending(w, t, t.queue[k]) && t.queue[k] !in t.entered {
      assert t.queue[k] == s.queue[k] && Pending(w, s, s.queue[k]);
    }
    forall c | c in s.queue ensures c in t.queue || c == d {
      var k :| 0 <= k < |s.queue| && s.queue[k] == c;
      if k < |t.queue| { assert t.queue[k] == c; }
    }
  }

  /** Taking and entering change neither what is finished nor what the finished need. */
  lemma TakenAfter(w: Plan, s: Scan, t: Scan)
    requires TakenOk(w, s) && forall p :: Finished(t, p) <==> Finished(s, p)
    requires s.entered.Keys <= t.entered.Keys
    requires forall p :: p in t.entered ==> Pending(w, s, p) && t.entered[p] <= |w[p].sections|
    requires forall p :: Finished(s, p) ==> t.entered[p] == s.entered[p]
    requires forall c :: c in s.queue ==> c in t.queue || c in t.entered
    ensures TakenOk(w, t)
  {
  }

  lemma WorkersAfterIdle(w: Plan, known: set<string>, s: Scan, i: nat)
    requires WorkersOk(s) && Can(w, s, Check(i)) && s.queue == []
    ensures WorkersOk(Do(w, known, s, Check(i)))
    ensures forall p :: Finished(Do(w, known, s, Check(i)), p) <==> Finished(s, p)
  {
    var t := Do(w, known, s, Check(i));
    assert WorkingAt(t.workers) == WorkingAt(s.workers);
    forall k | 0 <= k < |s.workers| && k != i ensures t.workers[k] == s.workers[k] {}
    forall p ensures Finished(t, p) <==> Finished(s, p) {
      if Active(s, p) {
        var k :| 0 <= k < |s.workers| && s.workers[k].Working? && s.workers[k].dir == p;
        assert t.workers[k] == s.workers[k];
      }
    }
  }

  lemma KeptByIdle(w: Plan, known: set<string>, s: Scan, i: nat)
    requires Inv(w, s) && Can(w, s, Check(i)) && s.queue == []
    ensures Inv(w, Do(w, known, s, Check(i)))
  {
    WorkersAfterIdle(w, known, s, i);
    TakenAfter(w, s, Do(w, known, s, Check(i)));
  }

  lemma WorkersAfterSection(w: Plan, known: set<string>, s: Scan, i: nat)
    requires WorkersOk(s) && Can(w, s, Section(i))
    ensures WorkersOk(Do(w, known, s, Section(i)))
    ensures forall p :: Finished(Do(w, known, s, Section(i)), p) <==> Finished(s, p)
  {
    var t := Do(w, known, s, Section(i));
    assert WorkingAt(t.workers) == WorkingAt(s.workers);
    assert t.workers[i].dir == s.workers[i].dir;
    forall k | 0 <= k < |s.workers| && k != i ensures t.workers[k] == s.workers[k] {}
    forall p ensures Finished(t, p) <==> Finished(s, p) {
      if Active(s, p) {
        var k :| 0 <= k < |s.workers| && s.workers[k].Working? && s.workers[k].dir == p;
        assert t.workers[k].Working? && t.workers[k].dir == p;
      }
    }
  }

  lemma KeptBySection(w: Plan, known: set<string>, s: Scan, i: nat)
    requires Inv(w, s) && Can(w, s, Section(i))
    ensures Inv(w, Do(w, known, s, Section(i)))
  {
    WorkersAfterSection(w, known, s, i);
    var t := Do(w, known, s, Section(i));
    assert Active(s, s.workers[i].dir);
    TakenAfter(w, s, t);
  }

  lemma ActiveAfterFinish(w: Plan, known: set<string>, s: Scan, i: nat, p: Path)
    requires WorkersOk(s) && Can(w, s, Finish(i))
    ensures Active(Do(w, known, s, Finish(i)), p) <==> Active(s, p) && p != s.workers[i].dir
  {
    var t := Do(w, known, s, Finish(i));
    if Active(s, p) && p != s.workers[i].dir {
      var k :| 0 <= k < |s.workers| && s.workers[k].Working? && s.workers[k].dir == p;
      assert t.workers[k] == s.workers[k];
    }
    if Active(t, p) {
      var k :| 0 <= k < |t.workers| && t.workers[k].Working? && t.workers[k].dir == p;
      assert s.workers[k] == t.workers[k];
    }
  }

  ghost predicate FinishedWith(s: Scan, t: Scan, d: Path) {
    t.entered == s.entered && forall p :: Finished(t, p) <==> Finished(s, p) || p == d
  }

  lemma StaysPending(w: Plan, s: Scan, t: Scan, d: Path, p: Path)
    requires Pending(w, s, p) && FinishedWith(s, t, d)
    ensures Pending(w, t, p)
  {
  }

  lemma ChildPending(w: Plan, t: Scan, d: Path, k: nat)
    requires PlanOk(w) && d in w && Reached(w, d) && Finished(t, d) && k < |w[d].children|
    ensures Pending(w, t, w[d].children[k]) && w[d].children[k] != [] && Parent(w[d].children[k]) == d
  {
    var c := w[d].children[k];
    assert c in w[d].children;
  }

  /** A child of a directory still being read has not been seen yet. */
  lemma QueueAfterFinish(w: Plan, s: Scan, t: Scan, d: Path)
    requires PlanOk(w) && QueueOk(w, s) && TakenOk(w, s) && d in s.entered && Active(s, d)
    requires FinishedWith(s, t, d) && t.queue == s.queue + w[d].children
    ensures QueueOk(w, t)
  {
    assert Pending(w, s, d);
    forall k | 0 <= k < |t.queue| ensures Pending(w, t, t.queue[k]) && t.queue[k] !in t.entered {
      if k >= |s.queue| {
        ChildPending(w, t, d, k - |s.queue|);
        NotFinishedYet(w, s, d, t.queue[k]);
      } else {
        StaysPending(w, s, t, d, s.queue[k]);
      }
    }
    forall j, k | 0 <= j < k < |t.queue| ensures t.queue[j] != t.queue[k] {
      if j < |s.queue| <= k { ChildPending(w, t, d, k - |s.queue|); }
    }
  }

  lemma NotFinishedYet(w: Plan, s: Scan, d: Path, c: Path)
    requires TakenOk(w, s) && Active(s, d) && c != [] && Parent(c) == d
    ensures c !in s.entered
  {
    assert c in s.entered ==> Pending(w, s, c);
  }

  lemma TakenAfterFinish(w: Plan, s: Scan, t: Scan, d: Path)
    requires TakenOk(w, s) && d in s.entered && s.entered[d] == |w[d].sections|
    requires FinishedWith(s, t, d) && t.queue == s.queue + w[d].children
    ensures TakenOk(w, t)
  {
  }

  lemma KeptByFinish(w: Plan, known: set<string>, s: Scan, i: nat)
    requires Inv(w, s) && Can(w, s, Finish(i))
    ensures Inv(w, Do(w, known, s, Finish(i)))
  {
    var t := Do(w, known, s, Finish(i));
    var d := s.workers[i].dir;
    forall p ensures Finished(t, p) <==> Finished(s, p) || p == d {
      ActiveAfterFinish(w, known, s, i, p);
    }
    WorkersAfterFinish(w, known, s, i);
    assert Active(s, d);
    QueueAfterFinish(w, s, t, d);
    TakenAfterFinish(w, s, t, d);
  }

  lemma WorkersAfterFinish(w: Plan, known: set<string>, s: Scan, i: nat)
    requires WorkersOk(s) && Can(w, s, Finish(i))
    ensures WorkersOk(Do(w, known, s, Finish(i)))
  {
    var t := Do(w, known, s, Finish(i));
    assert WorkingAt(t.workers) == WorkingAt(s.workers) - {i};
    assert i in WorkingAt(s.workers);
    forall k | 0 <= k < |t.workers| && t.workers[k].Working? ensures s.workers[k] == t.workers[k] {}
  }

  lemma InvKept(w: Plan, known: set<string>, s: Scan, a: Step)
    requires Inv(w, s) && Can(w, s, a)
    ensures Inv(w, Do(w, known, s, a))
  {
    match a
    case Check(i) => if s.queue == [] { KeptByIdle(w, known, s, i); } else { KeptByTake(w, known, s, i); }
    case Section(i) => KeptBySection(w, known, s, i);
    case Finish(i) => KeptByFinish(w, known, s, i);
  }

  lemma {:induction false} InvAlways(w: Plan, known: set<string>, s: Scan, run: seq<Step>)
    requires Inv(w, s) && Valid(w, known, s, run)
    ensures Inv(w, Exec(w, known, s, run))
    decreases |run|
  {
    if run != [] {
      InvKept(w, known, s, run[0]);
      InvAlways(w, known, Do(w, known, s, run[0]), run[1..]);
    }
  }
}
