/**
 Linking projects that lie in the same Git repository. Discoveries of different
 projects interleave statement by statement; the links still converge.
 */
module ProjectLinks {
  import opened Common
  import opened Paths
  import opened Sums

  type ProjectId = int
  type RepositoryId = int
  type Pair = (ProjectId, ProjectId)

  function CanonicalPair(a: ProjectId, b: ProjectId): Pair {
    if a < b then (a, b) else (b, a)
  }

  // ------------------------------------------------------- finding a repository

  /** What lies under the name ".git" of a directory. */
  datatype Marker = Absent | GitDirectory | GitFile(valid: bool) | OtherFile | Broken

  datatype Found = At(dir: Path) | Nowhere | FindError

  predicate Usable(m: Marker) { m.GitDirectory? || (m.GitFile? && m.valid) }

  /** A directory, or a file that names one. */
  predicate IsGit(m: Marker) { m == GitDirectory || m == GitFile(true) }

  /** Nothing of Git, and nothing that stops the walk. */
  predicate PassedBy(m: Marker) { m == Absent || m == OtherFile || m == GitFile(false) }

  /** Walks from the project up to the root and stops at the first usable or broken marker. */
  method FindGitRepository(markers: map<Path, Marker>, project: Path) returns (found: Found)
    requires forall n :: 0 <= n <= |project| ==> project[..n] in markers
    ensures found.At? ==>
              && found.dir <= project && found.dir in markers && IsGit(markers[found.dir])
              && forall n :: |found.dir| < n <= |project| ==> PassedBy(markers[project[..n]])
    ensures found.Nowhere? ==> forall n :: 0 <= n <= |project| ==> PassedBy(markers[project[..n]])
    ensures found.FindError? ==>
              exists k :: 0 <= k <= |project| && markers[project[..k]] == Broken && forall n :: k < n <= |project| ==> PassedBy(markers[project[..n]])
  {
    var current := project;
    while true
      invariant |current| <= |project| && current == project[..|current|]
      invariant forall n :: |current| < n <= |project| ==> PassedBy(markers[project[..n]])
      decreases |current|
    {
      var m := markers[current];
      if Usable(m) { return At(current); }
      if m.Broken? {
        assert markers[project[..|current|]].Broken?;
        return FindError;
      }
      if current == [] { break; }
      current := current[..|current| - 1];
    }
    return Nowhere;
  }

  // ------------------------------------------------------------------ the table

  /** project_links, unique on the canonical pair. */
  class LinkTable {
    var links: map<Pair, RepositoryId>

    constructor ()
      ensures links == map[]
    {
      links := map[];
    }

    /** Inserts the link, or updates its repository if the pair is there. */
    method UpsertProjectLink(a: ProjectId, b: ProjectId, repository: RepositoryId) returns (created: bool)
      modifies this
      ensures a == b ==> !created && links == old(links)
      ensures a != b ==> links == old(links)[CanonicalPair(a, b) := repository] && created == (CanonicalPair(a, b) !in old(links))
      ensures |links| == |old(links)| + if created then 1 else 0
    {
      if a == b { return false; }
      var pair := CanonicalPair(a, b);
      created := pair !in links;
      links := links[pair := repository];
    }

    /** The loop of one discovery over the projects of its repository. */
    method LinkRelated(project: ProjectId, repository: RepositoryId, related: seq<ProjectId>) returns (created: nat, linked: seq<ProjectId>)
      modifies this
      ensures linked == Others(related, project)
      ensures forall q :: q in linked <==> q in related && q != project
      ensures forall l :: l in links <==> l in old(links) || l in PairsOf(project, related)
      ensures links == LinkedAll(old(links), project, repository, related)
      ensures created == |links| - |old(links)|
    {
      created, linked := 0, [];
      for i := 0 to |related|
        invariant linked == Others(related[..i], project)
        invariant links == LinkedAll(old(links), project, repository, related[..i])
        invariant created == |links| - |old(links)|
      {
        assert related[..i + 1][..i] == related[..i];
        if related[i] != project {
          var isNew := UpsertProjectLink(project, related[i], repository);
          linked := linked + [related[i]];
          if isNew { created := created + 1; }
        }
      }
      assert related[..|related|] == related;
      LinkedAllIs(old(links), project, repository, related);
      OthersAre(related, project);
    }
  }

  lemma {:induction false} OthersAre(related: seq<ProjectId>, project: ProjectId)
    ensures forall q :: q in Others(related, project) <==> q in related && q != project
  {
    if related != [] {
      OthersAre(related[..|related| - 1], project);
      assert forall q :: q in related <==> q in related[..|related| - 1] || q == related[|related| - 1];
    }
  }

  function LinkedAll(links: map<Pair, RepositoryId>, project: ProjectId, repository: RepositoryId, related: seq<ProjectId>): map<Pair, RepositoryId> {
    if related == [] then links
    else
      var rest := LinkedAll(links, project, repository, related[..|related| - 1]);
      var q := related[|related| - 1];
      if q == project then rest else rest[CanonicalPair(project, q) := repository]
  }

  /** A discovery adds the pairs of its project with every related one, and touches no other link. */
  lemma {:induction false} LinkedAllIs(links: map<Pair, RepositoryId>, project: ProjectId, repository: RepositoryId, related: seq<ProjectId>)
    ensures var after := LinkedAll(links, project, repository, related);
            && (forall l :: l in after <==> l in links || l in PairsOf(project, related))
            && forall l :: l in after ==> after[l] == if l in PairsOf(project, related) then repository else links[l]
  {
    if related != [] {
      var n := |related| - 1;
      LinkedAllIs(links, project, repository, related[..n]);
      PairsNext(project, related, n);
      assert related[..n + 1] == related;
    }
  }

  function PairsOf(project: ProjectId, related: seq<ProjectId>): set<Pair> {
    set q | q in related && q != project :: CanonicalPair(project, q)
  }

  lemma PairsNext(project: ProjectId, related: seq<ProjectId>, i: nat)
    requires i < |related|
    ensures PairsOf(project, related[..i + 1]) ==
            PairsOf(project, related[..i]) + if related[i] == project then {} else {CanonicalPair(project, related[i])}
    ensures Others(related[..i + 1], project) == Others(related[..i], project) + if related[i] == project then [] else [related[i]]
    ensures forall q :: q in related[..i + 1] <==> q in related[..i] || q == related[i]
  {
    assert related[..i + 1][..i] == related[..i] && related[..i + 1] == related[..i] + [related[i]];
  }

  function Others(related: seq<ProjectId>, project: ProjectId): seq<ProjectId> {
    if related == [] then []
    else Others(related[..|related| - 1], project) + if related[|related| - 1] == project then [] else [related[|related| - 1]]
  }

  // -------------------------------------------------------------- the protocol

  /** One run of a discovery: it has set its repository, then read the related projects, then links them. */
  datatype Phase = Detected | Assigned | Linking(todo: seq<ProjectId>)

  datatype Task = Task(project: ProjectId, phase: Phase)

  datatype Discovery = Discovery(
    owner: map<ProjectId, RepositoryId>, links: set<Pair>, tasks: map<int, Task>,
    completed: set<ProjectId>, created: map<RepositoryId, nat>)

  datatype Step =
    | Begin(task: int, project: ProjectId)
    | Assign(task: int)
    | Snapshot(task: int, related: seq<ProjectId>)
    | Link(task: int)
    | Complete(task: int)
    | Abandon(task: int)

  /** The rows a discovery reads: the projects that carry its repository, in id order. */
  ghost predicate IsRelated(s: Discovery, r: RepositoryId, related: seq<ProjectId>) {
    && (forall q :: q in related <==> q in s.owner && s.owner[q] == r)
    && (forall i, k :: 0 <= i < k < |related| ==> related[i] < related[k])
  }

  /** `home` is the repository each project lies in; it does not change. */
  ghost predicate Can(home: map<ProjectId, RepositoryId>, s: Discovery, a: Step) {
    match a
    case Begin(t, p) => t !in s.tasks && p in home
    case Assign(t) => t in s.tasks && s.tasks[t].phase.Detected?
    case Snapshot(t, related) =>
      t in s.tasks && s.tasks[t].phase.Assigned? && s.tasks[t].project in home && IsRelated(s, home[s.tasks[t].project], related)
    case Link(t) => t in s.tasks && s.tasks[t].phase.Linking? && s.tasks[t].phase.todo != []
    case Complete(t) => t in s.tasks && s.tasks[t].phase == Linking([])
    case Abandon(t) => t in s.tasks
  }

  function Count(created: map<RepositoryId, nat>, r: RepositoryId): nat { if r in created then created[r] else 0 }

  ghost function Do(home: map<ProjectId, RepositoryId>, s: Discovery, a: Step): Discovery
    requires Can(home, s, a) && forall t :: t in s.tasks ==> s.tasks[t].project in home
  {
    match a
    case Begin(t, p) => s.(tasks := s.tasks[t := Task(p, Detected)])
    case Assign(t) =>
      var p := s.tasks[t].project;
      s.(owner := s.owner[p := home[p]], tasks := s.tasks[t := Task(p, Assigned)])
    case Snapshot(t, related) => s.(tasks := s.tasks[t := Task(s.tasks[t].project, Linking(related))])
    case Link(t) =>
      var p, todo := s.tasks[t].project, s.tasks[t].phase.todo;
      var pair := CanonicalPair(p, todo[0]);
      var u := s.(tasks := s.tasks[t := Task(p, Linking(todo[1..]))]);
      if todo[0] == p || pair in s.links then u
      else u.(links := s.links + {pair}, created := s.created[home[p] := Count(s.created, home[p]) + 1])
    case Complete(t) => s.(completed := s.completed + {s.tasks[t].project}, tasks := s.tasks - {t})
    case Abandon(t) => s.(tasks := s.tasks - {t})
  }

  function Start(): Discovery { Discovery(map[], {}, map[], {}, map[]) }

  ghost predicate TasksKnown(home: map<ProjectId, RepositoryId>, s: Discovery) {
    forall t :: t in s.tasks ==> s.tasks[t].project in home
  }

  ghost predicate Valid(home: map<ProjectId, RepositoryId>, s: Discovery, run: seq<Step>)
    decreases |run|
  {
    run == [] || (TasksKnown(home, s) && Can(home, s, run[0]) && Valid(home, Do(home, s, run[0]), run[1..]))
  }

  ghost function Exec(home: map<ProjectId, RepositoryId>, s: Discovery, run: seq<Step>): Discovery
    requires Valid(home, s, run)
    decreases |run|
  {
    if run == [] then s else Exec(home, Do(home, s, run[0]), run[1..])
  }

  // --------------------------------------------------------------- invariant

  ghost predicate SameHome(home: map<ProjectId, RepositoryId>, p: ProjectId, q: ProjectId) {
    p in home && q in home && home[p] == home[q] && p != q
  }

  ghost predicate Facts(home: map<ProjectId, RepositoryId>, s: Discovery) {
    && TasksKnown(home, s)
    && (forall p :: p in s.owner ==> p in home && s.owner[p] == home[p])
    && (forall t :: t in s.tasks && !s.tasks[t].phase.Detected? ==> s.tasks[t].project in s.owner)
    && (forall p :: p in s.completed ==> p in s.owner)
    && (forall t, q :: t in s.tasks && s.tasks[t].phase.Linking? && q in s.tasks[t].phase.todo ==>
          q in home && home[q] == home[s.tasks[t].project])
    && (forall a, b :: (a, b) in s.links ==> a < b && SameHome(home, a, b))
  }

  ghost predicate Linked(s: Discovery, p: ProjectId, q: ProjectId) { CanonicalPair(p, q) in s.links }

  /** Task t links its project to q, or has already done so. */
  ghost predicate Covers(s: Discovery, t: int, q: ProjectId) {
    t in s.tasks && s.tasks[t].phase.Linking? && (q in s.tasks[t].phase.todo || Linked(s, s.tasks[t].project, q))
  }

  ghost predicate BothLinking(home: map<ProjectId, RepositoryId>, t: Task, u: Task) {
    t.phase.Linking? && u.phase.Linking? && SameHome(home, t.project, u.project)
  }

  /**
   Of two discoveries in one repository that have read their related projects, at
   least one has the other's project before it; a completed one has linked it.
   */
  ghost predicate OneSeesOther(home: map<ProjectId, RepositoryId>, s: Discovery) {
    && (forall t, u :: t in s.tasks && u in s.tasks && BothLinking(home, s.tasks[t], s.tasks[u]) ==>
          Covers(s, t, s.tasks[u].project) || Covers(s, u, s.tasks[t].project))
    && (forall t, q :: t in s.tasks && q in s.completed && s.tasks[t].phase.Linking? && SameHome(home, s.tasks[t].project, q) ==>
          Covers(s, t, q))
    && (forall p, q :: p in s.completed && q in s.completed && SameHome(home, p, q) ==> Linked(s, p, q))
  }

  ghost function LinksOf(home: map<ProjectId, RepositoryId>, s: Discovery, r: RepositoryId): set<Pair> {
    set l | l in s.links && l.0 in home && home[l.0] == r
  }

  ghost predicate CountsOk(home: map<ProjectId, RepositoryId>, s: Discovery) {
    forall r :: Count(s.created, r) == |LinksOf(home, s, r)|
  }

  ghost predicate Inv(home: map<ProjectId, RepositoryId>, s: Discovery) {
    Facts(home, s) && OneSeesOther(home, s) && CountsOk(home, s)
  }

  lemma InvStart(home: map<ProjectId, RepositoryId>)
    ensures Inv(home, Start())
  {
    forall r ensures LinksOf(home, Start(), r) == {} {}
  }

  lemma FactsKept(home: map<ProjectId, RepositoryId>, s: Discovery, a: Step)
    requires Facts(home, s) && Can(home, s, a)
    ensures Facts(home, Do(home, s, a))
  {
  }

  /** The pair a link step adds, if it adds one. */
  ghost predicate Adds(home: map<ProjectId, RepositoryId>, s: Discovery, a: Step, pair: Pair)
    requires Facts(home, s) && Can(home, s, a)
  {
    a.Link? && pair == CanonicalPair(s.tasks[a.task].project, s.tasks[a.task].phase.todo[0]) && pair !in s.links
    && s.tasks[a.task].phase.todo[0] != s.tasks[a.task].project
  }

  lemma LinksChange(home: map<ProjectId, RepositoryId>, s: Discovery, a: Step)
    requires Facts(home, s) && Can(home, s, a)
    ensures (Do(home, s, a).links == s.links && Do(home, s, a).created == s.created)
            || exists pair :: Adds(home, s, a, pair) && Do(home, s, a).links == s.links + {pair} && pair.0 in home
                 && home[pair.0] == home[s.tasks[a.task].project]
                 && Do(home, s, a).created == s.created[home[pair.0] := Count(s.created, home[pair.0]) + 1]
  {
    if a.Link? {
      var p, todo := s.tasks[a.task].project, s.tasks[a.task].phase.todo;
      assert todo[0] in todo;
      var pair := CanonicalPair(p, todo[0]);
      if todo[0] != p && pair !in s.links { assert Adds(home, s, a, pair); }
    }
  }

  lemma CountsKept(home: map<ProjectId, RepositoryId>, s: Discovery, a: Step)
    requires Facts(home, s) && CountsOk(home, s) && Can(home, s, a)
    ensures CountsOk(home, Do(home, s, a))
  {
    var t := Do(home, s, a);
    LinksChange(home, s, a);
    if t.links == s.links && t.created == s.created {
      forall r ensures LinksOf(home, t, r) == LinksOf(home, s, r) {}
    } else {
      var pair :| Adds(home, s, a, pair) && t.links == s.links + {pair} && pair.0 in home
                  && t.created == s.created[home[pair.0] := Count(s.created, home[pair.0]) + 1];
      forall r ensures Count(t.created, r) == |LinksOf(home, t, r)| {
        OneMoreLink(home, s, t, pair, r);
      }
    }
  }

  lemma OneMoreLink(home: map<ProjectId, RepositoryId>, s: Discovery, t: Discovery, pair: Pair, r: RepositoryId)
    requires t.links == s.links + {pair} && pair !in s.links && pair.0 in home
    ensures |LinksOf(home, t, r)| == |LinksOf(home, s, r)| + if home[pair.0] == r then 1 else 0
  {
    if home[pair.0] == r {
      assert LinksOf(home, t, r) == LinksOf(home, s, r) + {pair};
    } else {
      assert LinksOf(home, t, r) == LinksOf(home, s, r);
    }
  }

  /** Links and owners are never taken back. */
  lemma Monotone(home: map<ProjectId, RepositoryId>, s: Discovery, a: Step)
    requires Facts(home, s) && Can(home, s, a)
    ensures s.links <= Do(home, s, a).links && s.owner.Keys <= Do(home, s, a).owner.Keys
  {
  }

  /** A linking task after the step: it was linking before and still covers what it covered, or it has just read everyone. */
  lemma TaskAfter(home: map<ProjectId, RepositoryId>, s: Discovery, a: Step, x: int)
    requires Facts(home, s) && Can(home, s, a) && x in Do(home, s, a).tasks && Do(home, s, a).tasks[x].phase.Linking?
    ensures x in s.tasks && s.tasks[x].project == Do(home, s, a).tasks[x].project
    ensures (s.tasks[x].phase.Linking? && forall q :: Covers(s, x, q) && q != s.tasks[x].project ==> Covers(Do(home, s, a), x, q))
            || (a.Snapshot? && a.task == x &&
                forall q :: SameHome(home, s.tasks[x].project, q) && q in s.owner ==> Covers(Do(home, s, a), x, q))
  {
  }

  lemma SeesKept(home: map<ProjectId, RepositoryId>, s: Discovery, a: Step)
    requires Facts(home, s) && OneSeesOther(home, s) && Can(home, s, a)
    ensures OneSeesOther(home, Do(home, s, a))
  {
    var t := Do(home, s, a);
    Monotone(home, s, a);
    forall x, y | x in t.tasks && y in t.tasks && BothLinking(home, t.tasks[x], t.tasks[y])
      ensures Covers(t, x, t.tasks[y].project) || Covers(t, y, t.tasks[x].project)
    {
      TaskAfter(home, s, a, x);
      TaskAfter(home, s, a, y);
      assert s.tasks[x].project in s.owner && s.tasks[y].project in s.owner;
      if s.tasks[x].phase.Linking? && s.tasks[y].phase.Linking? { assert BothLinking(home, s.tasks[x], s.tasks[y]); }
    }
    forall x, q | x in t.tasks && q in t.completed && t.tasks[x].phase.Linking? && SameHome(home, t.tasks[x].project, q)
      ensures Covers(t, x, q)
    {
      TaskAfter(home, s, a, x);
      CompletedAfter(home, s, a, q);
      if q !in s.completed { assert BothLinking(home, s.tasks[x], s.tasks[a.task]); }
    }
    forall p, q | p in t.completed && q in t.completed && SameHome(home, p, q)
      ensures Linked(t, p, q)
    {
      CompletedAfter(home, s, a, p);
      CompletedAfter(home, s, a, q);
    }
  }

  lemma CompletedAfter(home: map<ProjectId, RepositoryId>, s: Discovery, a: Step, q: ProjectId)
    requires Facts(home, s) && Can(home, s, a) && q in Do(home, s, a).completed
    ensures q in s.completed || (a.Complete? && s.tasks[a.task] == Task(q, Linking([])))
    ensures q in s.owner
  {
  }

  lemma InvKept(home: map<ProjectId, RepositoryId>, s: Discovery, a: Step)
    requires Inv(home, s) && Can(home, s, a)
    ensures Inv(home, Do(home, s, a))
  {
    FactsKept(home, s, a);
    SeesKept(home, s, a);
    CountsKept(home, s, a);
  }

  lemma {:induction false} InvAlways(home: map<ProjectId, RepositoryId>, s: Discovery, run: seq<Step>)
    requires Inv(home, s) && Valid(home, s, run)
    ensures Inv(home, Exec(home, s, run))
    decreases |run|
  {
    if run != [] {
      InvKept(home, s, run[0]);
      InvAlways(home, Do(home, s, run[0]), run[1..]);
    }
  }

  // ---------------------------------------------------------------- convergence

  ghost function Group(home: map<ProjectId, RepositoryId>, r: RepositoryId): set<ProjectId> {
    set p | p in home && home[p] == r
  }

  ghost function Pairs(ps: set<ProjectId>): set<Pair> {
    set a, b | a in ps && b in ps && a < b :: (a, b)
  }

  /**
   However the discoveries interleave, repeat or are abandoned: once every project
   has completed one, the links are exactly the canonical pairs of projects in one
   repository, and the links created for a repository of n projects are n(n-1)/2.
   */
  lemma LinksConverge(home: map<ProjectId, RepositoryId>, run: seq<Step>, r: RepositoryId)
    requires Valid(home, Start(), run) && home.Keys <= Exec(home, Start(), run).completed
    ensures var s := Exec(home, Start(), run);
            && (forall a, b :: (a, b) in s.links <==> a < b && SameHome(home, a, b))
            && Count(s.created, r) == |Group(home, r)| * (|Group(home, r)| - 1) / 2
  {
    InvStart(home);
    InvAlways(home, Start(), run);
    var s := Exec(home, Start(), run);
    forall a, b | a < b && SameHome(home, a, b) ensures (a, b) in s.links {
      assert Linked(s, a, b);
    }
    assert LinksOf(home, s, r) == Pairs(Group(home, r)) by {
      forall l ensures l in LinksOf(home, s, r) <==> l in Pairs(Group(home, r)) {
        var (a, b) := l;
        if a in home && b in home && home[a] == r && home[b] == r && a < b { assert SameHome(home, a, b); }
        if (a, b) in s.links { assert a < b && SameHome(home, a, b); }
      }
    }
    PairCount(Group(home, r));
  }

  lemma {:induction false} PairCount(ps: set<ProjectId>)
    ensures |Pairs(ps)| == |ps| * (|ps| - 1) / 2
    decreases |ps|
  {
    if ps == {} {
      assert Pairs(ps) == {};
    } else {
      SomeMember(ps);
      var p :| p in ps;
      var rest := ps - {p};
      PairsSplit(ps, p);
      PairsWith(p, rest);
      PairCount(rest);
      Halves(|rest|);
    }
  }

  lemma PairsSplit(ps: set<ProjectId>, p: ProjectId)
    requires p in ps
    ensures var rest := ps - {p}; var mine := set q | q in rest :: CanonicalPair(p, q);
            |Pairs(ps)| == |Pairs(rest)| + |mine|
  {
    var rest := ps - {p};
    var mine := set q | q in rest :: CanonicalPair(p, q);
    forall l ensures l in Pairs(ps) <==> l in Pairs(rest) || l in mine {
      var (a, b) := l;
      if l in Pairs(ps) && l !in Pairs(rest) {
        var q := if a == p then b else a;
        assert q in rest && l == CanonicalPair(p, q);
      }
    }
    assert Pairs(ps) == Pairs(rest) + mine;
    assert Pairs(rest) !! mine;
  }

  lemma Halves(n: nat)
    ensures n * (n - 1) / 2 + n == (n + 1) * n / 2
  {
    assert (n + 1) * n == n * (n - 1) + 2 * n;
  }

  lemma {:induction false} PairsWith(p: ProjectId, qs: set<ProjectId>)
    requires p !in qs
    ensures |(set q | q in qs :: CanonicalPair(p, q))| == |qs|
    decreases |qs|
  {
    var all := set q | q in qs :: CanonicalPair(p, q);
    if qs == {} {
      assert all == {};
    } else {
      SomeMember(qs);
      var q :| q in qs;
      var rest := set x | x in qs - {q} :: CanonicalPair(p, x);
      PairsWith(p, qs - {q});
      assert all == rest + {CanonicalPair(p, q)};
      assert CanonicalPair(p, q) !in rest;
    }
  }
}
