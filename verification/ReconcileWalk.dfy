/**
 The walk that refreshes every workflow group, page by page, while queue steps and
 other refreshes go on between its statements.
 */
module ReconcileWalk {
  import opened Common
  import opened JobTables
  import opened JobProtocol
  import opened JobInvariants
  import opened WorkflowStatus
  import opened ReadModel

  /** How far the walk is: between pages, before the read or the write of a group of its page, or over. */
  datatype Walk =
    | Fetching(after: Option<int>)
    | AtRead(page: seq<int>, i: nat)
    | AtWrite(page: seq<int>, i: nat, refresh: RefreshId)
    | Finished
    | Broken

  /** The model with one walk; `written` are the groups it has refreshed. */
  datatype World = World(model: Model, walk: Walk, written: set<int>)

  datatype Move =
    | Other(step: Step)
    | Fetch(page: seq<int>)
    | ReadNext(refresh: RefreshId)
    | WriteNext
    | Break

  ghost predicate May(w: World, limit: nat, a: Move) {
    match a
    case Other(step) =>
      Can(w.model, step) && (w.walk.AtWrite? && (step.Write? || step.Drop?) ==> step.refresh != w.walk.refresh)
    case Fetch(page) => w.walk.Fetching? && GroupsPage(w.model.sys.db.jobs, w.walk.after, limit, page)
    case ReadNext(id) => w.walk.AtRead? && w.walk.i < |w.walk.page| && Can(w.model, Read(id, w.walk.page[w.walk.i]))
    case WriteNext => w.walk.AtWrite? && w.walk.i < |w.walk.page| && w.walk.refresh in w.model.pending
    case Break => !w.walk.Finished? && (w.walk.AtWrite? ==> w.walk.refresh in w.model.pending)
  }

  /** After the last group of a page the walk is over if the page was short. */
  function Onward(page: seq<int>, i: nat, limit: nat): Walk {
    if i < |page| then AtRead(page, i)
    else if |page| < limit || page == [] then Finished
    else Fetching(Some(page[|page| - 1]))
  }

  ghost function Make(w: World, limit: nat, a: Move): World
    requires May(w, limit, a)
  {
    match a
    case Other(step) => w.(model := Do(w.model, step))
    case Fetch(page) => w.(walk := Onward(page, 0, limit))
    case ReadNext(id) => w.(model := Do(w.model, Read(id, w.walk.page[w.walk.i])), walk := AtWrite(w.walk.page, w.walk.i, id))
    case WriteNext =>
      World(Do(w.model, Write(w.walk.refresh)), Onward(w.walk.page, w.walk.i + 1, limit), w.written + {w.walk.page[w.walk.i]})
    case Break => World(if w.walk.AtWrite? then Do(w.model, Drop(w.walk.refresh)) else w.model, Broken, w.written)
  }

  ghost predicate Walks(w: World, limit: nat, run: seq<Move>)
    decreases |run|
  {
    run == [] || (May(w, limit, run[0]) && Walks(Make(w, limit, run[0]), limit, run[1..]))
  }

  ghost function Reach(w: World, limit: nat, run: seq<Move>): World
    requires Walks(w, limit, run)
    decreases |run|
  {
    if run == [] then w else Reach(Make(w, limit, run[0]), limit, run[1..])
  }

  // ---------------------------------------------------------------- coverage

  /** The group is on the rest of the page or beyond a full one. */
  predicate InRest(page: seq<int>, i: nat, limit: nat, g: int) {
    (exists k :: i <= k < |page| && page[k] == g) || (|page| == limit && page != [] && g > page[|page| - 1])
  }

  /** The walk still has to refresh the group. */
  predicate Ahead(walk: Walk, limit: nat, g: int) {
    match walk
    case Fetching(after) => after.Some? ==> g > after.value
    case AtRead(page, i) => InRest(page, i, limit, g)
    case AtWrite(page, i, _) => InRest(page, i, limit, g)
    case Finished => false
    case Broken => true
  }

  /** Each of the groups has a job and is done or ahead. */
  ghost predicate Covers(w: World, limit: nat, groups: set<int>) {
    forall g :: g in groups ==> Members(w.model.sys.db.jobs, g) != {} && (g in w.written || Ahead(w.walk, limit, g))
  }

  /** The groups of the page have jobs, and the refresh under way is of the group the walk stands at. */
  ghost predicate OnPage(w: World, limit: nat) {
    && (w.walk.AtRead? || w.walk.AtWrite? ==>
          w.walk.i < |w.walk.page| <= limit && forall g :: g in w.walk.page ==> Members(w.model.sys.db.jobs, g) != {})
    && (w.walk.AtWrite? ==>
          w.walk.refresh in w.model.pending && w.model.pending[w.walk.refresh].group == w.walk.page[w.walk.i])
  }

  /** A group that has a job keeps it. */
  lemma MembersStay(m: Model, a: Step, g: int)
    requires Can(m, a) && Members(m.sys.db.jobs, g) != {}
    ensures Members(Do(m, a).sys.db.jobs, g) != {}
  {
    SomeMember(Members(m.sys.db.jobs, g));
    var j :| j in Members(m.sys.db.jobs, g);
    if a.Queue? { RowFootprint(m.sys, a.action, j); }
    assert j in Members(Do(m, a).sys.db.jobs, g);
  }

  lemma OnwardKeeps(page: seq<int>, i: nat, limit: nat, g: int)
    requires |page| <= limit && InRest(page, i, limit, g)
    ensures Ahead(Onward(page, i, limit), limit, g)
  {
  }

  lemma OnPageKept(w: World, limit: nat, a: Move)
    requires May(w, limit, a) && OnPage(w, limit)
    ensures OnPage(Make(w, limit, a), limit)
  {
    var v := Make(w, limit, a);
    if a.Other? {
      if w.walk.AtRead? || w.walk.AtWrite? { forall g | g in w.walk.page ensures Members(v.model.sys.db.jobs, g) != {} { MembersStay(w.model, a.step, g); } }
    }
    if a.ReadNext? { assert w.walk.page[w.walk.i] in w.walk.page; }
  }

  /** One move leaves no group behind. */
  lemma CoversStep(w: World, limit: nat, a: Move, g: int)
    requires May(w, limit, a) && OnPage(w, limit)
    requires Members(w.model.sys.db.jobs, g) != {} && (g in w.written || Ahead(w.walk, limit, g))
    ensures Members(Make(w, limit, a).model.sys.db.jobs, g) != {}
    ensures g in Make(w, limit, a).written || Ahead(Make(w, limit, a).walk, limit, g)
  {
    match a
    case Other(step) => MembersStay(w.model, step, g);
    case Fetch(page) =>
      if g !in w.written {
        if g in page { var k :| 0 <= k < |page| && page[k] == g; }
        OnwardKeeps(page, 0, limit, g);
      }
    case ReadNext(id) =>
    case WriteNext =>
      if g !in w.written && g != w.walk.page[w.walk.i] {
        assert InRest(w.walk.page, w.walk.i + 1, limit, g);
        OnwardKeeps(w.walk.page, w.walk.i + 1, limit, g);
      }
    case Break =>
  }

  lemma {:induction false} CoversAlways(w: World, limit: nat, run: seq<Move>, groups: set<int>)
    requires Walks(w, limit, run) && OnPage(w, limit) && Covers(w, limit, groups)
    ensures OnPage(Reach(w, limit, run), limit) && Covers(Reach(w, limit, run), limit, groups)
    decreases |run|
  {
    if run != [] {
      OnPageKept(w, limit, run[0]);
      forall g | g in groups
        ensures Members(Make(w, limit, run[0]).model.sys.db.jobs, g) != {}
        ensures g in Make(w, limit, run[0]).written || Ahead(Make(w, limit, run[0]).walk, limit, g)
      {
        CoversStep(w, limit, run[0], g);
      }
      CoversAlways(Make(w, limit, run[0]), limit, run[1..], groups);
    }
  }

  /** A walk that starts over. */
  ghost predicate Sets(w: World) { w.walk == Fetching(None) && w.written == {} }

  /** A finished walk has refreshed every group that had a job when it started, whatever came between. */
  lemma WalkCovers(w: World, limit: nat, run: seq<Move>, g: int)
    requires Sets(w) && Walks(w, limit, run) && Members(w.model.sys.db.jobs, g) != {} && Reach(w, limit, run).walk.Finished?
    ensures g in Reach(w, limit, run).written
  {
    CoversAlways(w, limit, run, {g});
  }

  // --------------------------------------------------------------- agreement

  /** No step of the run writes a job of the group. */
  ghost predicate LeftAloneBy(w: World, limit: nat, run: seq<Move>, g: int)
    requires Walks(w, limit, run)
    decreases |run|
  {
    run == [] ||
    ((run[0].Other? ==> LeavesGroup(w.model, run[0].step, g)) && LeftAloneBy(Make(w, limit, run[0]), limit, run[1..], g))
  }

  lemma MoveIsQuiet(w: World, limit: nat, a: Move, g: int)
    requires May(w, limit, a) && OnPage(w, limit) && NoneStale(w.model, g) && (a.Other? ==> LeavesGroup(w.model, a.step, g))
    ensures NoneStale(Make(w, limit, a).model, g)
    ensures Agreeing(w.model, g) ==> Agreeing(Make(w, limit, a).model, g)
    ensures a.WriteNext? && w.walk.page[w.walk.i] == g ==> Agreeing(Make(w, limit, a).model, g)
  {
    match a
    case Other(step) => QuietStep(w.model, step, g);
    case Fetch(page) =>
    case ReadNext(id) => QuietStep(w.model, Read(id, w.walk.page[w.walk.i]), g);
    case WriteNext => QuietStep(w.model, Write(w.walk.refresh), g);
    case Break => if w.walk.AtWrite? { QuietStep(w.model, Drop(w.walk.refresh), g); }
  }

  /** The group agrees, or the walk stands before its write. */
  ghost predicate Settled(w: World, g: int) {
    Agreeing(w.model, g) || (w.walk.AtWrite? && w.walk.i < |w.walk.page| && w.walk.page[w.walk.i] == g)
  }

  lemma {:induction false} SettledAlways(w: World, limit: nat, run: seq<Move>, g: int)
    requires Walks(w, limit, run) && OnPage(w, limit) && NoneStale(w.model, g) && LeftAloneBy(w, limit, run, g) && Settled(w, g)
    requires !Reach(w, limit, run).walk.Broken?
    ensures Settled(Reach(w, limit, run), g)
    decreases |run|
  {
    if run != [] {
      MoveIsQuiet(w, limit, run[0], g);
      OnPageKept(w, limit, run[0]);
      if run[0].Break? { BrokenStays(Make(w, limit, run[0]), limit, run[1..]); }
      SettledAlways(Make(w, limit, run[0]), limit, run[1..], g);
    }
  }

  lemma {:induction false} BrokenStays(w: World, limit: nat, run: seq<Move>)
    requires Walks(w, limit, run) && w.walk.Broken?
    ensures Reach(w, limit, run).walk.Broken?
    decreases |run|
  {
    if run != [] { BrokenStays(Make(w, limit, run[0]), limit, run[1..]); }
  }

  /**
   Once the walk has read a group, and no other refresh of it with an outdated
   reading is under way then, its row agrees when the walk is over, whatever other
   refreshes and groups do, unless a job of the group changes meanwhile.
   */
  lemma AgreesAfterRead(w: World, limit: nat, run: seq<Move>, g: int)
    requires Walks(w, limit, run) && OnPage(w, limit) && w.walk.AtWrite? && w.walk.page[w.walk.i] == g
    requires NoneStale(w.model, g) && LeftAloneBy(w, limit, run, g) && Reach(w, limit, run).walk.Finished?
    ensures Agreeing(Reach(w, limit, run).model, g)
  {
    SettledAlways(w, limit, run, g);
  }

  lemma {:induction false} WrittenAgrees(w: World, limit: nat, run: seq<Move>, g: int)
    requires Walks(w, limit, run) && OnPage(w, limit) && NoneStale(w.model, g) && LeftAloneBy(w, limit, run, g)
    requires g in w.written ==> Agreeing(w.model, g)
    ensures g in Reach(w, limit, run).written ==> Agreeing(Reach(w, limit, run).model, g)
    decreases |run|
  {
    if run != [] {
      MoveIsQuiet(w, limit, run[0], g);
      OnPageKept(w, limit, run[0]);
      WrittenAgrees(Make(w, limit, run[0]), limit, run[1..], g);
    }
  }

  /**
   A finished walk leaves every group in agreement that had a job when it started,
   had no outdated refresh under way then and was not changed meanwhile.
   */
  lemma WalkRestores(w: World, limit: nat, run: seq<Move>, g: int)
    requires Sets(w) && Walks(w, limit, run) && Members(w.model.sys.db.jobs, g) != {} && Reach(w, limit, run).walk.Finished?
    requires NoneStale(w.model, g) && LeftAloneBy(w, limit, run, g)
    ensures Agreeing(Reach(w, limit, run).model, g)
  {
    WalkCovers(w, limit, run, g);
    WrittenAgrees(w, limit, run, g);
  }
}
