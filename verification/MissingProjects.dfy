/**
 Marking projects missing after a scan: which rows are marked, and why a project
 that is still on disk is not.
 */
module MissingProjects {
  import opened Common
  import opened Text
  import opened Paths
  import opened DirectoryScan
  import opened Traversal
  import opened TraversalResult

  datatype ProjectStatus = Active | Missing | Disabled

  datatype Project = Project(root: int, rel: string, status: ProjectStatus)

  // ---------------------------------------------------------------- the store

  /** The rows a scan marks: active, of this root, unseen, and outside every errored subtree. */
  predicate ToMark(r: Project, root: int, seen: set<string>, errored: set<string>) {
    r.root == root && r.status == Active && r.rel !in seen && !UnderErroredSubtree(r.rel, errored)
  }

  function Marked(rows: map<int, Project>, ids: set<int>): map<int, Project> {
    map id | id in rows :: if id in ids then rows[id].(status := Missing) else rows[id]
  }

  function IdsToMark(rows: map<int, Project>, root: int, seen: set<string>, errored: set<string>): set<int> {
    set id | id in rows && ToMark(rows[id], root, seen, errored)
  }

  /**
   The rows are read and written in two statements, and the second one looks at
   ids only: a row that would no longer be marked, because it was disabled or
   stored again in between, becomes missing exactly when it would have been marked
   as it was read.
   */
  lemma LateUpdateIff(read: map<int, Project>, now: map<int, Project>, root: int, seen: set<string>, errored: set<string>, id: int)
    requires id in now && now[id].status != Missing
    ensures var ids := IdsToMark(read, root, seen, errored);
            Marked(now, ids)[id].status == Missing <==> id in read && ToMark(read[id], root, seen, errored)
    ensures var ids := IdsToMark(read, root, seen, errored);
            Marked(now, ids)[id].status != Missing ==> Marked(now, ids)[id] == now[id]
  {
  }

  function Flatten<T>(parts: seq<seq<T>>): seq<T> {
    if parts == [] then [] else Flatten(parts[..|parts| - 1]) + parts[|parts| - 1]
  }

  lemma FlattenMore<T>(parts: seq<seq<T>>, part: seq<T>)
    ensures Flatten(parts + [part]) == Flatten(parts) + part
  {
    assert (parts + [part])[..|parts|] == parts;
  }

  /** Cuts a list into pieces of the given size; a size of zero or less makes one piece. */
  method Batches<T>(values: seq<T>, size: int) returns (out: seq<seq<T>>)
    ensures Flatten(out) == values
    ensures forall i :: 0 <= i < |out| ==> 0 < |out[i]| && (size > 0 ==> |out[i]| <= size)
    ensures size > 0 ==> forall i :: 0 <= i < |out| - 1 ==> |out[i]| == size
    ensures size <= 0 ==> |out| <= 1
  {
    out := [];
    if values == [] { return; }
    var n := if size <= 0 then |values| else size;
    var start := 0;
    while start < |values|
      invariant 0 <= start <= |values| && Flatten(out) == values[..start]
      invariant forall i :: 0 <= i < |out| ==> 0 < |out[i]| <= n
      invariant start < |values| ==> forall i :: 0 <= i < |out| ==> |out[i]| == n
      invariant forall i :: 0 <= i < |out| - 1 ==> |out[i]| == n
      invariant size <= 0 ==> |out| == if start == 0 then 0 else 1
      invariant size <= 0 ==> start == 0 || start == |values|
    {
      var end := if start + n > |values| then |values| else start + n;
      FlattenMore(out, values[start..end]);
      out := out + [values[start..end]];
      assert values[..end] == values[..start] + values[start..end];
      start := end;
    }
    assert values[..start] == values;
  }

  class ProjectTable {
    var rows: map<int, Project>

    constructor (rows: map<int, Project>)
      ensures this.rows == rows
    {
      this.rows := rows;
    }

    /** UPDATE ... WHERE id IN (...). */
    method MarkIds(ids: seq<int>)
      modifies this
      ensures rows == Marked(old(rows), set id | id in ids)
    {
      rows := map id | id in rows :: if id in ids then rows[id].(status := Missing) else rows[id];
    }

    /**
     Marks exactly the rows of ToMark and returns how many they are; every other
     row, disabled ones among them, is left alone.
     */
    method MarkMissingProjects(root: int, seen: set<string>, errored: set<string>, size: int) returns (n: nat)
      modifies this
      ensures rows == Marked(old(rows), IdsToMark(old(rows), root, seen, errored))
      ensures n == |IdsToMark(old(rows), root, seen, errored)|
      ensures rows.Keys == old(rows).Keys && forall id :: id in rows ==>
                var r := old(rows)[id];
                rows[id] == if r.root == root && r.status == Active && r.rel !in seen && !UnderErroredSubtree(r.rel, errored)
                            then r.(status := Missing) else r
    {
      var missing := SelectMissing(root, seen, errored);
      var batches := Batches(missing, size);
      ghost var all := IdsToMark(rows, root, seen, errored);
      assert (set id | id in missing) == all by {
        forall id ensures id in (set x | x in missing) <==> id in all {
          assert id in missing <==> id in IdsToMark(rows, root, seen, errored);
        }
      }
      ghost var done: seq<int> := [];
      var i := 0;
      assert rows == Marked(rows, {});
      while i < |batches|
        invariant 0 <= i <= |batches| && done == Flatten(batches[..i])
        invariant rows == Marked(old(rows), set id | id in done)
      {
        MarkIds(batches[i]);
        assert batches[..i + 1][..i] == batches[..i];
        done := done + batches[i];
        i := i + 1;
      }
      assert batches[..i] == batches;
      assert done == missing;
      assert (set id | id in done) == all;
      return |missing|;
    }

    /** The scan over the active rows of the root. */
    method SelectMissing(root: int, seen: set<string>, errored: set<string>) returns (missing: seq<int>)
      ensures forall id :: id in missing <==> id in IdsToMark(rows, root, seen, errored)
      ensures |missing| == |IdsToMark(rows, root, seen, errored)|
    {
      missing := [];
      var todo := rows.Keys;
      while todo != {}
        invariant todo <= rows.Keys
        invariant forall id :: id in missing <==> id in IdsToMark(rows, root, seen, errored) - todo
        invariant |missing| == |IdsToMark(rows, root, seen, errored) - todo|
        decreases |todo|
      {
        SomeMember(todo);
        var id :| id in todo;
        ghost var all := IdsToMark(rows, root, seen, errored);
        if rows[id].root == root && rows[id].status == Active {
          var under := UnderErrored(rows[id].rel, errored);
          if rows[id].rel !in seen && !under { missing := missing + [id]; }
        }
        assert all - (todo - {id}) == if id in all then (all - todo) + {id} else all - todo;
        todo := todo - {id};
      }
      assert IdsToMark(rows, root, seen, errored) - {} == IdsToMark(rows, root, seen, errored);
    }
  }

  /** The loop over the errored subtrees. */
  method UnderErrored(rel: string, subtrees: set<string>) returns (b: bool)
    ensures b <==> UnderErroredSubtree(rel, subtrees)
  {
    var clean := CleanRelative(rel);
    var todo := subtrees;
    while todo != {}
      invariant todo <= subtrees
      invariant forall t :: t in subtrees && t !in todo ==> !Covers(CleanRelative(t), clean)
      decreases |todo|
    {
      SomeText(todo);
      var t :| t in todo;
      if Covers(CleanRelative(t), clean) { return true; }
      todo := todo - {t};
    }
    return false;
  }

  lemma SomeText(s: set<string>)
    requires s != {}
    ensures exists t: string :: t in s
  {
    if !exists t: string :: t in s { assert false; }
  }

  // ------------------------------------------------- what is really on the disk

  /** Reachable on disk: no directory above holds Terraform files, and no directory on the way is ignored, ".git" or a link. */
  ghost predicate OnDisk(disk: map<Path, seq<Entry>>, p: Path)
    decreases |p|
  {
    p in disk && (p == [] || (OnDisk(disk, Parent(p)) && Leads(disk[Parent(p)], p[|p| - 1])))
  }

  // ------------------------------------------- what one ended scan has recorded

  /** The scan reads directory p, a Terraform directory, and stores its row under the key. */
  ghost predicate Stored(w: World, p: Path, key: string)
    requires w.fate.Keys == w.disk.Keys
  {
    && Reached(PlanOf(w), p) && IsTerraform(w.disk[p]) && RowKey(p) == Some(key)
    && !w.fate[p].Cancelled? && !w.fate[p].Unreadable? && !w.fate[p].UpsertFails?
  }

  /** What goes wrong in directory p records an error under the key: for the root when the scan is cancelled there. */
  predicate ErrorOf(p: Path, entries: seq<Entry>, f: Fate, key: string) {
    if f.Cancelled? then key == ErrorKey([])
    else key == ErrorKey(p) && (f.Unreadable? || (IsTerraform(entries) && (f.UpsertFails? || f.EnqueueFails? || RowKey(p).None?)))
  }

  ghost predicate Records(w: World, p: Path, key: string)
    requires w.fate.Keys == w.disk.Keys
  {
    Reached(PlanOf(w), p) && ErrorOf(p, w.disk[p], w.fate[p], key)
  }

  lemma SeenSection(p: Path, entries: seq<Entry>, f: Fate, key: string)
    ensures (exists i :: 0 <= i < |SectionsOf(p, entries, f)| && SectionsOf(p, entries, f)[i].Seen? && SectionsOf(p, entries, f)[i].key == key)
            <==> IsTerraform(entries) && RowKey(p) == Some(key) && !f.Cancelled? && !f.Unreadable? && !f.UpsertFails?
  {
    var cs := SectionsOf(p, entries, f);
    if f.Cancelled? || f.Unreadable? {
    } else if IsTerraform(entries) {
      var body := ProjectSections(p, entries, f);
      assert forall i :: 0 < i < |cs| ==> cs[i] == body[i - 1];
      if RowKey(p) == Some(key) && !f.UpsertFails? { assert cs[1].Seen? && cs[1].key == key; }
    } else {
      SkipsOnly(entries);
      assert forall i :: 0 < i < |cs| ==> cs[i] in SkipSections(entries);
    }
  }

  lemma ErroredSection(p: Path, entries: seq<Entry>, f: Fate, key: string)
    ensures (exists i :: 0 <= i < |SectionsOf(p, entries, f)| && SectionsOf(p, entries, f)[i] == Errored(key)) <==> ErrorOf(p, entries, f, key)
  {
    var cs := SectionsOf(p, entries, f);
    if f.Cancelled? || f.Unreadable? {
      if ErrorOf(p, entries, f, key) { assert cs[0] == Errored(key); }
    } else if IsTerraform(entries) {
      var body := ProjectSections(p, entries, f);
      assert forall i :: 0 < i < |cs| ==> cs[i] == body[i - 1];
      if ErrorOf(p, entries, f, key) { assert cs[|cs| - 1] == Errored(key); }
    } else {
      SkipsOnly(entries);
      assert forall i :: 0 < i < |cs| ==> cs[i] in SkipSections(entries);
    }
  }

  lemma {:induction false} SkipsOnly(entries: seq<Entry>)
    ensures forall c :: c in SkipSections(entries) ==> c.Skipped?
  {
    if entries != [] { SkipsOnly(entries[..|entries| - 1]); }
  }

  /**
   The seen texts are exactly the row keys of the Terraform directories that were
   read and stored.
   */
  lemma SeenIff(w: World, known: set<string>, n: nat, run: seq<Step>, key: string)
    requires WorldOk(w) && n > 0 && Valid(PlanOf(w), known, Initial(n), run)
    requires AllExited(Exec(PlanOf(w), known, Initial(n), run))
    ensures key in Exec(PlanOf(w), known, Initial(n), run).tally.seen <==> exists p :: Stored(w, p, key)
  {
    var plan := PlanOf(w);
    PlanOfOk(w);
    EndOfRun(plan, known, n, run);
    if key in SeenKeys(plan, Everything(plan)) {
      var p, i :| p in Everything(plan) && 0 <= i < Everything(plan)[p] && plan[p].sections[i].Seen? && plan[p].sections[i].key == key;
      SeenSection(p, w.disk[p], w.fate[p], key);
      assert Stored(w, p, key);
    }
    if p :| Stored(w, p, key) {
      SeenSection(p, w.disk[p], w.fate[p], key);
      var i :| 0 <= i < |plan[p].sections| && plan[p].sections[i].Seen? && plan[p].sections[i].key == key;
      assert p in Everything(plan) && 0 <= i < Everything(plan)[p];
    }
  }

  /** The errored subtrees are exactly the keys under which a directory that was reached records an error. */
  lemma ErroredIff(w: World, known: set<string>, n: nat, run: seq<Step>, key: string)
    requires WorldOk(w) && n > 0 && Valid(PlanOf(w), known, Initial(n), run)
    requires AllExited(Exec(PlanOf(w), known, Initial(n), run))
    ensures key in Exec(PlanOf(w), known, Initial(n), run).tally.errored <==> exists p :: Records(w, p, key)
  {
    var plan := PlanOf(w);
    PlanOfOk(w);
    EndOfRun(plan, known, n, run);
    if key in ErroredKeys(plan, Everything(plan)) {
      var p, i :| p in Everything(plan) && 0 <= i < Everything(plan)[p] && plan[p].sections[i].Errored? && plan[p].sections[i].key == key;
      assert plan[p].sections[i] == Errored(key);
      ErroredSection(p, w.disk[p], w.fate[p], key);
      assert Records(w, p, key);
    }
    if p :| Records(w, p, key) {
      ErroredSection(p, w.disk[p], w.fate[p], key);
      var i :| 0 <= i < |plan[p].sections| && plan[p].sections[i] == Errored(key);
      assert p in Everything(plan) && 0 <= i < Everything(plan)[p] && plan[p].sections[i].Errored?;
    }
  }

  /** The error recorded under the key keeps rows of the given text from being marked. */
  predicate Shields(key: string, rel: string) { Covers(CleanRelative(key), CleanRelative(rel)) }

  /**
   Which active rows an ended scan marks, exactly: those no directory was stored
   under and no recorded error shields.
   */
  lemma MarkedIff(w: World, known: set<string>, n: nat, run: seq<Step>, row: Project)
    requires WorldOk(w) && n > 0 && Valid(PlanOf(w), known, Initial(n), run)
    requires AllExited(Exec(PlanOf(w), known, Initial(n), run)) && row.status == Active
    ensures var t := Exec(PlanOf(w), known, Initial(n), run).tally;
            ToMark(row, row.root, t.seen, t.errored) <==>
            !(exists p :: Stored(w, p, row.rel)) && !(exists p, key :: Records(w, p, key) && Shields(key, row.rel))
  {
    var t := Exec(PlanOf(w), known, Initial(n), run).tally;
    SeenIff(w, known, n, run, row.rel);
    if UnderErroredSubtree(row.rel, t.errored) {
      var key :| key in t.errored && Covers(CleanRelative(key), CleanRelative(row.rel));
      ErroredIff(w, known, n, run, key);
      var p :| Records(w, p, key);
      assert Records(w, p, key) && Shields(key, row.rel);
    }
    if p, key :| Records(w, p, key) && Shields(key, row.rel) {
      ErroredIff(w, known, n, run, key);
    }
  }

  // -------------------------------------- what keeps a row, whatever goes wrong

  /** The tally a scan of the world can end with, for some worker count, interleaving and known rows. */
  ghost predicate EndsWith(w: World, t: Tally)
    requires w.fate.Keys == w.disk.Keys
  {
    exists known, n: nat, run ::
      n > 0 && Valid(PlanOf(w), known, Initial(n), run) && AllExited(Exec(PlanOf(w), known, Initial(n), run))
      && t == Exec(PlanOf(w), known, Initial(n), run).tally
  }

  /** No ended scan of these directories marks an active row of the text, whatever happens to each of them. */
  ghost predicate NeverMarked(disk: map<Path, seq<Entry>>, rel: string) {
    forall fate, t, root: int :: WorldOk(World(disk, fate)) && EndsWith(World(disk, fate), t) ==>
      !ToMark(Project(root, rel, Active), root, t.seen, t.errored)
  }

  /**
   Directory q keeps the row: it is a Terraform directory on disk whose key is the
   text (or that the store refuses), and an error of any directory on its way down
   would shield the text.
   */
  ghost predicate Keeps(disk: map<Path, seq<Entry>>, q: Path, rel: string) {
    && OnDisk(disk, q) && IsTerraform(disk[q]) && (RowKey(q) == Some(rel) || RowKey(q).None?)
    && forall d :: d <= q ==> Shields(ErrorKey(d), rel)
  }

  /** Whatever happens above it, a directory on disk is reached or one above it recorded an error. */
  lemma {:induction false} ReachedOrErrored(w: World, p: Path) returns (d: Path)
    requires WorldOk(w) && OnDisk(w.disk, p)
    ensures d <= p && Reached(PlanOf(w), d)
    ensures d != p ==> w.fate[d].Cancelled? || w.fate[d].Unreadable?
    decreases |p|
  {
    if p == [] {
      d := p;
    } else {
      d := ReachedOrErrored(w, Parent(p));
      ChildStep(w, p);
      if d == Parent(p) && !w.fate[d].Cancelled? && !w.fate[d].Unreadable? { d := p; }
    }
  }

  /** A directory that was reached is on disk, and no directory above it was cancelled or unreadable. */
  lemma {:induction false} ReachedThrough(w: World, p: Path)
    requires WorldOk(w) && Reached(PlanOf(w), p)
    ensures OnDisk(w.disk, p)
    ensures forall d :: d <= p && d != p ==> d in w.fate && !w.fate[d].Cancelled? && !w.fate[d].Unreadable?
    decreases |p|
  {
    if p != [] {
      ReachedThrough(w, Parent(p));
      ChildStep(w, p);
      forall d | d <= p && d != p ensures d in w.fate && !w.fate[d].Cancelled? && !w.fate[d].Unreadable? {
        assert d <= Parent(p);
      }
    }
  }

  lemma RootErrorShields(rel: string)
    ensures Shields(ErrorKey([]), rel)
  {
    CleanPlain([]);
    assert Tidied([]) == [];
  }

  /** Soundness: while a directory on disk keeps it, no ended scan marks the row. */
  lemma ReachableIsNotMarked(w: World, known: set<string>, n: nat, run: seq<Step>, q: Path, row: Project)
    requires WorldOk(w) && n > 0 && Valid(PlanOf(w), known, Initial(n), run)
    requires AllExited(Exec(PlanOf(w), known, Initial(n), run))
    requires Keeps(w.disk, q, row.rel) && row.status == Active
    ensures var t := Exec(PlanOf(w), known, Initial(n), run).tally;
            !ToMark(row, row.root, t.seen, t.errored)
  {
    MarkedIff(w, known, n, run, row);
    RootErrorShields(row.rel);
    var d := ReachedOrErrored(w, q);
    var key := if w.fate[d].Cancelled? then ErrorKey([]) else ErrorKey(d);
    assert Shields(key, row.rel);
    if !Stored(w, d, row.rel) { assert Records(w, d, key); }
  }

  /** The fates that record an error wherever it does not shield the text, and let all else pass. */
  function Adverse(disk: map<Path, seq<Entry>>, rel: string): map<Path, Fate> {
    map p | p in disk :: if Shields(ErrorKey(p), rel) then AlreadyQueued else Unreadable
  }

  ghost predicate DiskOk(disk: map<Path, seq<Entry>>) { exists fate :: WorldOk(World(disk, fate)) }

  lemma ReadIsShielded(w: World, p: Path, rel: string)
    requires WorldOk(w) && w.fate == Adverse(w.disk, rel) && Reached(PlanOf(w), p) && Shields(ErrorKey(p), rel)
    ensures OnDisk(w.disk, p) && forall d :: d <= p ==> Shields(ErrorKey(d), rel)
  {
    ReachedThrough(w, p);
    forall d | d <= p ensures Shields(ErrorKey(d), rel) { assert d == p || !w.fate[d].Unreadable?; }
  }

  /** Under the adverse fates, what stores or shields the row is a directory that keeps it. */
  lemma SavedIsKept(w: World, p: Path, key: string, rel: string)
    requires WorldOk(w) && w.fate == Adverse(w.disk, rel)
    requires Stored(w, p, rel) || (Records(w, p, key) && Shields(key, rel))
    ensures Keeps(w.disk, p, rel)
  {
    assert !w.fate[p].Cancelled?;
    ReadIsShielded(w, p, rel);
  }

  /** If no directory keeps the row, some scan marks it. */
  lemma AdverseMarks(w: World, rel: string, known: set<string>, n: nat, run: seq<Step>, root: int)
    requires WorldOk(w) && w.fate == Adverse(w.disk, rel) && n > 0 && Valid(PlanOf(w), known, Initial(n), run)
    requires AllExited(Exec(PlanOf(w), known, Initial(n), run))
    requires forall q :: !Keeps(w.disk, q, rel)
    ensures var t := Exec(PlanOf(w), known, Initial(n), run).tally;
            ToMark(Project(root, rel, Active), root, t.seen, t.errored)
  {
    MarkedIff(w, known, n, run, Project(root, rel, Active));
    if p :| Stored(w, p, rel) { SavedIsKept(w, p, "", rel); }
    if p, key :| Records(w, p, key) && Shields(key, rel) { SavedIsKept(w, p, key, rel); }
  }

  /**
   What protects a row, exactly, over everything that can go wrong in any of the
   directories: some Terraform directory on disk is stored under its text or
   refused by the store, and the errors of all directories on the way down to it
   shield the text.
   */
  lemma NeverMarkedIff(disk: map<Path, seq<Entry>>, rel: string)
    requires DiskOk(disk)
    ensures NeverMarked(disk, rel) <==> exists q :: Keeps(disk, q, rel)
  {
    var w := World(disk, Adverse(disk, rel));
    var fate0 :| WorldOk(World(disk, fate0));
    assert WorldOk(w);
    if q :| Keeps(disk, q, rel) {
      forall fate, t, root: int | WorldOk(World(disk, fate)) && EndsWith(World(disk, fate), t)
        ensures !ToMark(Project(root, rel, Active), root, t.seen, t.errored)
      {
        var known, n: nat, run :| n > 0 && Valid(PlanOf(World(disk, fate)), known, Initial(n), run)
          && AllExited(Exec(PlanOf(World(disk, fate)), known, Initial(n), run))
          && t == Exec(PlanOf(World(disk, fate)), known, Initial(n), run).tally;
        ReachableIsNotMarked(World(disk, fate), known, n, run, q, Project(root, rel, Active));
      }
    } else {
      PlanOfOk(w);
      var run := SomeRunEnds(PlanOf(w), {}, 1);
      AdverseMarks(w, rel, {}, 1, run, 0);
      var t := Exec(PlanOf(w), {}, Initial(1), run).tally;
      assert EndsWith(w, t);
      assert ToMark(Project(0, rel, Active), 0, t.seen, t.errored);
    }
  }

  /** No other Terraform directory on disk has the key, and the store refuses none. */
  ghost predicate Alone(disk: map<Path, seq<Entry>>, p: Path, rel: string) {
    forall q :: OnDisk(disk, q) && IsTerraform(disk[q]) && q != p ==> RowKey(q).Some? && RowKey(q) != Some(rel)
  }

  /** The row of a directory that has it for itself is safe exactly when the errors of all directories above shield it. */
  lemma OwnRowNeverMarkedIff(disk: map<Path, seq<Entry>>, p: Path, rel: string)
    requires DiskOk(disk) && OnDisk(disk, p) && IsTerraform(disk[p]) && RowKey(p) == Some(rel) && Alone(disk, p, rel)
    ensures NeverMarked(disk, rel) <==> forall d :: d <= p ==> Shields(ErrorKey(d), rel)
  {
    NeverMarkedIff(disk, rel);
    if forall d :: d <= p ==> Shields(ErrorKey(d), rel) { assert Keeps(disk, p, rel); }
  }

  /** Names with solid ends, without backslash or drive letter keep their row. */
  lemma SolidNamesKeepRow(disk: map<Path, seq<Entry>>, p: Path)
    requires DiskOk(disk) && OnDisk(disk, p) && IsTerraform(disk[p])
    requires OwnName(p) && forall i :: 0 <= i < |p| ==> TrimRight(p[i]) == p[i]
    ensures RowKey(p) == Some(Print(p)) && NeverMarked(disk, Print(p))
  {
    OwnNameKept(p);
    forall d | d <= p ensures Shields(ErrorKey(d), Print(p)) {
      ErrorCoversIff(d, p);
      if d == [] { assert Recorded(d) == []; } else { assert d[|d| - 1] == p[|d| - 1]; RaggedNotCovered(d, p); }
    }
    assert Keeps(disk, p, Print(p));
    NeverMarkedIff(disk, Print(p));
  }
}
