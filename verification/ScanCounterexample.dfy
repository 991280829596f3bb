/**
 Two trees whose project is marked missing although it is on disk: the scan
 trims the text of a path, and only the row text turns backslashes into slashes,
 so an error may be recorded under a text that does not shield the row.
 */
module ScanCounterexample {
  import opened Common
  import opened Text
  import opened Paths
  import opened DirectoryScan
  import opened Traversal
  import opened TraversalResult
  import opened MissingProjects

  const MAIN := [Entry("main.tf", File, true, false)]

  lemma MainIsTerraform()
    ensures IsTerraform(MAIN)
  {
    assert MAIN[0] in MAIN && TerraformFile(MAIN[0]);
  }

  /** The scan reaches the root and the unreadable directory d only, whose error does not shield the text. */
  ghost predicate OnlyUnreadable(w: World, d: Path, rel: string) {
    && WorldOk(w) && !IsTerraform(w.disk[[]]) && w.fate[[]].Enqueues?
    && d in w.disk && d != [] && w.fate[d].Unreadable? && !Shields(ErrorKey(d), rel)
    && forall p :: Reached(PlanOf(w), p) ==> p == [] || p == d
  }

  lemma UnreadableLosesRow(w: World, d: Path, known: set<string>, n: nat, run: seq<Step>, row: Project)
    requires OnlyUnreadable(w, d, row.rel) && n > 0 && Valid(PlanOf(w), known, Initial(n), run)
    requires AllExited(Exec(PlanOf(w), known, Initial(n), run)) && row.status == Active
    ensures var t := Exec(PlanOf(w), known, Initial(n), run).tally; ToMark(row, row.root, t.seen, t.errored)
  {
    MarkedIff(w, known, n, run, row);
  }

  // -------------------------------------------- a directory that ends in a space

  const SPACED := ["x "]
  const PROJECT := ["x ", "a"]

  const TREE := World(
    map[[] := [Entry("x ", Directory, false, false)], SPACED := [Entry("a", Directory, false, false)], PROJECT := MAIN],
    map[[] := Enqueues, SPACED := Unreadable, PROJECT := Enqueues])

  lemma TreeIsWorld()
    ensures WorldOk(TREE)
  {
    assert [] + ["x "] == SPACED;
    assert SPACED + ["a"] == PROJECT;
    assert forall p :: p in TREE.disk ==> p == [] || p == SPACED || p == PROJECT;
  }

  lemma ProjectOwnsItsName()
    ensures OwnName(PROJECT) && Print(PROJECT) == "x /a"
  {
    assert Join(["a"]) == "a";
    assert PROJECT[1..] == ["a"];
    assert Join(PROJECT) == "x " + "/" + "a";
    TrimRightIs("a", "a");
  }

  lemma ErrorMissesProject()
    ensures !Shields(ErrorKey(SPACED), "x /a")
  {
    ProjectOwnsItsName();
    assert SPACED <= PROJECT;
    TrimRightIs("x ", "x");
    RaggedNotCovered(SPACED, PROJECT);
    ErrorCoversIff(SPACED, PROJECT);
  }

  lemma TreeOnDisk()
    ensures OnDisk(TREE.disk, PROJECT) && !IsTerraform(TREE.disk[[]])
  {
    var top, mid := TREE.disk[[]], TREE.disk[SPACED];
    assert Parent(PROJECT) == SPACED && Parent(SPACED) == [];
    assert top[0] in top && mid[0] in mid;
    assert Leads(top, "x ") && Leads(mid, "a");
    assert OnDisk(TREE.disk, SPACED);
  }

  lemma ProjectNotReached()
    requires WorldOk(TREE)
    ensures !Reached(PlanOf(TREE), PROJECT)
  {
    assert Parent(PROJECT) == SPACED && PlanOf(TREE)[SPACED].children == [];
  }

  lemma TreeStopsAtSpaced()
    requires WorldOk(TREE)
    ensures forall p :: Reached(PlanOf(TREE), p) ==> p == [] || p == SPACED
  {
    ProjectNotReached();
    forall p | Reached(PlanOf(TREE), p) ensures p == [] || p == SPACED { assert p in PlanOf(TREE) && p in TREE.disk; }
  }

  /** The project is on disk under its own name, and every ended scan marks its active row missing. */
  lemma SpacedNameLosesProject(known: set<string>, n: nat, run: seq<Step>, root: int)
    requires n > 0 && Valid(PlanOf(TREE), known, Initial(n), run)
    requires AllExited(Exec(PlanOf(TREE), known, Initial(n), run))
    ensures OnDisk(TREE.disk, PROJECT) && IsTerraform(TREE.disk[PROJECT]) && RowKey(PROJECT) == Some("x /a")
    ensures var t := Exec(PlanOf(TREE), known, Initial(n), run).tally;
            ToMark(Project(root, "x /a", Active), root, t.seen, t.errored)
  {
    TreeIsWorld();
    TreeOnDisk();
    MainIsTerraform();
    ProjectOwnsItsName();
    OwnNameKept(PROJECT);
    ErrorMissesProject();
    TreeStopsAtSpaced();
    UnreadableLosesRow(TREE, SPACED, known, n, run, Project(root, "x /a", Active));
  }

  // ------------------------------------------------ a directory with a backslash

  const SLASHED := ["a\\b"]

  const YARD := World(
    map[[] := [Entry("a\\b", Directory, false, false)], SLASHED := MAIN],
    map[[] := Enqueues, SLASHED := Unreadable])

  lemma YardIsWorld()
    ensures WorldOk(YARD)
  {
    assert [] + ["a\\b"] == SLASHED;
    assert forall p :: p in YARD.disk ==> p == [] || p == SLASHED;
  }

  lemma YardOnDisk()
    ensures OnDisk(YARD.disk, SLASHED) && !IsTerraform(YARD.disk[[]])
  {
    var top := YARD.disk[[]];
    assert Parent(SLASHED) == [] && top[0] in top;
    assert Leads(top, "a\\b");
  }

  lemma CleanSlashed()
    ensures CleanRelative("a\\b") == "a\\b"
  {
    TrimRightIs("a\\b", "a\\b");
    TidiedLast([], "a\\b");
    assert [] + ["a\\b"] == SLASHED;
    CleanPlain(SLASHED);
  }

  lemma CleanRow()
    ensures CleanRelative("a/b") == "a/b"
  {
    TrimRightIs("b", "b");
    TidiedLast(["a"], "b");
    var row := ["a", "b"];
    assert ["a"] + ["b"] == row && row[1..] == ["b"];
    CleanPlain(row);
    assert Join(row) == "a" + "/" + "b" == "a/b";
  }

  lemma Slashed()
    ensures ReplaceBackslash("a\\b") == "a/b" && TrimSpace("a\\b") == "a\\b"
  {
    assert "a\\b"[1..] == "\\b" && "\\b"[1..] == "b" && "b"[1..] == "";
  }

  /** The error is recorded with the backslash, the row without. */
  lemma SlashedTexts()
    ensures ErrorKey(SLASHED) == "a\\b" && RowKey(SLASHED) == Some("a/b") && !Shields(ErrorKey(SLASHED), "a/b")
  {
    CleanSlashed();
    CleanRow();
    Slashed();
    assert "a/b"[1] != "a\\b"[1];
  }

  lemma YardStopsAtSlashed()
    requires WorldOk(YARD)
    ensures forall p :: Reached(PlanOf(YARD), p) ==> p == [] || p == SLASHED
  {
    assert forall p :: p in YARD.disk ==> p == [] || p == SLASHED;
  }

  /** The project `a\b` is on disk, its row is "a/b", and every ended scan marks that row missing. */
  lemma BackslashLosesProject(known: set<string>, n: nat, run: seq<Step>, root: int)
    requires n > 0 && Valid(PlanOf(YARD), known, Initial(n), run)
    requires AllExited(Exec(PlanOf(YARD), known, Initial(n), run))
    ensures OnDisk(YARD.disk, SLASHED) && IsTerraform(YARD.disk[SLASHED]) && RowKey(SLASHED) == Some("a/b")
    ensures var t := Exec(PlanOf(YARD), known, Initial(n), run).tally;
            ToMark(Project(root, "a/b", Active), root, t.seen, t.errored)
  {
    YardIsWorld();
    YardOnDisk();
    MainIsTerraform();
    SlashedTexts();
    YardStopsAtSlashed();
    UnreadableLosesRow(YARD, SLASHED, known, n, run, Project(root, "a/b", Active));
  }
}
