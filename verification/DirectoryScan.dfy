/**
 What the scan does with one directory: the critical sections it runs under the
 mutex, in order, and the subdirectories it hands back to the queue.
 */
module DirectoryScan {
  import opened Common
  import opened Paths

  datatype Kind = File | Directory | Link

  /** A listed entry; the two flags are what the extension and the ignore rules say of it. */
  datatype Entry = Entry(name: string, kind: Kind, terraform: bool, ignored: bool)

  /** What happens to a directory when a worker reaches it. */
  datatype Fate = Cancelled | Unreadable | UpsertFails | EnqueueFails | Enqueues | AlreadyQueued

  /** The tree on disk and the fate of each directory. */
  datatype World = World(disk: map<Path, seq<Entry>>, fate: map<Path, Fate>)

  predicate TerraformFile(e: Entry) { e.kind == File && e.terraform }

  predicate IsTerraform(entries: seq<Entry>) { exists e :: e in entries && TerraformFile(e) }

  predicate Descends(e: Entry) { e.kind == Directory && e.name != ".git" && !e.ignored }

  predicate Skips(e: Entry) { e.kind != File && !Descends(e) }

  function Subdirectories(p: Path, entries: seq<Entry>): seq<Path> {
    if entries == [] then []
    else
      var rest := Subdirectories(p, entries[..|entries| - 1]);
      var e := entries[|entries| - 1];
      if Descends(e) then rest + [p + [e.name]] else rest
  }

  function SkippedDirectories(entries: seq<Entry>): nat {
    if entries == [] then 0
    else SkippedDirectories(entries[..|entries| - 1]) + if entries[|entries| - 1].kind != File then 1 else 0
  }

  function SkippedLinks(entries: seq<Entry>): nat {
    if entries == [] then 0
    else SkippedLinks(entries[..|entries| - 1]) + if entries[|entries| - 1].kind == Link then 1 else 0
  }

  // --------------------------------------------------------- critical sections

  datatype Section =
    | Errored(key: string)
    | Processed
    | Seen(key: string, directories: nat, links: nat)
    | Discovery
    | Skipped(links: nat)

  function SkipSections(entries: seq<Entry>): seq<Section> {
    if entries == [] then []
    else
      var rest := SkipSections(entries[..|entries| - 1]);
      var e := entries[|entries| - 1];
      if Skips(e) then rest + [Skipped(if e.kind == Link then 1 else 0)] else rest
  }

  function ProjectSections(p: Path, entries: seq<Entry>, f: Fate): seq<Section> {
    if f.UpsertFails? || RowKey(p).None? then [Errored(ErrorKey(p))]
    else
      [Seen(RowKey(p).value, SkippedDirectories(entries), SkippedLinks(entries))] +
      if f.EnqueueFails? then [Errored(ErrorKey(p))] else if f.Enqueues? then [Discovery] else []
  }

  function SectionsOf(p: Path, entries: seq<Entry>, f: Fate): seq<Section> {
    if f.Cancelled? then [Errored(ErrorKey([]))]
    else if f.Unreadable? then [Errored(ErrorKey(p))]
    else [Processed] + if IsTerraform(entries) then ProjectSections(p, entries, f) else SkipSections(entries)
  }

  function ChildrenOf(p: Path, entries: seq<Entry>, f: Fate): seq<Path> {
    if f.Cancelled? || f.Unreadable? || IsTerraform(entries) then [] else Subdirectories(p, entries)
  }

  // ------------------------------------------------------------------ counters

  datatype Tally = Tally(
    processed: bool, seen: set<string>, errored: set<string>,
    created: nat, updated: nat, enqueued: nat, directories: nat, links: nat, errors: nat)

  const NOTHING := Tally(false, {}, {}, 0, 0, 0, 0, 0, 0)

  /** One critical section; `known` are the project rows that were there before the scan. */
  function Enter(t: Tally, known: set<string>, c: Section): Tally {
    match c
    case Errored(key) => t.(errored := t.errored + {key}, errors := t.errors + 1)
    case Processed => t.(processed := true)
    case Seen(key, directories, links) =>
      var isNew := key !in known && key !in t.seen;
      t.(seen := t.seen + {key}, directories := t.directories + directories, links := t.links + links,
         created := t.created + if isNew then 1 else 0, updated := t.updated + if isNew then 0 else 1)
    case Discovery => t.(enqueued := t.enqueued + 1)
    case Skipped(links) => t.(directories := t.directories + 1, links := t.links + links)
  }

  function EnterAll(t: Tally, known: set<string>, cs: seq<Section>): Tally {
    if cs == [] then t else Enter(EnterAll(t, known, cs[..|cs| - 1]), known, cs[|cs| - 1])
  }

  lemma {:induction false} EnterAppend(t: Tally, known: set<string>, a: seq<Section>, b: seq<Section>)
    ensures EnterAll(t, known, a + b) == EnterAll(EnterAll(t, known, a), known, b)
    decreases |b|
  {
    if b == [] {
      assert a + b == a;
    } else {
      var n := |b| - 1;
      EnterAppend(t, known, a, b[..n]);
      assert (a + b)[..|a| + n] == a + b[..n];
    }
  }

  /** The counters and maps that the workers share. */
  class SharedResult {
    var tally: Tally
    const known: set<string>

    constructor (known: set<string>)
      ensures tally == NOTHING && this.known == known
    {
      tally, this.known := NOTHING, known;
    }

    method AddError(key: string)
      modifies this
      ensures tally == Enter(old(tally), known, Errored(key))
    {
      tally := tally.(errored := tally.errored + {key}, errors := tally.errors + 1);
    }

    /** Records the project row of a Terraform directory; the row is new unless the table or this scan has it. */
    method AddProject(key: string, directories: nat, links: nat)
      modifies this
      ensures tally == Enter(old(tally), known, Seen(key, directories, links))
    {
      if key in known || key in tally.seen {
        tally := tally.(updated := tally.updated + 1);
      } else {
        tally := tally.(created := tally.created + 1);
      }
      tally := tally.(seen := tally.seen + {key}, directories := tally.directories + directories, links := tally.links + links);
    }

    /** Reads one directory: the sections it enters are those of SectionsOf, in order. */
    method ScanDirectory(p: Path, entries: seq<Entry>, f: Fate) returns (children: seq<Path>)
      modifies this
      ensures tally == EnterAll(old(tally), known, SectionsOf(p, entries, f))
      ensures children == ChildrenOf(p, entries, f)
      ensures ReadsAs(old(tally), tally, known, p, entries, f)
      ensures HandsBack(children, p, entries, f)
    {
      SectionsMean(tally, known, p, entries, f);
      ChildrenMean(p, entries, f);
      children := [];
      EnterOne(tally, known, Errored(ErrorKey([])));
      EnterOne(tally, known, Errored(ErrorKey(p)));
      if f.Cancelled? { AddError(ErrorKey([])); return; }
      if f.Unreadable? { AddError(ErrorKey(p)); return; }
      EnterOne(tally, known, Processed);
      ghost var body := if IsTerraform(entries) then ProjectSections(p, entries, f) else SkipSections(entries);
      EnterAppend(tally, known, [Processed], body);
      tally := tally.(processed := true);
      var isProject := ContainsTerraformFile(entries);
      if isProject {
        ScanProject(p, entries, f);
      } else {
        children := ScanChildren(p, entries);
      }
    }

    method ScanProject(p: Path, entries: seq<Entry>, f: Fate)
      modifies this
      ensures tally == EnterAll(old(tally), known, ProjectSections(p, entries, f))
    {
      EnterOne(tally, known, Errored(ErrorKey(p)));
      if f.UpsertFails? || RowKey(p).None? { AddError(ErrorKey(p)); return; }
      var directories, links := CountSkippedChildren(entries);
      var first := Seen(RowKey(p).value, directories, links);
      EnterOne(tally, known, first);
      AddProject(RowKey(p).value, directories, links);
      EnterOne(tally, known, Errored(ErrorKey(p)));
      EnterOne(tally, known, Discovery);
      if f.EnqueueFails? {
        EnterAppend(old(tally), known, [first], [Errored(ErrorKey(p))]);
        AddError(ErrorKey(p));
      } else if f.Enqueues? {
        EnterAppend(old(tally), known, [first], [Discovery]);
        tally := tally.(enqueued := tally.enqueued + 1);
      } else {
        EnterAppend(old(tally), known, [first], []);
      }
    }

    /** The loop over the entries of a directory that is not a project. */
    method ScanChildren(p: Path, entries: seq<Entry>) returns (children: seq<Path>)
      modifies this
      ensures tally == EnterAll(old(tally), known, SkipSections(entries))
      ensures children == Subdirectories(p, entries)
    {
      children := [];
      var i := 0;
      while i < |entries|
        invariant 0 <= i <= |entries|
        invariant children == Subdirectories(p, entries[..i])
        invariant tally == EnterAll(old(tally), known, SkipSections(entries[..i]))
      {
        var e := entries[i];
        NextEntry(old(tally), known, p, entries, i);
        if e.kind == File {
        } else if e.name == ".git" || e.kind == Link || e.ignored {
          tally := tally.(directories := tally.directories + 1, links := tally.links + if e.kind == Link then 1 else 0);
        } else {
          children := children + [p + [e.name]];
        }
        i := i + 1;
      }
      assert entries[..i] == entries;
    }
  }

  // ------------------------------------------- one directory, in terms of its entries

  /** How many entries pass a test. */
  ghost function Count(entries: seq<Entry>, test: Entry -> bool): nat {
    if entries == [] then 0 else Count(entries[..|entries| - 1], test) + if test(entries[|entries| - 1]) then 1 else 0
  }

  /** The scan goes into the entry: a directory, not ".git", not ignored. */
  ghost function Entered(): Entry -> bool { (e: Entry) => e.kind == Directory && e.name != ".git" && !e.ignored }

  /** The scan passes the entry over: a link, ".git", or an ignored directory. */
  ghost function PassedOver(): Entry -> bool { (e: Entry) => e.kind == Link || (e.kind == Directory && (e.name == ".git" || e.ignored)) }

  ghost function NotFile(): Entry -> bool { (e: Entry) => e.kind != File }

  ghost function IsLink(): Entry -> bool { (e: Entry) => e.kind == Link }

  /** The scan goes from a directory with these entries down to the one of that name. */
  ghost predicate Leads(entries: seq<Entry>, name: string) {
    && (forall e :: e in entries ==> e.kind != File || !e.terraform)
    && exists e :: e in entries && e.kind == Directory && e.name != ".git" && !e.ignored && e.name == name
  }

  /** What storing a project does, before and after its discovery is queued. */
  ghost predicate StoresAs(t: Tally, t': Tally, known: set<string>, key: string, directories: nat, links: nat, f: Fate, error: string) {
    var isNew := key !in known && key !in t.seen;
    var stored := t.(seen := t.seen + {key}, directories := t.directories + directories, links := t.links + links,
                     created := t.created + (if isNew then 1 else 0), updated := t.updated + (if isNew then 0 else 1));
    t' == if f == EnqueueFails then stored.(errored := t.errored + {error}, errors := t.errors + 1)
          else if f == Enqueues then stored.(enqueued := t.enqueued + 1)
          else stored
  }

  /** What reading one directory does to the shared counters, case by case. */
  ghost predicate ReadsAs(t: Tally, t': Tally, known: set<string>, p: Path, entries: seq<Entry>, f: Fate) {
    var failed := t.(errored := t.errored + {ErrorKey(p)}, errors := t.errors + 1);
    if f == Cancelled then t' == t.(errored := t.errored + {ErrorKey([])}, errors := t.errors + 1)
    else if f == Unreadable then t' == failed
    else if !exists e :: e in entries && e.kind == File && e.terraform then
      t' == t.(processed := true, directories := t.directories + Count(entries, PassedOver()), links := t.links + Count(entries, IsLink()))
    else if f == UpsertFails || RowKey(p) == None then t' == failed.(processed := true)
    else StoresAs(t.(processed := true), t', known, RowKey(p).value, Count(entries, NotFile()), Count(entries, IsLink()), f, ErrorKey(p))
  }

  /** A directory that is read and holds no Terraform file hands back its directories but ".git" and the ignored ones, each once. */
  ghost predicate HandsBack(children: seq<Path>, p: Path, entries: seq<Entry>, f: Fate) {
    if f == Cancelled || f == Unreadable || exists e :: e in entries && e.kind == File && e.terraform then children == []
    else
      && (forall c :: c in children <==> exists e :: e in entries && e.kind == Directory && e.name != ".git" && !e.ignored && c == p + [e.name])
      && |children| == Count(entries, Entered())
  }

  lemma {:induction false} SkippedAre(entries: seq<Entry>)
    ensures SkippedDirectories(entries) == Count(entries, NotFile()) && SkippedLinks(entries) == Count(entries, IsLink())
  {
    if entries != [] {
      SkippedAre(entries[..|entries| - 1]);
    }
  }

  lemma {:induction false} SkipsCount(t: Tally, known: set<string>, entries: seq<Entry>)
    ensures EnterAll(t, known, SkipSections(entries)) ==
            t.(directories := t.directories + Count(entries, PassedOver()), links := t.links + Count(entries, IsLink()))
  {
    if entries != [] {
      var n := |entries| - 1;
      SkipsCount(t, known, entries[..n]);
      NextEntry(t, known, [], entries, n);
      assert entries[..n + 1] == entries;
      OneSkip(t, known, entries[n], Count(entries[..n], PassedOver()), Count(entries[..n], IsLink()));
    }
  }

  lemma OneSkip(t: Tally, known: set<string>, e: Entry, skipped: nat, links: nat)
    ensures var u := t.(directories := t.directories + skipped, links := t.links + links);
            (if Skips(e) then Enter(u, known, Skipped(if e.kind == Link then 1 else 0)) else u) ==
            t.(directories := t.directories + (skipped + if PassedOver()(e) then 1 else 0), links := t.links + (links + if IsLink()(e) then 1 else 0))
  {
  }

  lemma StoreMeans(t: Tally, known: set<string>, key: string, directories: nat, links: nat, f: Fate, error: string)
    ensures var rest := if f == EnqueueFails then [Errored(error)] else if f == Enqueues then [Discovery] else [];
            StoresAs(t, EnterAll(t, known, [Seen(key, directories, links)] + rest), known, key, directories, links, f, error)
  {
    var first := Seen(key, directories, links);
    EnterAppend(t, known, [first], if f == EnqueueFails then [Errored(error)] else if f == Enqueues then [Discovery] else []);
    EnterOne(t, known, first);
    EnterOne(Enter(t, known, first), known, Errored(error));
    EnterOne(Enter(t, known, first), known, Discovery);
  }

  lemma ProjectMeans(t: Tally, known: set<string>, p: Path, entries: seq<Entry>, f: Fate, key: string)
    requires RowKey(p) == Some(key) && f != UpsertFails
    ensures StoresAs(t, EnterAll(t, known, ProjectSections(p, entries, f)), known, key, Count(entries, NotFile()), Count(entries, IsLink()), f, ErrorKey(p))
  {
    SkippedAre(entries);
    StoreMeans(t, known, key, SkippedDirectories(entries), SkippedLinks(entries), f, ErrorKey(p));
  }

  /** The sections of a directory, entered in order, do what ReadsAs says. */
  lemma SectionsMean(t: Tally, known: set<string>, p: Path, entries: seq<Entry>, f: Fate)
    ensures ReadsAs(t, EnterAll(t, known, SectionsOf(p, entries, f)), known, p, entries, f)
  {
    EnterOne(t, known, Errored(ErrorKey([])));
    EnterOne(t, known, Errored(ErrorKey(p)));
    TerraformIff(entries);
    if f != Cancelled && f != Unreadable {
      ReadSections(t, known, p, entries, f);
      BodyMeans(t.(processed := true), known, p, entries, f);
    }
  }

  lemma ReadSections(t: Tally, known: set<string>, p: Path, entries: seq<Entry>, f: Fate)
    requires f != Cancelled && f != Unreadable
    ensures EnterAll(t, known, SectionsOf(p, entries, f)) ==
            EnterAll(t.(processed := true), known, if IsTerraform(entries) then ProjectSections(p, entries, f) else SkipSections(entries))
  {
    EnterAppend(t, known, [Processed], if IsTerraform(entries) then ProjectSections(p, entries, f) else SkipSections(entries));
    EnterOne(t, known, Processed);
  }

  lemma BodyMeans(u: Tally, known: set<string>, p: Path, entries: seq<Entry>, f: Fate)
    ensures var v := EnterAll(u, known, if IsTerraform(entries) then ProjectSections(p, entries, f) else SkipSections(entries));
            if !IsTerraform(entries) then v == u.(directories := u.directories + Count(entries, PassedOver()), links := u.links + Count(entries, IsLink()))
            else if f == UpsertFails || RowKey(p) == None then v == u.(errored := u.errored + {ErrorKey(p)}, errors := u.errors + 1)
            else StoresAs(u, v, known, RowKey(p).value, Count(entries, NotFile()), Count(entries, IsLink()), f, ErrorKey(p))
  {
    EnterOne(u, known, Errored(ErrorKey(p)));
    SkipsCount(u, known, entries);
    if RowKey(p) != None && f != UpsertFails { ProjectMeans(u, known, p, entries, f, RowKey(p).value); }
  }

  lemma TerraformIff(entries: seq<Entry>)
    ensures IsTerraform(entries) <==> exists e :: e in entries && e.kind == File && e.terraform
  {
    if e :| e in entries && e.kind == File && e.terraform { assert TerraformFile(e); }
  }

  lemma {:induction false} SubdirectoriesMean(p: Path, entries: seq<Entry>)
    ensures forall c :: c in Subdirectories(p, entries) <==>
              exists e :: e in entries && e.kind == Directory && e.name != ".git" && !e.ignored && c == p + [e.name]
    ensures |Subdirectories(p, entries)| == Count(entries, Entered())
  {
    if entries != [] {
      SubdirectoriesMean(p, entries[..|entries| - 1]);
      forall c ensures c in Subdirectories(p, entries) <==>
        exists e :: e in entries && e.kind == Directory && e.name != ".git" && !e.ignored && c == p + [e.name]
      {
        SubdirectoryIff(p, entries, c);
      }
    }
  }

  lemma ChildIff(p: Path, entries: seq<Entry>, f: Fate, name: string)
    ensures p + [name] in ChildrenOf(p, entries, f) <==> f != Cancelled && f != Unreadable && Leads(entries, name)
  {
    ChildrenMean(p, entries, f);
    assert forall e: Entry :: p + [name] == p + [e.name] ==> (p + [name])[|p|] == (p + [e.name])[|p|];
  }

  lemma SubdirectoryIff(p: Path, entries: seq<Entry>, c: Path)
    requires entries != []
    requires c in Subdirectories(p, entries[..|entries| - 1]) <==>
               exists e :: e in entries[..|entries| - 1] && e.kind == Directory && e.name != ".git" && !e.ignored && c == p + [e.name]
    ensures c in Subdirectories(p, entries) <==>
              exists e :: e in entries && e.kind == Directory && e.name != ".git" && !e.ignored && c == p + [e.name]
  {
    var n := |entries| - 1;
    assert forall e :: e in entries <==> e in entries[..n] || e == entries[n];
  }

  lemma ChildrenMean(p: Path, entries: seq<Entry>, f: Fate)
    ensures HandsBack(ChildrenOf(p, entries, f), p, entries, f)
  {
    TerraformIff(entries);
    SubdirectoriesMean(p, entries);
  }

  /** What one more entry adds to the sections and to the subdirectories. */
  lemma NextEntry(t: Tally, known: set<string>, p: Path, entries: seq<Entry>, i: nat)
    requires i < |entries|
    ensures Subdirectories(p, entries[..i + 1]) ==
            Subdirectories(p, entries[..i]) + if Descends(entries[i]) then [p + [entries[i].name]] else []
    ensures EnterAll(t, known, SkipSections(entries[..i + 1])) ==
            var u := EnterAll(t, known, SkipSections(entries[..i]));
            if Skips(entries[i]) then Enter(u, known, Skipped(if entries[i].kind == Link then 1 else 0)) else u
  {
    assert entries[..i + 1][..i] == entries[..i];
    var rest := SkipSections(entries[..i]);
    var c := Skipped(if entries[i].kind == Link then 1 else 0);
    EnterAppend(t, known, rest, [c]);
    EnterOne(EnterAll(t, known, rest), known, c);
  }

  lemma EnterOne(t: Tally, known: set<string>, c: Section)
    ensures EnterAll(t, known, [c]) == Enter(t, known, c)
  {
    assert [c][..0] == [];
  }

  method ContainsTerraformFile(entries: seq<Entry>) returns (b: bool)
    ensures b <==> IsTerraform(entries)
  {
    for i := 0 to |entries|
      invariant forall k :: 0 <= k < i ==> !TerraformFile(entries[k])
    {
      if entries[i].kind != File { continue; }
      if entries[i].terraform {
        assert entries[i] in entries && TerraformFile(entries[i]);
        return true;
      }
    }
    return false;
  }

  method CountSkippedChildren(entries: seq<Entry>) returns (directories: nat, links: nat)
    ensures directories == SkippedDirectories(entries) && links == SkippedLinks(entries)
  {
    directories, links := 0, 0;
    for i := 0 to |entries|
      invariant directories == SkippedDirectories(entries[..i]) && links == SkippedLinks(entries[..i])
    {
      assert entries[..i + 1][..i] == entries[..i];
      if entries[i].kind == Directory {
        directories := directories + 1;
      } else if entries[i].kind == Link {
        directories, links := directories + 1, links + 1;
      }
    }
    assert entries[..|entries|] == entries;
  }
}
