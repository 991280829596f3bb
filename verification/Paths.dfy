/**
 Relative paths as the scanner prints, cleans and compares them. A directory is
 the list of names below the root; the text is what the tables hold.
 */
module Paths {
  import opened Common
  import opened Text

  type Path = seq<string>

  // ---------------------------------------------------------- split and join

  function Split(s: string): (parts: Path)
    ensures |parts| >= 1
  {
    if s == "" then [""]
    else if s[0] == '/' then [""] + Split(s[1..])
    else
      var rest := Split(s[1..]);
      [[s[0]] + rest[0]] + rest[1..]
  }

  function Join(parts: Path): string {
    if parts == [] then ""
    else if |parts| == 1 then parts[0]
    else parts[0] + "/" + Join(parts[1..])
  }

  predicate NoSlash(n: string) { '/' !in n }

  /** A name the operating system can hand out in a listing. */
  predicate OsName(n: string) { n != "" && NoSlash(n) && n != "." && n != ".." }

  ghost predicate OsPath(p: Path) { forall i :: 0 <= i < |p| ==> OsName(p[i]) }

  ghost predicate SlashFree(p: Path) { forall i :: 0 <= i < |p| ==> NoSlash(p[i]) }

  lemma {:induction false} SplitName(n: string, rest: string)
    requires NoSlash(n)
    ensures Split(n) == [n]
    ensures Split(n + "/" + rest) == [n] + Split(rest)
  {
    if n == "" {
      assert n + "/" + rest == "/" + rest;
      assert ("/" + rest)[1..] == rest;
    } else {
      SplitName(n[1..], rest);
      assert (n + "/" + rest)[1..] == n[1..] + "/" + rest;
      assert [n[0]] + n[1..] == n;
    }
  }

  lemma {:induction false} SplitJoin(p: Path)
    requires p != [] && SlashFree(p)
    ensures Split(Join(p)) == p
  {
    if |p| == 1 {
      SplitName(p[0], "");
    } else {
      assert SlashFree(p[1..]) && p == [p[0]] + p[1..];
      SplitJoin(p[1..]);
      SplitName(p[0], Join(p[1..]));
      assert Join(p) == p[0] + "/" + Join(p[1..]);
    }
  }

  lemma {:induction false} JoinAppend(p: Path, n: string)
    requires p != []
    ensures Join(p + [n]) == Join(p) + "/" + n
  {
    if |p| == 1 {
      assert (p + [n])[1..] == [n];
    } else {
      JoinAppend(p[1..], n);
      assert (p + [n])[1..] == p[1..] + [n];
    }
  }

  // ------------------------------------------------------------------- clean

  /** The lexical part of filepath.Clean: drop empty and dot parts, let ".." cancel. */
  function Resolve(parts: Path, rooted: bool, stack: Path): Path
    decreases |parts|
  {
    if parts == [] then stack
    else if parts[0] == "" || parts[0] == "." then Resolve(parts[1..], rooted, stack)
    else if parts[0] == ".." && stack != [] && stack[|stack| - 1] != ".." then Resolve(parts[1..], rooted, stack[..|stack| - 1])
    else if parts[0] == ".." && rooted then Resolve(parts[1..], rooted, stack)
    else Resolve(parts[1..], rooted, stack + [parts[0]])
  }

  function Clean(s: string): string {
    if s == "" then "."
    else
      var rooted := s[0] == '/';
      var body := Join(Resolve(Split(s), rooted, []));
      if rooted then "/" + body else if body == "" then "." else body
  }

  // ------------------------------------------- where a path leads, before and after

  /** Following a path from a directory, name by name; above the root there is nothing. */
  function Follow(dir: Path, parts: Path): Path
    decreases |parts|
  {
    if parts == [] then dir
    else if parts[0] == "" || parts[0] == "." then Follow(dir, parts[1..])
    else if parts[0] == ".." then Follow(if dir == [] then [] else dir[..|dir| - 1], parts[1..])
    else Follow(dir + [parts[0]], parts[1..])
  }

  /** Nothing to drop or to cancel; with a root, no way up at all. */
  ghost predicate IsResolved(parts: Path, rooted: bool) {
    && (forall i :: 0 <= i < |parts| ==> parts[i] != "" && parts[i] != "." && NoSlash(parts[i]) && (rooted ==> parts[i] != ".."))
    && forall i :: 0 < i < |parts| && parts[i] == ".." ==> parts[i - 1] == ".."
  }

  lemma {:induction false} FollowAppend(dir: Path, a: Path, b: Path)
    ensures Follow(dir, a + b) == Follow(Follow(dir, a), b)
    decreases |a|
  {
    if a == [] {
      assert a + b == b;
    } else {
      assert (a + b)[1..] == a[1..] + b;
      FollowAppend(if a[0] == "" || a[0] == "." then dir else if a[0] == ".." then if dir == [] then [] else dir[..|dir| - 1] else dir + [a[0]], a[1..], b);
    }
  }

  lemma FollowOne(dir: Path, n: string)
    ensures Follow(dir, [n]) == if n == "" || n == "." then dir else if n == ".." then if dir == [] then [] else dir[..|dir| - 1] else dir + [n]
  {
    assert [n][1..] == [];
  }

  /** Resolving keeps where the path leads, from every directory. */
  lemma {:induction false} ResolveLeads(parts: Path, rooted: bool, stack: Path, dir: Path)
    requires IsResolved(stack, rooted) && (forall i :: 0 <= i < |parts| ==> NoSlash(parts[i])) && (rooted ==> dir == [])
    ensures IsResolved(Resolve(parts, rooted, stack), rooted)
    ensures Follow(dir, Resolve(parts, rooted, stack)) == Follow(Follow(dir, stack), parts)
    decreases |parts|
  {
    if parts != [] {
      var n, rest := parts[0], parts[1..];
      var at := Follow(dir, stack);
      FollowOne(at, n);
      FollowAppend(at, [n], rest);
      assert [n] + rest == parts;
      if n == "" || n == "." {
        ResolveLeads(rest, rooted, stack, dir);
      } else if n == ".." && stack != [] && stack[|stack| - 1] != ".." {
        var up, last := stack[..|stack| - 1], stack[|stack| - 1];
        assert stack == up + [last];
        FollowAppend(dir, up, [last]);
        FollowOne(Follow(dir, up), last);
        ResolveLeads(rest, rooted, up, dir);
      } else if n == ".." && rooted {
        ResolveLeads(rest, rooted, stack, dir);
      } else {
        FollowAppend(dir, stack, [n]);
        ResolveLeads(rest, rooted, stack + [n], dir);
      }
    }
  }

  lemma {:induction false} SplitIsSlashFree(s: string)
    ensures forall i :: 0 <= i < |Split(s)| ==> NoSlash(Split(s)[i])
  {
    if s != "" { SplitIsSlashFree(s[1..]); }
  }

  /**
   Cleaning a text keeps where it leads, from every directory, and leaves nothing in it
   to drop or cancel.
   */
  lemma CleanLeads(s: string, dir: Path) returns (parts: Path)
    ensures var rooted := s != "" && s[0] == '/';
            && IsResolved(parts, rooted)
            && Clean(s) == (if rooted then "/" + Join(parts) else if parts == [] then "." else Join(parts))
            && Follow(if rooted then [] else dir, parts) == Follow(if rooted then [] else dir, Split(s))
  {
    var rooted := s != "" && s[0] == '/';
    parts := if s == "" then [] else Resolve(Split(s), rooted, []);
    SplitIsSlashFree(s);
    if s == "" {
      FollowOne(dir, "");
    } else {
      ResolveLeads(Split(s), rooted, [], if rooted then [] else dir);
      if parts != [] && parts[0] != "" { JoinStart(parts); }
    }
  }

  function CleanRelative(value: string): string {
    var v := Clean(TrimSpace(value));
    if v == "" || v == "/" then "."
    else if v[0] == '/' then if v[1..] == "" then "." else v[1..]
    else v
  }

  function ReplaceBackslash(s: string): string {
    if s == "" then "" else [if s[0] == '\\' then '/' else s[0]] + ReplaceBackslash(s[1..])
  }

  predicate WindowsAbs(s: string) {
    |s| >= 3 && s[1] == ':' && s[2] == '/' && ('A' <= s[0] <= 'Z' || 'a' <= s[0] <= 'z')
  }

  /** The text a project row is stored under, or None where the store refuses the path. */
  function SafeRelative(value: string): Option<string> {
    var raw := TrimSpace(value);
    if raw == "" then Some(".")
    else
      var slashed := ReplaceBackslash(raw);
      if raw[0] == '/' || slashed[..1] == "/" || WindowsAbs(slashed) then None
      else
        var c := CleanRelative(slashed);
        if c == ".." || (|c| >= 3 && c[..3] == "../") then None else Some(c)
  }

  /** The text starts like an absolute path, of Unix or of Windows, with either slash. */
  predicate Absolute(s: string) {
    || "/" <= s || "\\" <= s
    || (|s| >= 3 && IsDrive(s[0]) && s[1] == ':' && (s[2] == '/' || s[2] == '\\'))
  }

  predicate IsDrive(c: char) { 'a' <= c <= 'z' || 'A' <= c <= 'Z' }

  lemma {:induction false} ReplacedAt(s: string, i: nat)
    requires i < |s|
    ensures |ReplaceBackslash(s)| == |s| && ReplaceBackslash(s)[i] == if s[i] == '\\' then '/' else s[i]
  {
    if |s| > 1 { ReplacedAt(s[1..], if i == 0 then 0 else i - 1); }
  }

  /** Which texts a row can be stored under, and how: what is absolute or leads out of the root is refused. */
  lemma SafeRelativeIff(value: string, r: string)
    ensures var raw := TrimSpace(value);
            SafeRelative(value) == Some(r) <==>
            if raw == "" then r == "."
            else !Absolute(raw) && r == CleanRelative(ReplaceBackslash(raw)) && r != ".." && !("../" <= r)
  {
    var raw := TrimSpace(value);
    if raw != "" {
      ReplacedAt(raw, 0);
      if |raw| >= 3 { ReplacedAt(raw, 1); ReplacedAt(raw, 2); }
      AbsoluteIff(raw, ReplaceBackslash(raw));
      var c := CleanRelative(ReplaceBackslash(raw));
      assert "../" <= c <==> |c| >= 3 && c[..3] == "../";
    }
  }

  lemma AbsoluteIff(raw: string, slashed: string)
    requires raw != "" && |slashed| == |raw| && slashed[0] == if raw[0] == '\\' then '/' else raw[0]
    requires |raw| >= 3 ==> forall i :: 1 <= i <= 2 ==> slashed[i] == if raw[i] == '\\' then '/' else raw[i]
    ensures raw[0] == '/' || slashed[..1] == "/" || WindowsAbs(slashed) <==> Absolute(raw)
  {
  }

  // --------------------------------------------------------- the three texts

  /** The text of a directory before any cleaning. */
  function Print(p: Path): string { if p == [] then "." else Join(p) }

  /** What a listing error of the directory is recorded under. */
  function ErrorKey(p: Path): string { CleanRelative(CleanRelative(Print(p))) }

  /** What the project row of the directory is stored under. */
  function RowKey(p: Path): Option<string> { SafeRelative(CleanRelative(Print(p))) }

  predicate HasPrefix(s: string, prefix: string) { prefix <= s }

  predicate Covers(subtree: string, rel: string) {
    subtree == "." || rel == subtree || HasPrefix(rel, subtree + "/")
  }

  predicate UnderErroredSubtree(rel: string, subtrees: set<string>) {
    exists t :: t in subtrees && Covers(CleanRelative(t), CleanRelative(rel))
  }

  // ------------------------------------------ cleaning, seen on lists of names

  /** What cleaning does to a path that does not start with white space. */
  function Tidied(p: Path): Path {
    if p == [] then []
    else
      var up := p[..|p| - 1];
      var last := TrimRight(p[|p| - 1]);
      if last == "" || last == "." then up
      else if last == ".." then if up == [] || up[|up| - 1] == ".." then up + [".."] else up[..|up| - 1]
      else up + [last]
  }

  /** Names from a listing, except that ".." may stand alone. */
  ghost predicate Plain(p: Path) { OsPath(p) || p == [".."] }

  predicate StartsSolid(p: Path) { p == [] || (p[0] != "" && !Blank(p[0][0])) }

  lemma TidiedPlain(p: Path)
    requires Plain(p) && StartsSolid(p)
    ensures Plain(Tidied(p)) && StartsSolid(Tidied(p))
  {
    if p != [] && p != [".."] {
      var last := TrimRight(p[|p| - 1]);
      assert last <= p[|p| - 1];
      PrefixNoSlash(last, p[|p| - 1]);
      if |p| == 1 { TrimSolid(p[0]); }
    }
  }

  lemma {:induction false} ResolvePlain(p: Path, q: Path, stack: Path)
    requires OsPath(p)
    ensures Resolve(p + q, false, stack) == Resolve(q, false, stack + p)
    decreases |p|
  {
    if p == [] {
      assert p + q == q && stack + p == stack;
    } else {
      assert (p + q)[1..] == p[1..] + q;
      ResolvePlain(p[1..], q, stack + [p[0]]);
      assert stack + [p[0]] + p[1..] == stack + p;
    }
  }

  lemma PrefixNoSlash(t: string, n: string)
    requires t <= n && NoSlash(n)
    ensures NoSlash(t)
  {
    forall i | 0 <= i < |t| ensures t[i] != '/' { assert t[i] == n[i]; }
  }

  /** Trimming a printed path trims its last name, and leaves a bare slash when that name was blank. */
  lemma TrimJoin(up: Path, n: string)
    requires StartsSolid(up + [n]) && SlashFree(up + [n])
    ensures TrimSpace(Join(up + [n])) == Join(up + [TrimRight(n)])
  {
    var t := TrimRight(n);
    if up == [] {
      assert up + [n] == [n] && up + [t] == [t];
    } else {
      JoinAppend(up, n);
      JoinAppend(up, t);
      JoinStart(up);
      var s := Join(up) + "/" + n;
      assert s[0] == (up + [n])[0][0];
      TrimRightIs(s, Join(up) + "/" + t);
    }
  }

  lemma JoinStart(p: Path)
    requires p != [] && p[0] != ""
    ensures Join(p) != "" && Join(p)[0] == p[0][0]
  {
  }

  lemma CleanPlain(p: Path)
    requires Plain(p) && StartsSolid(p)
    ensures CleanRelative(Print(p)) == Print(Tidied(p))
  {
    if p == [] {
      SplitName(".", "");
    } else if p == [".."] {
      SplitName("..", "");
    } else {
      var up, n := p[..|p| - 1], p[|p| - 1];
      assert p == up + [n];
      TidiedPlain(p);
      TrimJoin(up, n);
      CleanTrimmed(up, n);
      KeptPlain(Join(p), Tidied(p));
    }
  }

  lemma KeptPlain(value: string, p: Path)
    requires Plain(p) && Clean(TrimSpace(value)) == Print(p)
    ensures CleanRelative(value) == Print(p)
  {
    TextIsPlain(p);
  }

  lemma CleanTrimmed(up: Path, n: string)
    requires OsPath(up + [n]) && StartsSolid(up + [n])
    ensures Clean(Join(up + [TrimRight(n)])) == Print(Tidied(up + [n]))
  {
    var p := up + [n];
    assert OsName(p[|up|]) && (forall i :: 0 <= i < |up| ==> OsName(p[i]) && p[i] == up[i]) && p[..|up|] == up;
    PrefixNoSlash(TrimRight(n), n);
    if up == [] { TrimSolid(n); }
    LastPart(up, TrimRight(n));
    TidiedPlain(p);
    CleanParts(up, TrimRight(n));
  }

  /** Cleaning the text of a path resolves its last part. */
  lemma CleanParts(up: Path, t: string)
    requires OsPath(up) && NoSlash(t) && (up + [t])[0] != ""
    requires Plain(Resolve([t], false, up))
    ensures Clean(Join(up + [t])) == Print(Resolve([t], false, up))
  {
    var parts := up + [t];
    SplitJoin(parts);
    JoinStart(parts);
    assert parts[0][0] in parts[0] && NoSlash(parts[0]);
    ResolvePlain(up, [t], []);
    assert [] + up == up;
    TextIsPlain(Resolve([t], false, up));
  }

  lemma LastPart(up: Path, t: string)
    requires OsPath(up)
    ensures Resolve([t], false, up) ==
            if t == "" || t == "." then up
            else if t == ".." then if up == [] then [".."] else up[..|up| - 1]
            else up + [t]
  {
    assert [t][1..] == [];
    if up != [] { assert OsName(up[|up| - 1]); }
  }

  lemma TextIsPlain(p: Path)
    requires Plain(p)
    ensures p != [] ==> Join(p) != "" && Join(p) != "/" && Join(p)[0] != '/'
  {
    if p != [] { assert NoSlash(p[0]) && p[0] != ""; JoinStart(p); assert Join(p)[0] in p[0]; }
  }

  // ------------------------------------------------ the prefix test on texts

  /** Two texts with a slash-free first part are equal up to their first slash exactly when the parts are. */
  lemma {:induction false} FirstPart(a: string, b: string, x: string, y: string)
    requires NoSlash(a) && NoSlash(b)
    requires (a + "/" + x) <= (b + y) && (y == "" || y[0] == '/')
    ensures a == b && y != "" && x <= y[1..]
  {
    var s, u := a + "/" + x, b + y;
    assert s[|a|] == '/' && u[|a|] == '/' && u[..|s|] == s;
    assert forall i :: 0 <= i < |a| ==> s[i] == a[i] && a[i] != '/';
    assert y != "" ==> u[|b|] == '/';
    if |a| < |b| { assert false; }
    if |b| < |a| { assert false; }
    assert a == s[..|a|] == u[..|b|] == b;
    assert x == s[|a| + 1..] && y[1..] == u[|a| + 1..];
    assert s == u[..|s|];
    assert x == y[1..][..|x|];
  }

  /** The string test with a trailing slash is the ancestor relation on lists of names. */
  lemma {:induction false} PrefixTest(k: Path, p: Path)
    requires k != [] && p != [] && SlashFree(k) && SlashFree(p)
    ensures (Join(p) == Join(k) || HasPrefix(Join(p), Join(k) + "/")) <==> k <= p
    decreases |k|
  {
    if k <= p { PrefixText(k, p); }
    if Join(p) == Join(k) { SplitJoin(p); SplitJoin(k); }
    if HasPrefix(Join(p), Join(k) + "/") { TextPrefix(k, p); }
  }

  lemma {:induction false} PrefixText(k: Path, p: Path)
    requires k != [] && k <= p
    ensures Join(p) == Join(k) || HasPrefix(Join(p), Join(k) + "/")
    decreases |k|
  {
    if |k| == |p| {
      assert k == p;
    } else if |k| == 1 {
      assert Join(p) == Join(k) + "/" + Join(p[1..]);
    } else {
      PrefixText(k[1..], p[1..]);
      assert Join(p) == p[0] + "/" + Join(p[1..]) && Join(k) == p[0] + "/" + Join(k[1..]);
      assert k[1..] != p[1..];
      if Join(p[1..]) != Join(k[1..]) {
        var z := Join(p[1..])[|Join(k[1..]) + "/"|..];
        assert Join(p[1..]) == Join(k[1..]) + "/" + z;
        assert Join(p) == Join(k) + "/" + z;
      }
    }
  }

  lemma {:induction false} TextPrefix(k: Path, p: Path)
    requires k != [] && p != [] && SlashFree(k) && SlashFree(p) && HasPrefix(Join(p), Join(k) + "/")
    ensures k <= p
    decreases |k|
  {
    var y := if |p| == 1 then "" else "/" + Join(p[1..]);
    assert Join(p) == p[0] + y;
    if |k| == 1 {
      assert Join(k) + "/" == k[0] + "/" + "";
      FirstPart(k[0], p[0], "", y);
    } else {
      assert Join(k) + "/" == k[0] + "/" + (Join(k[1..]) + "/");
      FirstPart(k[0], p[0], Join(k[1..]) + "/", y);
      assert y[1..] == Join(p[1..]);
      TextPrefix(k[1..], p[1..]);
    }
  }

  // ---------------------------------------------- which errors cover a project

  /** The path an error of directory d ends up recorded under, after all three cleanings. */
  function Recorded(d: Path): Path { Tidied(Tidied(Tidied(d))) }

  /** A path whose text the tables hold as it is: solid ends, no backslash, not like "c:/". */
  ghost predicate OwnName(p: Path) {
    && OsPath(p) && StartsSolid(p) && (p != [] ==> TrimRight(p[|p| - 1]) == p[|p| - 1])
    && '\\' !in Print(p) && !WindowsAbs(Print(p))
  }

  lemma {:induction false} NoBackslash(s: string)
    requires '\\' !in s
    ensures ReplaceBackslash(s) == s
  {
    if s != "" {
      assert s[0] in s;
      NoBackslash(s[1..]);
      assert s == [s[0]] + s[1..];
    }
  }

  /** The project row of such a directory is stored under the text of its path. */
  lemma OwnNameKept(p: Path)
    requires OwnName(p)
    ensures RowKey(p) == Some(Print(p))
  {
    TidiedFixed(p);
    CleanPlain(p);
    NoBackslash(Print(p));
    if p == [] {
      TrimRightIs(".", ".");
    } else {
      OwnText(p);
      NotAbove(p);
      SafeAsIs(Join(p));
    }
  }

  lemma SafeAsIs(raw: string)
    requires raw != "" && TrimSpace(raw) == raw && raw[0] != '/' && ReplaceBackslash(raw) == raw && !WindowsAbs(raw)
    requires CleanRelative(raw) == raw && raw != ".." && !("../" <= raw)
    ensures SafeRelative(raw) == Some(raw)
  {
  }

  lemma OwnText(p: Path)
    requires OsPath(p) && p != [] && StartsSolid(p) && TrimRight(p[|p| - 1]) == p[|p| - 1]
    ensures Join(p) != "" && TrimSpace(Join(p)) == Join(p) && Join(p)[0] != '/'
  {
    var up := p[..|p| - 1];
    assert p == up + [p[|p| - 1]];
    assert OsName(p[0]);
    TrimJoin(up, p[|p| - 1]);
    TextIsPlain(p);
  }

  lemma NotAbove(p: Path)
    requires OsPath(p) && p != []
    ensures Join(p) != ".." && !("../" <= Join(p))
  {
    assert OsName(p[0]);
    if Join(p) == ".." { SplitJoin(p); SplitName("..", ""); }
    if "../" <= Join(p) {
      assert Join([".."]) == "..";
      assert HasPrefix(Join(p), Join([".."]) + "/");
      TextPrefix([".."], p);
    }
  }

  lemma TidiedFixed(p: Path)
    requires OsPath(p) && (p != [] ==> TrimRight(p[|p| - 1]) == p[|p| - 1])
    ensures Tidied(p) == p
  {
    if p != [] { assert OsName(p[|p| - 1]); assert p == p[..|p| - 1] + [p[|p| - 1]]; }
  }

  /**
   An error of directory d keeps the project of a directory p below it from being
   marked exactly when the path it is recorded under is still an ancestor of p.
   */
  lemma ErrorCoversIff(d: Path, p: Path)
    requires OwnName(p) && d <= p
    ensures Covers(CleanRelative(ErrorKey(d)), CleanRelative(Print(p))) <==> Recorded(d) <= p
  {
    RecordedText(d, p);
    TidiedFixed(p);
    CleanPlain(p);
    CoversPath(Recorded(d), p);
  }

  /** The text an error ends up compared by is that of the recorded path. */
  lemma RecordedText(d: Path, p: Path)
    requires OwnName(p) && d <= p
    ensures Plain(Recorded(d)) && CleanRelative(ErrorKey(d)) == Print(Recorded(d))
    ensures d == [] ==> Recorded(d) == []
  {
    assert OsPath(d) && StartsSolid(d) by {
      forall i | 0 <= i < |d| ensures OsName(d[i]) { assert d[i] == p[i]; }
    }
    CleanPlain(d);
    TidiedPlain(d);
    CleanPlain(Tidied(d));
    TidiedPlain(Tidied(d));
    CleanPlain(Tidied(Tidied(d)));
    TidiedPlain(Tidied(Tidied(d)));
  }

  lemma CoversPath(k: Path, p: Path)
    requires Plain(k) && OsPath(p)
    ensures Covers(Print(k), Print(p)) <==> k <= p
  {
    if k != [] {
      TextIsDotFree(k);
      if p == [] {
        if HasPrefix(".", Join(k) + "/") { assert |Join(k)| == 0; TextIsPlain(k); }
      } else {
        PrefixTest(k, p);
      }
    }
  }

  lemma TextIsDotFree(p: Path)
    requires Plain(p) && p != []
    ensures Join(p) != "."
  {
    if Join(p) == "." { SplitJoin(p); SplitName(".", ""); }
  }

  /** A directory name whose end is white space after a real name is not covered by its own error. */
  lemma RaggedNotCovered(d: Path, p: Path)
    requires OwnName(p) && d <= p && d != []
    ensures TrimRight(d[|d| - 1]) == d[|d| - 1] ==> Recorded(d) == d
    ensures TrimRight(d[|d| - 1]) !in {d[|d| - 1], "", ".", ".."} ==> !(Recorded(d) <= p)
  {
    var up, n := d[..|d| - 1], d[|d| - 1];
    assert d == up + [n] && n == p[|d| - 1];
    assert OsName(n);
    TidiedLast(up, n);
    var t := TrimRight(n);
    TrimRightIs(t, t);
    TidiedLast(up, t);
    if t !in {n, "", ".", ".."} { assert (up + [t])[|d| - 1] == t; }
  }

  lemma TidiedLast(up: Path, n: string)
    ensures TrimRight(n) !in {"", ".", ".."} ==> Tidied(up + [n]) == up + [TrimRight(n)]
  {
    assert (up + [n])[..|up|] == up;
  }
}
