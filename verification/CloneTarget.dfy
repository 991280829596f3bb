/**
 The target directory of a clone request as text: what one normalization under a
 root makes of it, and of its own results.
 */
module CloneTarget {
  import opened Common
  import opened Text
  import opened Paths

  /** An absolute path, from the names on it. */
  function RootText(root: Path): string { "/" + Join(root) }

  /** A cleaned absolute path relative to the root, if it is at or below it. */
  function Under(root: string, local: string): Option<string> {
    if local == root then Some(".")
    else if root == "/" then Some(if local == "" then "" else local[1..])
    else if HasPrefix(local, root + "/") then Some(local[|root| + 1..])
    else None
  }

  function Below(root: Path, c: string): string {
    if root == [] then "/" + c else RootText(root) + "/" + c
  }

  /** One pass over a target, where no symbolic link is on the way; None is a refusal. */
  function NormalizeTarget(root: Path, target: string): Option<string> {
    var t := TrimSpace(target);
    if t == "" || HasControl(t) || '\\' in t then None
    else
      var c := Clean(t);
      if HasPrefix(c, "/") || c == "." || c == ".." || HasPrefix(c, "../") || Contains(c, "/../") then None
      else Under(RootText(root), Clean(TrimSpace(Below(root, c))))
  }

  // ------------------------------------------------ one pass on lists of names

  lemma {:induction false} JoinTwo(a: Path, b: Path)
    requires a != [] && b != []
    ensures Join(a + b) == Join(a) + "/" + Join(b)
    decreases |a|
  {
    if |a| == 1 {
      assert (a + b)[1..] == b;
    } else {
      JoinTwo(a[1..], b);
      assert (a + b)[1..] == a[1..] + b;
    }
  }

  lemma {:induction false} ResolveRooted(p: Path, t: string, stack: Path)
    requires OsPath(p) && t != ".."
    ensures Resolve(p + [t], true, stack) == if t == "" || t == "." then stack + p else stack + p + [t]
    decreases |p|
  {
    if p == [] {
      assert p + [t] == [t] && [t][1..] == [];
      assert stack + p == stack;
    } else {
      assert (p + [t])[1..] == p[1..] + [t];
      ResolveRooted(p[1..], t, stack + [p[0]]);
      assert stack + [p[0]] + p[1..] == stack + p;
    }
  }

  /** Trimming an absolute path trims its last name. */
  lemma TrimAbsolute(up: Path, n: string)
    ensures TrimSpace("/" + Join(up + [n])) == "/" + Join(up + [TrimRight(n)])
  {
    var t := TrimRight(n);
    if up == [] {
      assert up + [n] == [n] && up + [t] == [t];
    } else {
      JoinAppend(up, n);
      JoinAppend(up, t);
    }
    TrimRightIs("/" + Join(up + [n]), "/" + Join(up + [t]));
  }

  /** Cleaning an absolute path drops an empty last part and a dot. */
  lemma CleanRooted(up: Path, t: string)
    requires OsPath(up) && NoSlash(t) && t != ".."
    ensures Clean("/" + Join(up + [t])) == "/" + Join(if t == "" || t == "." then up else up + [t])
  {
    var s := "/" + Join(up + [t]);
    assert s[1..] == Join(up + [t]);
    SplitJoin(up + [t]);
    assert Split(s) == [""] + (up + [t]);
    assert ([""] + (up + [t]))[1..] == up + [t];
    ResolveRooted(up, t, []);
    assert [] + up == up;
  }

  /** What trimming and cleaning an absolute path does to its names. */
  lemma CleanAbsolute(up: Path, n: string)
    requires OsPath(up) && NoSlash(n) && TrimRight(n) != ".."
    ensures Clean(TrimSpace("/" + Join(up + [n]))) ==
            "/" + Join(if TrimRight(n) == "" || TrimRight(n) == "." then up else up + [TrimRight(n)])
  {
    TrimAbsolute(up, n);
    PrefixNoSlash(TrimRight(n), n);
    CleanRooted(up, TrimRight(n));
  }

  /** The text of a path below the root, taken relative to it. */
  lemma UnderRoot(root: Path, q: Path)
    requires OsPath(root) && OsPath(q)
    ensures Under(RootText(root), "/" + Join(root + q)) == Some(Print(q))
  {
    if q == [] {
      assert root + q == root;
    } else {
      TextIsPlain(q);
      if root == [] {
        assert root + q == q;
      } else {
        TextIsPlain(root);
        JoinTwo(root, q);
        assert "/" + Join(root + q) == RootText(root) + "/" + Join(q);
      }
    }
  }

  lemma BelowNames(root: Path, p: Path)
    requires OsPath(root) && OsPath(p) && p != []
    ensures Below(root, Join(p)) == "/" + Join(root + p) && OsPath(root + p)
  {
    forall i | 0 <= i < |root + p| ensures OsName((root + p)[i]) {
      if i >= |root| { assert (root + p)[i] == p[i - |root|]; }
    }
    if root == [] {
      assert root + p == p;
    } else {
      JoinTwo(root, p);
      assert "/" + Join(root + p) == RootText(root) + "/" + Join(p);
    }
  }

  lemma TidiedOs(up: Path, n: string)
    requires OsPath(up + [n]) && TrimRight(n) != ".."
    ensures Tidied(up + [n]) == (if TrimRight(n) == "" || TrimRight(n) == "." then up else up + [TrimRight(n)])
    ensures OsPath(up) && OsPath(Tidied(up + [n]))
  {
    var p := up + [n];
    assert p[..|up|] == up && p[|up|] == n && OsName(n);
    forall i | 0 <= i < |up| ensures OsName(up[i]) { assert p[i] == up[i]; }
    PrefixNoSlash(TrimRight(n), n);
  }

  lemma PassNames(root: Path, up: Path, n: string)
    requires OsPath(root + up) && OsPath(up + [n]) && TrimRight(n) != ".."
    ensures Clean(TrimSpace("/" + Join(root + (up + [n])))) == "/" + Join(root + Tidied(up + [n]))
  {
    TidiedOs(up, n);
    assert OsName((up + [n])[|up|]);
    var t := TrimRight(n);
    assert root + (up + [n]) == (root + up) + [n];
    assert root + (up + [t]) == (root + up) + [t];
    CleanAbsolute(root + up, n);
  }

  lemma PassBelow(root: Path, up: Path, n: string)
    requires OsPath(root) && OsPath(up + [n]) && TrimRight(n) != ".."
    ensures Under(RootText(root), Clean(TrimSpace(Below(root, Join(up + [n]))))) == Some(Print(Tidied(up + [n])))
  {
    BelowNames(root, up + [n]);
    TidiedOs(up, n);
    assert OsPath(root + up) by { if up == [] { assert root + up == root; } else { BelowNames(root, up); } }
    PassNames(root, up, n);
    UnderRoot(root, Tidied(up + [n]));
  }

  /** The text of listed names passes the guards of one pass. */
  lemma Guards(p: Path)
    requires OsPath(p) && p != []
    ensures !HasPrefix(Join(p), "/") && Join(p) != "." && Join(p) != ".." && !HasPrefix(Join(p), "../")
  {
    TextIsPlain(p);
    TextIsDotFree(p);
    NotAbove(p);
  }

  /**
   One pass over a target whose cleaned names are up and n: white space at the end
   of the last name goes, and a last name of nothing else goes with it.
   */
  lemma OnePass(root: Path, target: string, up: Path, n: string)
    requires OsPath(root) && OsPath(up + [n]) && TrimRight(n) != ".."
    requires TrimSpace(target) != "" && !HasControl(TrimSpace(target)) && '\\' !in TrimSpace(target)
    requires Clean(TrimSpace(target)) == Join(up + [n]) && !Contains(Join(up + [n]), "/../")
    ensures NormalizeTarget(root, target) == Some(Print(Tidied(up + [n])))
  {
    Guards(up + [n]);
    PassBelow(root, up, n);
  }

  // ----------------------------------------------------- no way out of the root

  lemma {:induction false} SplitAfter(p: Path, x: string)
    requires p != [] && SlashFree(p)
    ensures Split(Join(p) + "/" + x) == p + Split(x)
    decreases |p|
  {
    if |p| == 1 {
      assert p == [p[0]] && NoSlash(p[0]);
      SplitName(p[0], x);
    } else {
      var n, up, y := p[0], p[1..], Join(p[1..]) + "/" + x;
      assert p == [n] + up && SlashFree(up) && NoSlash(n);
      SplitAfter(up, x);
      SplitName(n, y);
      Regrouped(n, Join(up), x);
      assert Split(Join(p) + "/" + x) == [n] + Split(y) == [n] + (up + Split(x));
    }
  }

  lemma Regrouped(a: string, b: string, x: string)
    ensures (a + "/" + b) + "/" + x == a + "/" + (b + "/" + x)
  {
  }

  /** The names of a path below the root come after those of the root. */
  lemma BelowHasNames(root: Path, parts: Path, r: string)
    requires OsPath(root) && root != [] && parts != [] && IsResolved(parts, true)
    requires "/" + Join(parts) == RootText(root) + "/" + r
    ensures parts == root + Split(r)
  {
    assert ("/" + Join(parts))[1..] == Join(parts);
    assert (RootText(root) + "/" + r)[1..] == Join(root) + "/" + r;
    SplitJoin(parts);
    SplitAfter(root, r);
  }

  lemma UnderStays(root: Path, parts: Path, local: string)
    requires OsPath(root) && IsResolved(parts, true) && local == "/" + Join(parts) && Under(RootText(root), local).Some?
    ensures var r := Under(RootText(root), local).value; r == "." || IsResolved(Split(r), true)
  {
    var r := Under(RootText(root), local).value;
    assert local[1..] == Join(parts);
    if local == RootText(root) {
    } else if root == [] {
      SplitJoin(parts);
    } else {
      TextIsPlain(root);
      assert local == RootText(root) + "/" + r;
      assert parts != [];
      BelowHasNames(root, parts, r);
      assert forall i :: 0 <= i < |Split(r)| ==> Split(r)[i] == parts[|root| + i];
    }
  }

  /**
   Whatever target is asked for: one that is accepted is the root itself or names what
   lies below it, with no empty part, no dot and no way up.
   */
  lemma AcceptedStaysBelow(root: Path, target: string)
    requires OsPath(root) && NormalizeTarget(root, target).Some?
    ensures var r := NormalizeTarget(root, target).value; r == "." || IsResolved(Split(r), true)
    ensures var t := TrimSpace(target); t != "" && !HasControl(t) && '\\' !in t && t[0] != '/'
  {
    var below := Below(root, Clean(TrimSpace(target)));
    assert below[0] == '/';
    TrimRightStarts(below);
    var parts := CleanLeads(TrimSpace(below), []);
    UnderStays(root, parts, Clean(TrimSpace(below)));
  }

  lemma TrimRightStarts(s: string)
    requires s != "" && s[0] == '/'
    ensures TrimSpace(s) != "" && TrimSpace(s)[0] == '/'
  {
    TrimSolid(s);
  }

  // ------------------------------------------------------ a target that shrinks

  lemma JoinedNames()
    ensures Join(["a ", " ", " ", " ", "."]) == "a / / / /." && Join(["a ", " ", " ", " "]) == "a / / / "
    ensures Join(["a ", " ", " "]) == "a / / " && Join(["a ", " ", ""]) == "a / /" && Join(["a ", " "]) == "a / "
  {
    assert Join([" ", " ", "."]) == " / /." && Join([" ", " ", " ", "."]) == " / / /.";
    assert Join([" ", " ", " "]) == " / / " && Join([" ", " "]) == " / " && Join([" ", ""]) == " /";
  }

  /** A last part that is empty or a dot is cleaned away. */
  lemma CleanDropsLast(p: Path, t: string)
    requires OsPath(p) && p != [] && (t == "" || t == ".")
    ensures Clean(Join(p + [t])) == Join(p)
  {
    LastPart(p, t);
    CleanParts(p, t);
  }

  lemma BlankNameGoes(up: Path)
    requires OsPath(up)
    ensures OsPath(up + [" "]) && TrimRight(" ") == "" && Tidied(up + [" "]) == up
  {
    TrimRightIs(" ", "");
    TidiedOs(up, " ");
  }

  lemma {:induction false} NoDotNoParent(s: string)
    requires '.' !in s
    ensures !Contains(s, "/../")
  {
    assert "/../"[1] == '.' && (|s| > 1 ==> s[1] in s);
    if s != "" { NoDotNoParent(s[1..]); }
  }

  lemma FirstClean()
    ensures Clean("a / / / /.") == Join(["a ", " ", " "] + [" "]) && !Contains(Join(["a ", " ", " "] + [" "]), "/../")
  {
    JoinedNames();
    assert ["a ", " ", " "] + [" "] == ["a ", " ", " ", " "] && ["a ", " ", " ", " "] + ["."] == ["a ", " ", " ", " ", "."];
    CleanDropsLast(["a ", " ", " ", " "], ".");
    NoDotNoParent("a / / / ");
  }

  lemma FirstTrim()
    ensures TrimSpace("a / / / /.") == "a / / / /." && !HasControl("a / / / /.") && '\\' !in "a / / / /."
  {
    TrimRightIs("a / / / /.", "a / / / /.");
  }

  lemma FirstPass(root: Path)
    requires OsPath(root)
    ensures NormalizeTarget(root, "a / / / /.") == Some("a / / ")
  {
    FirstTrim();
    FirstClean();
    BlankNameGoes(["a ", " ", " "]);
    OnePass(root, "a / / / /.", ["a ", " ", " "], " ");
    JoinedNames();
  }

  lemma SecondClean()
    ensures Clean("a / /") == Join(["a "] + [" "]) && !Contains(Join(["a "] + [" "]), "/../")
  {
    JoinedNames();
    assert ["a "] + [" "] == ["a ", " "] && ["a ", " "] + [""] == ["a ", " ", ""];
    CleanDropsLast(["a ", " "], "");
    NoDotNoParent("a / ");
  }

  lemma SecondPass(root: Path)
    requires OsPath(root)
    ensures NormalizeTarget(root, "a / / ") == Some("a ")
  {
    TrimRightIs("a / / ", "a / /");
    SecondClean();
    BlankNameGoes(["a "]);
    OnePass(root, "a / / ", ["a "], " ");
  }

  lemma ThirdPass(root: Path)
    requires OsPath(root)
    ensures NormalizeTarget(root, "a ") == Some("a")
  {
    TrimRightIs("a ", "a");
    TrimRightIs("a", "a");
    assert [] + ["a"] == ["a"];
    LastPart([], "a");
    CleanParts([], "a");
    TidiedOs([], "a");
    OnePass(root, "a ", [], "a");
  }
}
