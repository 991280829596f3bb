/** White space and control characters, on ASCII text. */
module Text {
  predicate Blank(c: char) { c == ' ' || '\t' <= c <= '\r' }

  predicate Control(c: char) { c < ' ' || c == 127 as char }

  predicate HasControl(s: string) { exists c :: c in s && Control(c) }

  predicate Contains(s: string, sub: string) {
    sub <= s || (s != "" && Contains(s[1..], sub))
  }

  function TrimRight(s: string): (t: string)
    ensures t <= s && (t == "" || !Blank(t[|t| - 1]))
    ensures forall i :: |t| <= i < |s| ==> Blank(s[i])
  {
    if s != "" && Blank(s[|s| - 1]) then TrimRight(s[..|s| - 1]) else s
  }

  function TrimLeft(s: string): string {
    if s != "" && Blank(s[0]) then TrimLeft(s[1..]) else s
  }

  function TrimSpace(s: string): string { TrimRight(TrimLeft(s)) }

  lemma {:induction false} TrimRightIs(s: string, t: string)
    requires t <= s && (forall i :: |t| <= i < |s| ==> Blank(s[i])) && (t == "" || !Blank(t[|t| - 1]))
    ensures TrimRight(s) == t
    decreases |s|
  {
    assert |t| == |s| ==> t == s;
    if s != "" && Blank(s[|s| - 1]) { TrimRightIs(s[..|s| - 1], t); }
  }

  lemma {:induction false} TrimSolid(n: string)
    requires n != "" && !Blank(n[0])
    ensures TrimRight(n) != "" && TrimRight(n)[0] == n[0]
  {
    if Blank(n[|n| - 1]) { TrimSolid(n[..|n| - 1]); }
  }

  /** Trimming keeps a prefix that does not start or end in white space. */
  lemma {:induction false} TrimKeepsPrefix(p: string, x: string)
    requires p != "" && !Blank(p[0]) && !Blank(p[|p| - 1])
    ensures p <= TrimSpace(p + x)
    decreases |x|
  {
    assert (p + x)[0] == p[0];
    if x != "" && Blank(x[|x| - 1]) {
      assert (p + x)[..|p + x| - 1] == p + x[..|x| - 1];
      TrimKeepsPrefix(p, x[..|x| - 1]);
      assert (p + x[..|x| - 1])[0] == p[0];
    }
  }

  lemma {:induction false} LeftTrimmed(s: string)
    ensures TrimLeft(s) == "" || !Blank(TrimLeft(s)[0])
  {
    if s != "" && Blank(s[0]) { LeftTrimmed(s[1..]); }
  }
}
