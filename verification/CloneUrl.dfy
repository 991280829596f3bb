/**
 Clone URLs: the text of a repository identity and its parser, on ASCII text.
 Percent escapes, queries, fragments, bracketed hosts and local paths are
 recognised and set apart.
 */
module CloneUrl {
  import opened Common
  import opened Text
  import P = Paths

  datatype Provider = Generic | GitHub

  datatype Protocol = Https | Ssh

  datatype Identity = Identity(provider: Provider, host: string, path: string, protocol: Protocol)

  datatype ParseResult = Parsed(identity: Identity, cloneUrl: string) | Rejected | SetApart

  // -------------------------------------------------------------- string tests

  predicate HasSuffix(s: string, suffix: string) {
    |suffix| <= |s| && s[|s| - |suffix|..] == suffix
  }

  predicate IsDigit(c: char) { '0' <= c <= '9' }

  predicate IsLetter(c: char) { 'a' <= c <= 'z' || 'A' <= c <= 'Z' }

  function Lower(c: char): char {
    if 'A' <= c <= 'Z' then (c as int + 32) as char else c
  }

  function ToLower(s: string): string { if s == "" then "" else [Lower(s[0])] + ToLower(s[1..]) }

  /** What comes before and after the first c, if c is there. */
  function Cut(s: string, c: char): (r: Option<(string, string)>)
    ensures r.None? <==> c !in s
    ensures r.Some? ==> s == r.value.0 + [c] + r.value.1 && c !in r.value.0
  {
    if s == "" then None
    else if s[0] == c then Some(("", s[1..]))
    else match Cut(s[1..], c)
      case None => None
      case Some((a, b)) => Some(([s[0]] + a, b))
  }

  // ------------------------------------------------------------ normalization

  function StripGit(s: string): string { if HasSuffix(s, ".git") then s[..|s| - 4] else s }

  predicate PathPart(n: string) { n != "" && n != "." && n != ".." }

  function NormalizeFullPath(provider: Provider, value: string): Option<string> {
    var v := TrimSpace(value);
    if v == "" || HasControl(v) || '\\' in v then None
    else
      var p := StripGit(v);
      var parts := P.Split(p);
      if "/" <= p || HasSuffix(p, "/") then None
      else if exists n :: n in parts && !PathPart(n) then None
      else if provider == GitHub && |parts| != 2 then None
      else Some(p)
  }

  predicate DefaultPort(protocol: Protocol, port: string) { port == if protocol == Https then "443" else "22" }

  /** Lower-cased and trimmed, without the default port of its protocol; None where it is refused. */
  function NormalizeHost(value: string, protocol: Protocol): Option<string> {
    var v := ToLower(TrimSpace(value));
    if v == "" then Some("")
    else if HasControl(v) || '/' in v || '@' in v || ' ' in v then None
    else
      match Cut(v, ':')
      case None => if BadHost(v) then None else Some(v)
      case Some((h, port)) =>
        if ':' in port || h == "" || port == "" || BadHost(h) then None
        else Some(if DefaultPort(protocol, port) then h else v)
  }

  predicate BadHost(h: string) { h == "." || h == "-" || "." <= h || HasSuffix(h, ".") }

  // ------------------------------------------------------------------ printing

  function TransportURL(id: Identity): string {
    if id.protocol == Ssh then
      if ':' in id.host then "ssh://git@" + id.host + "/" + id.path + ".git"
      else "git@" + id.host + ":" + id.path + ".git"
    else if id.provider == Generic && id.host == "local" then id.path
    else "https://" + id.host + "/" + id.path + ".git"
  }

  // ------------------------------------------------------------------- parsing

  /** A URL as the standard library splits it; an opaque one has no authority. */
  datatype Url = Url(scheme: string, user: Option<string>, host: string, path: string)

  /** The scheme before the first colon, when what precedes it can be one. */
  function SchemeEnd(s: string, i: nat): (r: Option<nat>)
    requires i <= |s|
    ensures r.Some? ==> i <= r.value < |s| && s[r.value] == ':'
    decreases |s| - i
  {
    if i == |s| then None
    else if IsLetter(s[i]) || (i > 0 && (IsDigit(s[i]) || s[i] in {'+', '-', '.'})) then SchemeEnd(s, i + 1)
    else if s[i] == ':' then Some(i)
    else None
  }

  /** Characters that the standard library takes in a host without escapes. */
  predicate HostChar(c: char) {
    IsLetter(c) || IsDigit(c) || c in {'-', '_', '.', '~', '!', '$', '&', '\'', '(', ')', '*', '+', ',', ';', '=', ':', '<', '>', '"'}
  }

  predicate AllDigits(s: string) { forall c :: c in s ==> IsDigit(c) }

  /** A host the standard library accepts: known characters, and digits after the colon. */
  predicate UrlHost(h: string) {
    (forall c :: c in h ==> HostChar(c)) &&
    match Cut(h, ':') case None => true case Some((_, port)) => ':' !in port && AllDigits(port)
  }

  /** The part between "//" and the next slash. */
  function ParseAuthority(authority: string): Option<(Option<string>, string)> {
    match Cut(authority, '@')
    case None => if UrlHost(authority) then Some((None, authority)) else None
    case Some((user, host)) => if UrlHost(host) then Some((Some(user), host)) else None
  }

  function ParseUrl(raw: string): Option<Url> {
    if raw == "" || raw[0] == ':' then None
    else
      var end := SchemeEnd(raw, 0);
      var scheme := if end.Some? then ToLower(raw[..end.value]) else "";
      var rest := if end.Some? then raw[end.value + 1..] else raw;
      ParseRest(scheme, rest)
  }

  /** What follows the scheme. */
  function ParseRest(scheme: string, rest: string): Option<Url> {
    if "//" <= rest && (scheme != "" || !("///" <= rest)) then
      var after := rest[2..];
      var (authority, path) := match Cut(after, '/')
                               case None => (after, "")
                               case Some((a, b)) => (a, "/" + b);
      match ParseAuthority(authority)
      case None => None
      case Some((user, host)) => Some(Url(scheme, user, host, path))
    else if scheme != "" && !("/" <= rest) then Some(Url(scheme, None, "", ""))
    else if scheme == "" && !("/" <= rest) && ColonInFirstPart(rest) then None
    else Some(Url(scheme, None, "", rest))
  }

  predicate ColonInFirstPart(s: string) {
    match Cut(s, '/') case None => ':' in s case Some((first, _)) => ':' in first
  }

  predicate Disallowed(u: Url) { u.user.Some? && (u.scheme != "ssh" || u.user.value != "git") }

  function FromHostPath(provider: Provider, host: string, rawPath: string, protocol: Protocol): ParseResult {
    match (NormalizeHost(host, protocol), NormalizeFullPath(provider, rawPath))
    case (Some(h), Some(p)) =>
      var id := Identity(provider, h, p, protocol);
      Parsed(id, TransportURL(id))
    case _ => Rejected
  }

  predicate Escapes(raw: string) { '%' in raw || '?' in raw || '#' in raw || '[' in raw || ']' in raw }

  function ParseCloneURL(provider: Provider, text: string): ParseResult {
    var raw := TrimSpace(text);
    if raw == "" || HasControl(raw) then Rejected
    else if Escapes(raw) || (provider == Generic && "/" <= raw) then SetApart
    else
      var u := ParseUrl(raw);
      if '@' in raw && Contains(raw, "://") && (u.None? || Disallowed(u.value)) then Rejected
      else if "git@" <= raw && ':' in raw && !Contains(raw, "://") then
        match Cut(raw[4..], ':')
        case Some((h, p)) => FromHostPath(provider, h, p, Ssh)
        case None => Rejected
      else if u.None? || u.value.scheme == "" then
        if '/' in raw && !Contains(raw, "://") && '@' !in raw then
          match Cut(raw, '/')
          case Some((h, p)) => FromHostPath(provider, h, p, Https)
          case None => Rejected
        else Rejected
      else FromUrl(provider, u.value)
  }

  function FromUrl(provider: Provider, u: Url): ParseResult {
    if Disallowed(u) then Rejected
    else if u.scheme == "file" then (if provider == Generic then SetApart else Rejected)
    else if u.scheme == "https" then FromHostPath(provider, u.host, TrimSlash(u.path), Https)
    else if u.scheme == "ssh" then FromHostPath(provider, u.host, TrimSlash(u.path), Ssh)
    else Rejected
  }

  function TrimSlash(s: string): string { if "/" <= s then s[1..] else s }

  // ------------------------------------------------------------ the round trip

  /**
   Host and path are results of the normalizers (HostOutput, PathWithSuffix) and
   the identity is printed as a URL.
   */
  predicate Normal(id: Identity) {
    && NormalizeHost(id.host, id.protocol) == Some(id.host)
    && NormalizeFullPath(id.provider, id.path + ".git") == Some(id.path)
    && !Escapes(id.host) && !Escapes(id.path)
    && !(id.provider == Generic && id.host == "local" && id.protocol == Https)
  }

  lemma {:induction false} TrimShorter(s: string)
    ensures |TrimSpace(s)| <= |s|
    ensures |TrimSpace(s)| == |s| ==> TrimSpace(s) == s
  {
    if s != "" && Blank(s[0]) { TrimShorter(s[1..]); }
  }

  lemma TrimSolidEnds(s: string)
    requires s != "" && !Blank(s[0]) && !Blank(s[|s| - 1])
    ensures TrimSpace(s) == s
  {
    TrimRightIs(s, s);
  }

  lemma NormalPath(provider: Provider, v: string, p: string)
    requires NormalizeFullPath(provider, v) == Some(p)
    ensures p != "" && !Blank(p[0]) && !HasControl(p) && '\\' !in p
    ensures !("/" <= p) && !HasSuffix(p, "/") && (forall n :: n in P.Split(p) ==> PathPart(n))
    ensures provider == GitHub ==> |P.Split(p)| == 2
  {
    var t := TrimSpace(v);
    LeftTrimmed(v);
    assert t[0] == TrimLeft(v)[0];
    assert p <= t && p == t[..|p|];
    forall c | c in p ensures c in t { var i :| 0 <= i < |p| && p[i] == c; assert t[i] == c; }
    assert p == "" ==> "" in P.Split(p);
  }

  /** Every path the normalizer gives comes back when its suffix is appended. */
  lemma PathWithSuffix(provider: Provider, v: string, p: string)
    requires NormalizeFullPath(provider, v) == Some(p)
    ensures NormalizeFullPath(provider, p + ".git") == Some(p)
  {
    NormalPath(provider, v, p);
    var q := p + ".git";
    assert q[|q| - 1] == 't' && q[0] == p[0];
    TrimSolidEnds(q);
    SuffixStripped(p);
    NoControlWithSuffix(p);
  }

  lemma SuffixStripped(p: string)
    ensures StripGit(p + ".git") == p
  {
    var q := p + ".git";
    assert q[|q| - 4..] == ".git" && q[..|q| - 4] == p;
  }

  lemma NoControlWithSuffix(p: string)
    requires !HasControl(p) && '\\' !in p
    ensures !HasControl(p + ".git") && '\\' !in p + ".git"
  {
    forall c | c in p + ".git" ensures !Control(c) && c != '\\' { assert c in p || c in ".git"; }
  }

  lemma SplitStart(s: string)
    ensures "/" <= s ==> P.Split(s)[0] == ""
  {
  }

  /** Text whose parts after the first are not empty has no double slash. */
  lemma {:induction false} NoDoubleSlash(s: string)
    requires forall n :: n in P.Split(s)[1..] ==> n != ""
    ensures !Contains(s, "//")
  {
    if s != "" {
      var rest := P.Split(s[1..]);
      assert P.Split(s)[1..] == if s[0] == '/' then rest else rest[1..];
      if s[0] == '/' {
        assert rest[0] in P.Split(s)[1..];
        SplitStart(s[1..]);
      }
      forall n | n in rest[1..] ensures n != "" { assert n in P.Split(s)[1..]; }
      NoDoubleSlash(s[1..]);
    }
  }

  lemma {:induction false} SlashlessBefore(a: string, s: string)
    requires '/' !in a && !Contains(s, "//")
    ensures !Contains(a + s, "//")
    decreases |a|
  {
    if a == "" {
      assert a + s == s;
    } else {
      assert a[0] in a && (a + s)[0] == a[0];
      assert (a + s)[1..] == a[1..] + s;
      SlashlessBefore(a[1..], s);
    }
  }

  lemma {:induction false} SlashlessAfter(s: string, a: string)
    requires '/' !in a && !Contains(s, "//")
    ensures !Contains(s + a, "//")
    decreases |s|
  {
    if s == "" {
      assert s + a == a;
      SlashlessIs(a);
    } else {
      assert (s + a)[1..] == s[1..] + a;
      SlashlessAfter(s[1..], a);
      if |s| == 1 && a != "" { assert (s + a)[1] == a[0] && a[0] in a; }
    }
  }

  lemma {:induction false} SlashlessIs(a: string)
    requires '/' !in a
    ensures !Contains(a, "//")
  {
    if a != "" { assert a[0] in a; SlashlessIs(a[1..]); }
  }

  lemma {:induction false} SchemeMark(s: string)
    ensures Contains(s, "://") ==> Contains(s, "//")
  {
    if s != "" {
      SchemeMark(s[1..]);
      if "://" <= s { assert s[1..][..2] == s[1..3] == "//"; assert "//" <= s[1..]; }
    }
  }

  lemma {:induction false} ContainsAt(s: string, i: nat, sub: string)
    requires i <= |s| && sub <= s[i..]
    ensures Contains(s, sub)
    decreases i
  {
    if i > 0 {
      assert s[1..][i - 1..] == s[i..];
      ContainsAt(s[1..], i - 1, sub);
    } else {
      assert s[0..] == s;
    }
  }

  lemma {:induction false} CutAt(a: string, c: char, b: string)
    requires c !in a
    ensures Cut(a + [c] + b, c) == Some((a, b))
  {
    if a != "" {
      assert a[0] in a;
      assert (a + [c] + b)[1..] == a[1..] + [c] + b;
      CutAt(a[1..], c, b);
      assert [a[0]] + a[1..] == a;
    }
  }

  lemma {:induction false} SchemeOf(pre: string, rest: string, i: nat)
    requires (forall c :: c in pre ==> IsLetter(c)) && i <= |pre|
    ensures SchemeEnd(pre + ":" + rest, i) == Some(|pre|)
    decreases |pre| - i
  {
    if i < |pre| {
      assert (pre + ":" + rest)[i] == pre[i] && pre[i] in pre;
      SchemeOf(pre, rest, i + 1);
    } else {
      assert (pre + ":" + rest)[i] == ':';
    }
  }

  lemma {:induction false} LowerLength(s: string)
    ensures |ToLower(s)| == |s|
  {
    if s != "" { LowerLength(s[1..]); }
  }

  /** A normal host is trimmed, in lower case and free of what its refusal names. */
  lemma NormalHost(h: string, protocol: Protocol)
    requires NormalizeHost(h, protocol) == Some(h)
    ensures !HasControl(h) && '/' !in h && '@' !in h && ' ' !in h
  {
    if h != "" {
      TrimShorter(h);
      LowerLength(TrimSpace(h));
      var v := ToLower(TrimSpace(h));
      assert |v| <= |h|;
      match Cut(v, ':')
      case None => assert v == h;
      case Some((x, port)) =>
        assert |x| < |v|;
        assert v == h;
    }
  }

  /** Splitting "scheme://authority/path" as the standard library does. */
  lemma UrlSplit(scheme: string, authority: string, q: string)
    requires scheme == "https" || scheme == "ssh"
    requires '/' !in authority
    ensures ParseUrl(scheme + ":" + ("//" + authority + "/" + q)) ==
            match ParseAuthority(authority)
            case None => None
            case Some((user, host)) => Some(Url(scheme, user, host, "/" + q))
  {
    var rest := "//" + authority + "/" + q;
    var raw := scheme + ":" + rest;
    SchemeFound(scheme, rest);
    assert rest[2..] == authority + ['/'] + q;
    CutAt(authority, '/', q);
    assert "//" <= rest;
  }

  lemma SchemeFound(scheme: string, rest: string)
    requires scheme == "https" || scheme == "ssh"
    ensures var raw := scheme + ":" + rest;
            && SchemeEnd(raw, 0) == Some(|scheme|) && raw[0] != ':' && scheme != ""
            && raw[..|scheme|] == scheme && raw[|scheme| + 1..] == rest && ToLower(scheme) == scheme
  {
    assert scheme[0] == 'h' || scheme[0] == 's';
    SchemeLetters(scheme);
    SchemeOf(scheme, rest, 0);
    LowerScheme(scheme);
  }

  lemma SchemeLetters(scheme: string)
    requires scheme == "https" || scheme == "ssh"
    ensures forall c :: c in scheme ==> IsLetter(c)
  {
  }

  lemma LowerScheme(scheme: string)
    requires scheme == "https" || scheme == "ssh"
    ensures ToLower(scheme) == scheme
  {
    assert ToLower("ssh") == "ssh" by { assert ToLower("sh") == "sh" by { assert ToLower("h") == "h"; } }
    assert ToLower("https") == "https" by {
      assert ToLower("ttps") == "ttps" by { assert ToLower("tps") == "tps" by { assert ToLower("ps") == "ps" by { assert ToLower("s") == "s"; } } }
    }
  }

  /** What a printed identity contains. */
  lemma PrintedText(raw: string, before: string, h: string, mid: string, p: string)
    requires raw == before + h + mid + p + ".git"
    requires before != "" && !Blank(before[0]) && !HasControl(before) && !HasControl(mid) && !Escapes(before) && !Escapes(mid)
    requires !HasControl(h) && !HasControl(p) && !Escapes(h) && !Escapes(p)
    ensures TrimSpace(raw) == raw && raw != "" && raw[0] == before[0] && !HasControl(raw) && !Escapes(raw)
  {
    assert raw[0] == before[0] && raw[|raw| - 1] == 't';
    TrimSolidEnds(raw);
    forall c | c in raw ensures !Control(c) && c !in {'%', '?', '#', '[', ']'} {
      assert c in before || c in h || c in mid || c in p || c in ".git";
    }
  }

  predicate Readable(raw: string) {
    TrimSpace(raw) == raw && raw != "" && !HasControl(raw) && !Escapes(raw) && !("/" <= raw)
  }

  lemma ParsesScp(provider: Provider, raw: string, h: string, q: string)
    requires Readable(raw) && !Contains(raw, "://") && raw == "git@" + h + ":" + q && ':' !in h
    ensures ParseCloneURL(provider, raw) == FromHostPath(provider, h, q, Ssh)
  {
    assert raw[|"git@" + h|] == ':';
    assert raw[4..] == h + [':'] + q;
    CutAt(h, ':', q);
  }

  lemma UrlGives(provider: Provider, protocol: Protocol, host: string, q: string)
    ensures var u := Url(Scheme(protocol), User(protocol), host, "/" + q);
            FromUrl(provider, u) == FromHostPath(provider, host, q, protocol) && !Disallowed(u) && u.scheme != ""
  {
    assert ("/" + q)[1..] == q;
    assert "https" != "file" && "ssh" != "file" && "ssh" != "https";
  }

  lemma ParsesUrl(provider: Provider, raw: string, protocol: Protocol, host: string, q: string)
    requires Readable(raw) && Contains(raw, "://") && !("git@" <= raw)
    requires ParseUrl(raw) == Some(Url(Scheme(protocol), User(protocol), host, "/" + q))
    ensures ParseCloneURL(provider, raw) == FromHostPath(provider, host, q, protocol)
  {
    UrlGives(provider, protocol, host, q);
  }

  lemma RefusesUrl(provider: Provider, raw: string)
    requires Readable(raw) && Contains(raw, "://") && !("git@" <= raw) && ParseUrl(raw) == None
    ensures ParseCloneURL(provider, raw) == Rejected
  {
  }

  lemma FromNormal(id: Identity)
    requires Normal(id)
    ensures FromHostPath(id.provider, id.host, id.path + ".git", id.protocol) == Parsed(id, TransportURL(id))
  {
  }

  lemma ScpText(id: Identity)
    requires Normal(id) && id.protocol == Ssh && ':' !in id.host
    ensures var raw := TransportURL(id);
            Readable(raw) && !Contains(raw, "://") && raw == "git@" + id.host + ":" + (id.path + ".git")
  {
    NormalHost(id.host, Ssh);
    NormalPath(id.provider, id.path + ".git", id.path);
    FrontClean(Ssh);
    PrintedText(TransportURL(id), "git@", id.host, ":", id.path);
    forall n | n in P.Split(id.path)[1..] ensures n != "" { assert n in P.Split(id.path); }
    NoDoubleSlash(id.path);
    ScpHasNoMark(id.host, id.path);
    assert TransportURL(id) == "git@" + id.host + ":" + (id.path + ".git");
  }

  lemma ScpHasNoMark(h: string, p: string)
    requires '/' !in h && !Contains(p, "//")
    ensures !Contains("git@" + h + ":" + (p + ".git"), "://")
  {
    SlashlessAfter(p, ".git");
    var front := "git@" + h + ":";
    forall c | c in front ensures c != '/' { assert c in "git@" || c in h || c == ':'; }
    SlashlessBefore(front, p + ".git");
    SchemeMark(front + (p + ".git"));
  }

  lemma ScpRoundTrip(id: Identity)
    requires Normal(id) && id.protocol == Ssh && ':' !in id.host
    ensures ParseCloneURL(id.provider, TransportURL(id)) == Parsed(id, TransportURL(id))
  {
    ScpText(id);
    ParsesScp(id.provider, TransportURL(id), id.host, id.path + ".git");
    FromNormal(id);
  }

  function Scheme(protocol: Protocol): string { if protocol == Https then "https" else "ssh" }

  function User(protocol: Protocol): Option<string> { if protocol == Https then None else Some("git") }

  function Front(protocol: Protocol): string { if protocol == Https then "https://" else "ssh://git@" }

  /** The text of a URL identity. */
  lemma UrlText(id: Identity)
    requires Normal(id) && (id.protocol == Https || ':' in id.host)
    ensures TransportURL(id) == Front(id.protocol) + id.host + "/" + id.path + ".git"
    ensures Readable(TransportURL(id)) && Contains(TransportURL(id), "://") && !("git@" <= TransportURL(id))
  {
    NormalHost(id.host, id.protocol);
    NormalPath(id.provider, id.path + ".git", id.path);
    FrontText(id.protocol, id.host, id.path);
  }

  lemma FrontText(protocol: Protocol, h: string, p: string)
    requires !HasControl(h) && !HasControl(p) && !Escapes(h) && !Escapes(p)
    ensures var raw := Front(protocol) + h + "/" + p + ".git";
            Readable(raw) && Contains(raw, "://") && !("git@" <= raw)
  {
    var raw := Front(protocol) + h + "/" + p + ".git";
    var i := if protocol == Https then 5 else 3;
    assert raw[i..i + 3] == Front(protocol)[i..i + 3] == "://";
    assert "://" <= raw[i..];
    ContainsAt(raw, i, "://");
    FrontClean(protocol);
    PrintedText(raw, Front(protocol), h, "/", p);
  }

  lemma FrontClean(protocol: Protocol)
    ensures !Blank(Front(protocol)[0]) && !HasControl(Front(protocol)) && !Escapes(Front(protocol))
    ensures Front(protocol)[0] == 'h' || Front(protocol)[0] == 's'
    ensures !HasControl("/") && !Escapes("/")
  {
  }

  /** How the standard library splits such a text. */
  lemma FrontSplit(protocol: Protocol, h: string, q: string)
    requires '/' !in h && '@' !in h
    ensures ParseUrl(Front(protocol) + h + "/" + q) ==
            if UrlHost(h) then Some(Url(Scheme(protocol), User(protocol), h, "/" + q)) else None
  {
    var authority := Authority(protocol, h);
    assert Front(protocol) + h + "/" + q == Scheme(protocol) + ":" + ("//" + authority + "/" + q);
    AuthoritySplit(protocol, h);
    UrlSplit(Scheme(protocol), authority, q);
  }

  function Authority(protocol: Protocol, h: string): string { if protocol == Https then h else "git" + ['@'] + h }

  lemma AuthoritySplit(protocol: Protocol, h: string)
    requires '/' !in h && '@' !in h
    ensures '/' !in Authority(protocol, h)
    ensures ParseAuthority(Authority(protocol, h)) == if UrlHost(h) then Some((User(protocol), h)) else None
  {
    if protocol == Ssh {
      CutAt("git", '@', h);
      forall c | c in "git" + ['@'] + h ensures c != '/' { assert c in "git" || c == '@' || c in h; }
    }
  }

  lemma UrlRoundTrip(id: Identity)
    requires Normal(id) && (id.protocol == Https || ':' in id.host)
    ensures UrlHost(id.host) ==> ParseCloneURL(id.provider, TransportURL(id)) == Parsed(id, TransportURL(id))
    ensures !UrlHost(id.host) ==> ParseCloneURL(id.provider, TransportURL(id)) == Rejected
  {
    var raw, q := TransportURL(id), id.path + ".git";
    UrlText(id);
    NormalHost(id.host, id.protocol);
    assert raw == Front(id.protocol) + id.host + "/" + q;
    FrontSplit(id.protocol, id.host, q);
    FromNormal(id);
    if UrlHost(id.host) { ParsesUrl(id.provider, raw, id.protocol, id.host, q); } else { RefusesUrl(id.provider, raw); }
  }

  /**
   Printing and parsing give the identity back exactly when it is printed in the
   scp form or its host is one the standard library accepts in a URL; every other
   normal identity is refused by the parser.
   */
  lemma RoundTripIff(id: Identity)
    requires Normal(id)
    ensures ParseCloneURL(id.provider, TransportURL(id)) == Parsed(id, TransportURL(id)) <==>
            (id.protocol == Ssh && ':' !in id.host) || UrlHost(id.host)
  {
    if id.protocol == Ssh && ':' !in id.host { ScpRoundTrip(id); } else { UrlRoundTrip(id); }
  }

  // ------------------------------------------- what the parser gives is normal

  /** No escape character is in the text. */
  lemma NoEscapes(x: string, y: string)
    requires !Escapes(y) && forall c :: c in x ==> c in y || 'a' <= c <= 'z'
    ensures !Escapes(x)
  {
  }

  lemma {:induction false} TrimLeftChars(s: string)
    ensures forall c :: c in TrimLeft(s) ==> c in s
  {
    if s != "" && Blank(s[0]) {
      TrimLeftChars(s[1..]);
      forall c | c in s[1..] ensures c in s {}
    }
  }

  lemma TrimChars(s: string)
    ensures forall c :: c in TrimSpace(s) ==> c in s
  {
    TrimLeftChars(s);
    var t := TrimSpace(s);
    forall c | c in t ensures c in TrimLeft(s) { var i :| 0 <= i < |t| && t[i] == c; assert TrimLeft(s)[i] == c; }
  }

  lemma {:induction false} LowerChars(s: string)
    ensures forall c :: c in ToLower(s) ==> c in s || 'a' <= c <= 'z'
    ensures forall c :: c in ToLower(s) ==> !('A' <= c <= 'Z')
  {
    if s != "" { LowerChars(s[1..]); }
  }

  lemma {:induction false} LowerAgain(s: string)
    requires forall c :: c in s ==> !('A' <= c <= 'Z')
    ensures ToLower(s) == s
  {
    if s != "" {
      assert s[0] in s;
      forall c | c in s[1..] ensures c in s {}
      LowerAgain(s[1..]);
    }
  }

  /** A host of visible lower-case text that the rules let pass is its own normal form. */
  lemma HostFixed(h: string, protocol: Protocol)
    requires !HasControl(h) && '/' !in h && '@' !in h && ' ' !in h && forall c :: c in h ==> !('A' <= c <= 'Z')
    requires h != "" ==> match Cut(h, ':')
                         case None => !BadHost(h)
                         case Some((x, port)) => ':' !in port && x != "" && port != "" && !BadHost(x) && !DefaultPort(protocol, port)
    ensures NormalizeHost(h, protocol) == Some(h)
  {
    if h != "" {
      assert h[0] in h && h[|h| - 1] in h;
      assert !Blank(h[0]) && !Blank(h[|h| - 1]);
      TrimSolidEnds(h);
      LowerAgain(h);
    }
  }

  /** Every host the normalizer gives is a fixed point of it, and made of the characters of its input. */
  lemma HostOutput(value: string, protocol: Protocol, h: string)
    requires NormalizeHost(value, protocol) == Some(h)
    ensures NormalizeHost(h, protocol) == Some(h)
    ensures !Escapes(value) ==> !Escapes(h)
  {
    var v := ToLower(TrimSpace(value));
    TrimChars(value);
    LowerChars(TrimSpace(value));
    if v != "" {
      assert forall c :: c in h ==> c in v;
      assert Cut(v, ':').Some? && h != v ==> Cut(h, ':').None?;
      HostFixed(h, protocol);
    }
    if !Escapes(value) { NoEscapes(h, value); }
  }

  lemma PathOutput(provider: Provider, v: string, p: string)
    requires NormalizeFullPath(provider, v) == Some(p)
    ensures !Escapes(v) ==> !Escapes(p)
  {
    var t := TrimSpace(v);
    TrimChars(v);
    forall c | c in p ensures c in v { var i :| 0 <= i < |p| && p[i] == c; assert t[i] == c; }
    if !Escapes(v) { NoEscapes(p, v); }
  }

  /** The identity is that of a local path, which is not printed as a URL. */
  predicate LocalPath(id: Identity) { id.provider == Generic && id.host == "local" && id.protocol == Https }

  lemma FromHostPathNormal(provider: Provider, host: string, rawPath: string, protocol: Protocol)
    requires !Escapes(host) && !Escapes(rawPath) && FromHostPath(provider, host, rawPath, protocol).Parsed?
    ensures var r := FromHostPath(provider, host, rawPath, protocol);
            r.cloneUrl == TransportURL(r.identity) && (Normal(r.identity) || LocalPath(r.identity)) && r.identity.provider == provider
  {
    var h, p := NormalizeHost(host, protocol).value, NormalizeFullPath(provider, rawPath).value;
    HostOutput(host, protocol, h);
    PathOutput(provider, rawPath, p);
    PathWithSuffix(provider, rawPath, p);
  }

  lemma PartEscapes(raw: string, c: char)
    requires !Escapes(raw)
    ensures Cut(raw, c).Some? ==> !Escapes(Cut(raw, c).value.0) && !Escapes(Cut(raw, c).value.1)
    ensures forall i :: 0 <= i <= |raw| ==> !Escapes(raw[i..])
  {
    if Cut(raw, c).Some? {
      var (a, b) := Cut(raw, c).value;
      forall x | x in a || x in b ensures x in raw {}
    }
    forall i | 0 <= i <= |raw| ensures !Escapes(raw[i..]) { assert forall x :: x in raw[i..] ==> x in raw; }
  }

  lemma UrlParts(raw: string)
    requires !Escapes(raw) && ParseUrl(raw).Some?
    ensures !Escapes(ParseUrl(raw).value.host) && !Escapes(TrimSlash(ParseUrl(raw).value.path))
  {
    var end := SchemeEnd(raw, 0);
    var scheme := if end.Some? then ToLower(raw[..end.value]) else "";
    var rest := if end.Some? then raw[end.value + 1..] else raw;
    PartEscapes(raw, '/');
    assert rest == raw[|raw| - |rest|..];
    RestParts(scheme, rest);
  }

  lemma RestParts(scheme: string, rest: string)
    requires !Escapes(rest) && ParseRest(scheme, rest).Some?
    ensures !Escapes(ParseRest(scheme, rest).value.host) && !Escapes(TrimSlash(ParseRest(scheme, rest).value.path))
  {
    PartEscapes(rest, '/');
    if "//" <= rest {
      var after := rest[2..];
      PartEscapes(after, '/');
      PathEscapes(after);
      var authority := match Cut(after, '/') case None => after case Some((a, _)) => a;
      PartEscapes(authority, '@');
    }
    assert TrimSlash(rest) == rest || TrimSlash(rest) == rest[1..];
  }

  lemma PathEscapes(after: string)
    requires !Escapes(after)
    ensures match Cut(after, '/') case None => true case Some((_, b)) => !Escapes(TrimSlash("/" + b))
  {
    PartEscapes(after, '/');
    match Cut(after, '/')
    case None =>
    case Some((_, b)) => assert ("/" + b)[1..] == b;
  }

  /** Every parsed identity comes from a host and a path cut out of the text. */
  lemma ParsedFrom(provider: Provider, text: string) returns (host: string, path: string, protocol: Protocol)
    requires ParseCloneURL(provider, text).Parsed?
    ensures !Escapes(host) && !Escapes(path) && ParseCloneURL(provider, text) == FromHostPath(provider, host, path, protocol)
  {
    var raw := TrimSpace(text);
    var u := ParseUrl(raw);
    if "git@" <= raw && ':' in raw && !Contains(raw, "://") {
      PartEscapes(raw, ':');
      PartEscapes(raw[4..], ':');
      host, path, protocol := Cut(raw[4..], ':').value.0, Cut(raw[4..], ':').value.1, Ssh;
    } else if u.None? || u.value.scheme == "" {
      PartEscapes(raw, '/');
      host, path, protocol := Cut(raw, '/').value.0, Cut(raw, '/').value.1, Https;
    } else {
      UrlParts(raw);
      host, path, protocol := u.value.host, TrimSlash(u.value.path), if u.value.scheme == "https" then Https else Ssh;
    }
  }

  /** What the parser gives is normal, unless it is a local path; and it hands back its printed form. */
  lemma ParsedIsNormal(provider: Provider, text: string)
    requires ParseCloneURL(provider, text).Parsed?
    ensures var r := ParseCloneURL(provider, text);
            r.cloneUrl == TransportURL(r.identity) && (Normal(r.identity) || LocalPath(r.identity)) && r.identity.provider == provider
  {
    var host, path, protocol := ParsedFrom(provider, text);
    FromHostPathNormal(provider, host, path, protocol);
  }

  /** Parsing what the parser printed gives the same, exactly under the condition of the round trip. */
  lemma ReparseIff(provider: Provider, text: string)
    requires ParseCloneURL(provider, text).Parsed? && !LocalPath(ParseCloneURL(provider, text).identity)
    ensures var r := ParseCloneURL(provider, text);
            ParseCloneURL(provider, r.cloneUrl) == r <==>
            (r.identity.protocol == Ssh && ':' !in r.identity.host) || UrlHost(r.identity.host)
  {
    ParsedIsNormal(provider, text);
    RoundTripIff(ParseCloneURL(provider, text).identity);
  }

  lemma RefusedHost(id: Identity)
    requires NormalizeHost(id.host, Https) == Some(id.host) && NormalizeFullPath(id.provider, id.path + ".git") == Some(id.path)
    requires !Escapes(id.host) && !Escapes(id.path) && id.provider == GitHub && id.protocol == Https && !UrlHost(id.host)
    ensures Normal(id) && ParseCloneURL(id.provider, TransportURL(id)) == Rejected
  {
    UrlRoundTrip(id);
  }

  /** An accepted host with a port that is not a number: the URL of its identity is refused by the parser. */
  lemma NamedPortIsLost()
    ensures var id := Identity(GitHub, "h:p", "a/b", Https);
            Normal(id) && ParseCloneURL(GitHub, TransportURL(id)) == Rejected
  {
    NamedPort();
    NamedPath();
    NamedEscapes();
    RefusedHost(Identity(GitHub, "h:p", "a/b", Https));
  }

  lemma NamedEscapes()
    ensures !Escapes("h:p") && !Escapes("a/b")
  {
  }

  lemma NamedPort()
    ensures NormalizeHost("h:p", Https) == Some("h:p") && !UrlHost("h:p")
  {
    LowerNamed();
    NamedParts();
    NamedHost();
  }

  lemma NamedPath()
    ensures NormalizeFullPath(GitHub, "a/b" + ".git") == Some("a/b")
  {
    TrimSolidEnds("a/b");
    P.SplitName("b", "");
    P.SplitName("a", "b");
    assert "a" + "/" + "b" == "a/b" && P.Split("a/b") == ["a", "b"];
    assert forall n :: n in P.Split("a/b") ==> n == "a" || n == "b";
    PathWithSuffix(GitHub, "a/b", "a/b");
  }

  lemma NamedParts()
    ensures Cut("h:p", ':') == Some(("h", "p")) && !AllDigits("p") && ':' !in "p"
  {
    assert "h:p" == "h" + [':'] + "p";
    CutAt("h", ':', "p");
    assert 'p' in "p" && !IsDigit('p');
  }

  lemma NamedHost()
    requires ToLower(TrimSpace("h:p")) == "h:p" && Cut("h:p", ':') == Some(("h", "p")) && ':' !in "p"
    ensures NormalizeHost("h:p", Https) == Some("h:p")
  {
    NamedChars();
    NormalizesPort("h:p", "h", "p", Https);
  }

  lemma NamedChars()
    ensures !HasControl("h:p") && '/' !in "h:p" && '@' !in "h:p" && ' ' !in "h:p"
    ensures !BadHost("h") && !DefaultPort(Https, "p")
  {
    forall c | c in "h:p" ensures !Control(c) && c != '/' && c != '@' && c != ' ' { assert c == 'h' || c == ':' || c == 'p'; }
  }

  lemma NormalizesPort(v: string, h: string, port: string, protocol: Protocol)
    requires v != "" && ToLower(TrimSpace(v)) == v && !HasControl(v) && '/' !in v && '@' !in v && ' ' !in v
    requires Cut(v, ':') == Some((h, port)) && ':' !in port && h != "" && port != "" && !BadHost(h) && !DefaultPort(protocol, port)
    ensures NormalizeHost(v, protocol) == Some(v)
  {
  }

  lemma LowerNamed()
    ensures ToLower(TrimSpace("h:p")) == "h:p"
  {
    TrimSolidEnds("h:p");
    assert ToLower("p") == "p";
    assert "h:p"[1..] == ":p" && ":p"[1..] == "p";
    assert ToLower(":p") == ":p";
  }
}
