/**
 What the clone URL parser makes of every form of text: scp-like, URL, scheme
 without an authority, bare host and path, and everything else.
 */
module CloneForms {
  import opened Common
  import opened Text
  import opened CloneUrl
  import P = Paths

  /** The parser looks at raw itself: trimmed, visible, without escapes, and not a local path. */
  predicate Plain(provider: Provider, text: string, raw: string) {
    raw == TrimSpace(text) && raw != "" && !HasControl(raw) && !Escapes(raw) && !(provider == Generic && raw[0] == '/')
  }

  /** The identity of exactly this host, path and protocol, in normal form; or refused. */
  ghost predicate Reads(r: ParseResult, provider: Provider, host: string, path: string, protocol: Protocol) {
    match (NormalizeHost(host, protocol), NormalizeFullPath(provider, path))
    case (Some(h), Some(p)) => r == Parsed(Identity(provider, h, p, protocol), TransportURL(Identity(provider, h, p, protocol)))
    case _ => r == Rejected
  }

  /** A letter, then letters, digits, '+', '-' and '.'. */
  ghost predicate IsScheme(s: string) {
    && s != "" && IsLetter(s[0])
    && forall k :: 0 < k < |s| ==> IsLetter(s[k]) || IsDigit(s[k]) || s[k] == '+' || s[k] == '-' || s[k] == '.'
  }

  ghost predicate HasScheme(raw: string) { exists n :: 0 < n < |raw| && raw[n] == ':' && IsScheme(raw[..n]) }

  predicate ScpLike(raw: string) { "git@" <= raw && ':' in raw && !Contains(raw, "://") }

  // --------------------------------------------------------------- the scheme

  lemma {:induction false} SchemeUpTo(s: string, i: nat, n: nat)
    requires i <= n < |s| && s[n] == ':' && IsScheme(s[..n])
    ensures SchemeEnd(s, i) == Some(n)
    decreases n - i
  {
    if i < n {
      assert s[..n][i] == s[i] && s[..n][0] == s[0];
      SchemeUpTo(s, i + 1, n);
    }
  }

  lemma {:induction false} SchemeBefore(s: string, i: nat)
    requires i <= |s| && (i > 0 ==> IsScheme(s[..i]))
    ensures SchemeEnd(s, i).Some? && SchemeEnd(s, i).value > 0 ==> IsScheme(s[..SchemeEnd(s, i).value])
    decreases |s| - i
  {
    if i < |s| && (IsLetter(s[i]) || (i > 0 && (IsDigit(s[i]) || s[i] in {'+', '-', '.'}))) {
      assert forall k :: 0 <= k <= i ==> s[..i + 1][k] == if k < i then s[..i][k] else s[i];
      SchemeBefore(s, i + 1);
    }
  }

  lemma LowerNonempty(s: string)
    ensures s != "" <==> ToLower(s) != ""
  {
    LowerLength(s);
  }

  lemma WithScheme(s: string, rest: string)
    requires IsScheme(s)
    ensures ParseUrl(s + ":" + rest) == ParseRest(ToLower(s), rest) && ToLower(s) != ""
    ensures !("git@" <= s + ":" + rest) && HasScheme(s + ":" + rest)
  {
    var raw := s + ":" + rest;
    assert raw[..|s|] == s && raw[|s|] == ':' && raw[|s| + 1..] == rest && raw[0] == s[0];
    SchemeUpTo(raw, 0, |s|);
    LowerNonempty(s);
    if |s| > 3 { assert raw[3] == s[3]; } else { assert raw[|s|] != "git@"[|s|]; }
  }

  lemma WithoutScheme(raw: string)
    requires raw != "" && !HasScheme(raw)
    ensures ParseUrl(raw).None? || ParseUrl(raw).value.scheme == ""
  {
    SchemeBefore(raw, 0);
  }

  lemma GitAt(raw: string)
    ensures "git@" <= raw ==> '@' in raw
  {
    if "git@" <= raw { assert raw[3] == '@'; }
  }

  // ------------------------------------------------------------------- the forms

  /** "git@" host ":" path. */
  lemma ScpForm(provider: Provider, text: string, h: string, p: string)
    requires Plain(provider, text, "git@" + h + ":" + p) && ':' !in h && !Contains("git@" + h + ":" + p, "://")
    ensures Reads(ParseCloneURL(provider, text), provider, h, p, Ssh)
  {
    var raw := "git@" + h + ":" + p;
    assert raw[|"git@" + h|] == ':';
    assert raw[4..] == h + [':'] + p;
    CutAt(h, ':', p);
  }

  /** host "/" path, with no scheme before it. */
  lemma BareForm(provider: Provider, text: string, h: string, p: string)
    requires Plain(provider, text, h + "/" + p) && '/' !in h && '@' !in h && '@' !in p
    requires !Contains(h + "/" + p, "://") && !HasScheme(h + "/" + p)
    ensures Reads(ParseCloneURL(provider, text), provider, h, p, Https)
  {
    var raw := h + "/" + p;
    WithoutScheme(raw);
    assert raw == h + ['/'] + p && raw[|h|] == '/' && '@' !in raw;
    CutAt(h, '/', p);
    GitAt(raw);
  }

  /** What a URL with an accepted authority gives, by its scheme. */
  ghost predicate BySchemeAs(r: ParseResult, provider: Provider, scheme: string, host: string, path: string) {
    if scheme == "https" then Reads(r, provider, host, path, Https)
    else if scheme == "ssh" then Reads(r, provider, host, path, Ssh)
    else r == if scheme == "file" && provider == Generic then SetApart else Rejected
  }

  /** The path without its leading slash. */
  function AfterSlash(tail: string): string { if tail != "" && tail[0] == '/' then tail[1..] else tail }

  /** The part of a URL before its host. */
  function UserPart(user: Option<string>): string { if user.None? then "" else user.value + "@" }

  /** scheme "://" host path, with or without user information; the tail is empty or starts with a slash. */
  lemma UrlForm(provider: Provider, text: string, s: string, user: Option<string>, h: string, tail: string)
    requires Plain(provider, text, s + "://" + UserPart(user) + h + tail) && IsScheme(s)
    requires '/' !in UserPart(user) && '/' !in h && (tail == "" || tail[0] == '/')
    requires if user.Some? then '@' !in user.value else '@' !in h
    ensures var r := ParseCloneURL(provider, text);
            if UrlHost(h) && (user == None || (user == Some("git") && ToLower(s) == "ssh")) then BySchemeAs(r, provider, ToLower(s), h, AfterSlash(tail))
            else r == Rejected
  {
    var raw := s + "://" + UserPart(user) + h + tail;
    var u := Url(ToLower(s), user, h, tail);
    UrlSplits(s, user, h, tail);
    UrlOrNone(provider, text, raw, if UrlHost(h) then Some(u) else None);
    if user == None || (user == Some("git") && ToLower(s) == "ssh") { SchemeGives(provider, u); }
  }

  lemma UrlSplits(s: string, user: Option<string>, h: string, tail: string)
    requires IsScheme(s) && '/' !in UserPart(user) && '/' !in h && (tail == "" || tail[0] == '/')
    requires if user.Some? then '@' !in user.value else '@' !in h
    ensures var raw := s + "://" + UserPart(user) + h + tail;
            Contains(raw, "://") && ParseUrl(raw) == (if UrlHost(h) then Some(Url(ToLower(s), user, h, tail)) else None)
    ensures ToLower(s) != ""
  {
    var raw, rest := s + "://" + UserPart(user) + h + tail, "//" + (UserPart(user) + h) + tail;
    assert raw == s + ":" + rest;
    WithScheme(s, rest);
    RestSplits(ToLower(s), user, h, tail);
    assert "://" <= raw[|s|..];
    ContainsAt(raw, |s|, "://");
  }

  lemma UrlOrNone(provider: Provider, text: string, raw: string, u: Option<Url>)
    requires Plain(provider, text, raw) && ParseUrl(raw) == u && Contains(raw, "://") && (u.Some? ==> u.value.scheme != "")
    ensures ParseCloneURL(provider, text) == if u.None? then Rejected else FromUrl(provider, u.value)
  {
  }

  lemma RestSplits(scheme: string, user: Option<string>, h: string, tail: string)
    requires scheme != "" && '/' !in UserPart(user) && '/' !in h && (tail == "" || tail[0] == '/')
    requires if user.Some? then '@' !in user.value else '@' !in h
    ensures ParseRest(scheme, "//" + (UserPart(user) + h) + tail) == if UrlHost(h) then Some(Url(scheme, user, h, tail)) else None
  {
    var authority := UserPart(user) + h;
    var rest := "//" + authority + tail;
    assert rest[2..] == authority + tail;
    if tail == "" {
      assert authority + tail == authority;
    } else {
      assert authority + tail == authority + ['/'] + tail[1..] && "/" + tail[1..] == tail;
      CutAt(authority, '/', tail[1..]);
    }
    if user.Some? {
      assert authority == user.value + ['@'] + h;
      CutAt(user.value, '@', h);
    } else {
      assert authority == h;
    }
  }

  lemma SchemeGives(provider: Provider, u: Url)
    requires u.user == None || (u.user == Some("git") && u.scheme == "ssh")
    ensures BySchemeAs(FromUrl(provider, u), provider, u.scheme, u.host, AfterSlash(u.path))
  {
    assert "https" != "file" && "ssh" != "file" && "ssh" != "https";
    assert TrimSlash(u.path) == AfterSlash(u.path);
  }

  /** scheme ":" without an authority: the host is empty, and so is the path unless it starts with a slash. */
  lemma HostlessForm(provider: Provider, text: string, s: string, rest: string)
    requires Plain(provider, text, s + ":" + rest) && IsScheme(s) && !("//" <= rest)
    ensures BySchemeAs(ParseCloneURL(provider, text), provider, ToLower(s), "", if rest != "" && rest[0] == '/' then rest[1..] else "")
  {
    WithScheme(s, rest);
    var u := Url(ToLower(s), None, "", if rest != "" && rest[0] == '/' then rest else "");
    assert ParseRest(ToLower(s), rest) == Some(u);
    SchemeGives(provider, u);
  }

  /** No scheme, not scp-like, and no bare host and path: refused. */
  lemma OtherText(provider: Provider, text: string, raw: string)
    requires Plain(provider, text, raw) && !HasScheme(raw) && !ScpLike(raw)
    requires '/' !in raw || '@' in raw || Contains(raw, "://")
    ensures ParseCloneURL(provider, text) == Rejected
  {
    WithoutScheme(raw);
  }

  /** Blank text and control characters are refused; escapes and local paths are set apart. */
  lemma NotPlain(provider: Provider, text: string, raw: string)
    requires raw == TrimSpace(text) && !Plain(provider, text, raw)
    ensures ParseCloneURL(provider, text) == if raw == "" || HasControl(raw) then Rejected else SetApart
  {
  }

  // ------------------------------------------------------------------- together

  /** A text with a scheme is a URL with an authority or has none. */
  lemma SchemeText(raw: string) returns (s: string, rest: string)
    requires HasScheme(raw)
    ensures raw == s + ":" + rest && IsScheme(s)
  {
    var n :| 0 < n < |raw| && raw[n] == ':' && IsScheme(raw[..n]);
    s, rest := raw[..n], raw[n + 1..];
  }

  lemma OneScheme(raw: string, s: string, rest: string, s': string, rest': string)
    requires raw == s + ":" + rest == s' + ":" + rest' && IsScheme(s) && IsScheme(s')
    ensures s == s' && rest == rest'
  {
    assert raw[..|s|] == s && raw[..|s'|] == s' && raw[|s|] == ':' && raw[|s'|] == ':';
    SchemeUpTo(raw, 0, |s|);
    SchemeUpTo(raw, 0, |s'|);
    assert raw[|s| + 1..] == rest && raw[|s| + 1..] == rest';
  }

  lemma AuthorityText(after: string) returns (user: Option<string>, h: string, tail: string)
    ensures after == UserPart(user) + h + tail
    ensures '/' !in UserPart(user) && '/' !in h && (tail == "" || tail[0] == '/')
    ensures if user.Some? then '@' !in user.value else '@' !in h
  {
    var authority := after;
    tail := "";
    if '/' in after {
      var (a, b) := Cut(after, '/').value;
      authority, tail := a, "/" + b;
      assert after == a + ['/'] + b;
    }
    if '@' in authority {
      var (a, b) := Cut(authority, '@').value;
      user, h := Some(a), b;
      assert authority == a + ['@'] + b;
      assert a + ['@'] == UserPart(user);
      assert forall c :: c in a + "@" ==> c in authority;
    } else {
      user, h := None, authority;
    }
  }

  lemma ReadsProtocol(r: ParseResult, provider: Provider, host: string, path: string, scheme: string)
    requires BySchemeAs(r, provider, scheme, host, path) && r.Parsed?
    ensures scheme == if r.identity.protocol == Ssh then "ssh" else "https"
  {
  }

  /** With a scheme: every parsed identity has the protocol of the scheme. */
  lemma SchemeIsProtocol(provider: Provider, text: string, s: string, rest: string)
    requires Plain(provider, text, s + ":" + rest) && IsScheme(s)
    ensures ParseCloneURL(provider, text).Parsed? ==>
              ToLower(s) == if ParseCloneURL(provider, text).identity.protocol == Ssh then "ssh" else "https"
  {
    if "//" <= rest {
      var user, h, tail := AuthorityText(rest[2..]);
      assert s + ":" + rest == s + "://" + UserPart(user) + h + tail;
      UrlForm(provider, text, s, user, h, tail);
      if ParseCloneURL(provider, text).Parsed? { ReadsProtocol(ParseCloneURL(provider, text), provider, h, AfterSlash(tail), ToLower(s)); }
    } else {
      HostlessForm(provider, text, s, rest);
      if ParseCloneURL(provider, text).Parsed? {
        ReadsProtocol(ParseCloneURL(provider, text), provider, "", if rest != "" && rest[0] == '/' then rest[1..] else "", ToLower(s));
      }
    }
  }

  lemma ScpIsSsh(provider: Provider, text: string, raw: string)
    requires Plain(provider, text, raw) && ScpLike(raw)
    ensures ParseCloneURL(provider, text).Parsed? ==> ParseCloneURL(provider, text).identity.protocol == Ssh
  {
    assert forall i :: 0 <= i < |raw| && raw[i] == ':' ==> i >= 4 && raw[4..][i - 4] == ':';
    var (h, p) := Cut(raw[4..], ':').value;
    assert raw == "git@" + h + ":" + p;
    ScpForm(provider, text, h, p);
  }

  lemma BareIsHttps(provider: Provider, text: string, raw: string)
    requires Plain(provider, text, raw) && !ScpLike(raw) && !HasScheme(raw)
    ensures ParseCloneURL(provider, text).Parsed? ==>
              '/' in raw && '@' !in raw && !Contains(raw, "://") && ParseCloneURL(provider, text).identity.protocol == Https
  {
    if '/' !in raw || '@' in raw || Contains(raw, "://") {
      OtherText(provider, text, raw);
    } else {
      var (h, p) := Cut(raw, '/').value;
      assert raw == h + "/" + p;
      BareForm(provider, text, h, p);
    }
  }

  /** The text starts with this scheme, in any case of letters. */
  ghost predicate SchemeIs(raw: string, scheme: string) {
    exists n :: 0 < n < |raw| && raw[n] == ':' && IsScheme(raw[..n]) && ToLower(raw[..n]) == scheme
  }

  ghost predicate ProtocolAs(protocol: Protocol, raw: string) {
    && (protocol == Ssh <==> ScpLike(raw) || SchemeIs(raw, "ssh"))
    && (protocol == Https <==> SchemeIs(raw, "https") || (!HasScheme(raw) && '/' in raw && '@' !in raw && !Contains(raw, "://")))
  }

  lemma OnlyScheme(raw: string, s: string, rest: string, scheme: string)
    requires raw == s + ":" + rest && IsScheme(s)
    ensures SchemeIs(raw, scheme) <==> ToLower(s) == scheme
  {
    assert raw[..|s|] == s && raw[|s|] == ':';
    forall n | 0 < n < |raw| && raw[n] == ':' && IsScheme(raw[..n]) ensures raw[..n] == s {
      assert raw == raw[..n] + ":" + raw[n + 1..];
      OneScheme(raw, s, rest, raw[..n], raw[n + 1..]);
    }
  }

  lemma ProtocolByScheme(protocol: Protocol, raw: string, lower: string)
    requires !ScpLike(raw) && HasScheme(raw) && lower == (if protocol == Ssh then "ssh" else "https")
    requires (SchemeIs(raw, "ssh") <==> lower == "ssh") && (SchemeIs(raw, "https") <==> lower == "https")
    ensures ProtocolAs(protocol, raw)
  {
    assert "ssh"[0] != "https"[0];
  }

  lemma ProtocolWithout(protocol: Protocol, raw: string)
    requires !HasScheme(raw)
    requires if protocol == Ssh then ScpLike(raw) else !ScpLike(raw) && '/' in raw && '@' !in raw && !Contains(raw, "://")
    ensures ProtocolAs(protocol, raw)
  {
    GitAt(raw);
  }

  /**
   Which texts give which protocol: ssh exactly for the scp form and the scheme ssh, in
   any case of letters; https exactly for the scheme https and a bare host and path.
   */
  lemma ProtocolIff(provider: Provider, text: string)
    requires ParseCloneURL(provider, text).Parsed?
    ensures var raw, protocol := TrimSpace(text), ParseCloneURL(provider, text).identity.protocol;
            && (protocol == Ssh <==> ScpLike(raw) || SchemeIs(raw, "ssh"))
            && (protocol == Https <==> SchemeIs(raw, "https") || (!HasScheme(raw) && '/' in raw && '@' !in raw && !Contains(raw, "://")))
  {
    var raw := TrimSpace(text);
    assert Plain(provider, text, raw) by { if !Plain(provider, text, raw) { NotPlain(provider, text, raw); } }
    ProtocolOf(provider, text, raw, ParseCloneURL(provider, text).identity.protocol);
  }

  lemma ProtocolOf(provider: Provider, text: string, raw: string, protocol: Protocol)
    requires Plain(provider, text, raw) && ParseCloneURL(provider, text).Parsed? && ParseCloneURL(provider, text).identity.protocol == protocol
    ensures ProtocolAs(protocol, raw)
  {
    if HasScheme(raw) {
      var s, rest := SchemeText(raw);
      SchemeIsProtocol(provider, text, s, rest);
      WithScheme(s, rest);
      OnlyScheme(raw, s, rest, "ssh");
      OnlyScheme(raw, s, rest, "https");
      ProtocolByScheme(protocol, raw, ToLower(s));
    } else if ScpLike(raw) {
      ScpIsSsh(provider, text, raw);
      ProtocolWithout(protocol, raw);
    } else {
      BareIsHttps(provider, text, raw);
      ProtocolWithout(protocol, raw);
    }
  }

  // -------------------------------------------------------------- normal parts

  /** Neither ".", "-", nor text with a dot at an end. */
  predicate Solid(h: string) { h != "" && h[0] != '.' && h[|h| - 1] != '.' && h != "-" }

  /** Text that can be a host, with or without a port. */
  predicate Visible(v: string) { v != "" && !HasControl(v) && '/' !in v && '@' !in v && ' ' !in v }

  /** Which texts are hosts, and what they become: nothing, a host, or a host with a port that is dropped where it is the default. */
  lemma HostIff(value: string, protocol: Protocol, r: string)
    ensures var v := ToLower(TrimSpace(value));
            NormalizeHost(value, protocol) == Some(r) <==>
            if v == "" then r == ""
            else if ':' !in v then Visible(v) && Solid(v) && r == v
            else Visible(v) && exists h, port :: v == h + ":" + port && IsPort(protocol, v, h, port, r)
  {
    var v := ToLower(TrimSpace(value));
    if ':' in v {
      var (a, b) := Cut(v, ':').value;
      assert v == a + ":" + b;
      HostWithPort(value, protocol, a, b, r);
      OnePort(NormalizeHost(value, protocol) == Some(r), protocol, v, a, b, r);
    } else {
      HostAlone(value, protocol, r);
    }
  }

  lemma HostAlone(value: string, protocol: Protocol, r: string)
    requires ':' !in ToLower(TrimSpace(value))
    ensures var v := ToLower(TrimSpace(value));
            NormalizeHost(value, protocol) == Some(r) <==> if v == "" then r == "" else Visible(v) && Solid(v) && r == v
  {
  }

  /** The host ends at the first colon. */
  lemma OnePort(accepted: bool, protocol: Protocol, v: string, a: string, b: string, r: string)
    requires v == a + ":" + b && ':' !in a && (accepted <==> Visible(v) && IsPort(protocol, v, a, b, r))
    ensures accepted <==> Visible(v) && exists h, port :: v == h + ":" + port && IsPort(protocol, v, h, port, r)
  {
    forall h, port | v == h + ":" + port && ':' !in h ensures h == a && port == b {
      assert v == h + [':'] + port && v == a + [':'] + b;
      CutAt(h, ':', port);
      CutAt(a, ':', b);
    }
  }

  /** Host and port are accepted and become r; 443 is the default port of https, 22 that of ssh. */
  predicate IsPort(protocol: Protocol, v: string, h: string, port: string, r: string) {
    && ':' !in h && ':' !in port && Solid(h) && port != ""
    && r == if (protocol == Https && port == "443") || (protocol == Ssh && port == "22") then h else v
  }

  lemma HostWithPort(value: string, protocol: Protocol, h: string, port: string, r: string)
    requires ToLower(TrimSpace(value)) == h + ":" + port && ':' !in h
    ensures NormalizeHost(value, protocol) == Some(r) <==> Visible(h + ":" + port) && IsPort(protocol, h + ":" + port, h, port, r)
  {
    assert h + ":" + port == h + [':'] + port;
    CutAt(h, ':', port);
    PortParts(protocol, ToLower(TrimSpace(value)), h, port);
  }

  lemma PortParts(protocol: Protocol, v: string, h: string, port: string)
    requires v == h + ":" + port
    ensures v != "" && (h != "" ==> (BadHost(h) <==> !Solid(h)))
    ensures DefaultPort(protocol, port) <==> (protocol == Https && port == "443") || (protocol == Ssh && port == "22")
  {
    assert "443" != "22";
  }

  lemma {:induction false} SplitLast(s: string)
    requires s != "" && s[|s| - 1] == '/'
    ensures |P.Split(s)| >= 2 && P.Split(s)[|P.Split(s)| - 1] == ""
  {
    if |s| > 1 { SplitLast(s[1..]); } else { assert s[1..] == ""; }
  }

  lemma EmptyPart(s: string)
    requires s == "" || s[0] == '/' || s[|s| - 1] == '/'
    ensures "" in P.Split(s)
  {
    SplitStart(s);
    if s != "" && s[|s| - 1] == '/' { SplitLast(s); }
  }

  lemma StripIff(v: string, r: string)
    ensures StripGit(v) == r <==> v == r + ".git" || (v == r && !HasSuffix(r, ".git"))
  {
    SuffixStripped(r);
    assert HasSuffix(v, ".git") ==> v == v[..|v| - 4] + ".git";
  }

  /** The path has no empty part, dot or way up, and two parts for GitHub. */
  ghost predicate IsPath(provider: Provider, p: string) {
    (forall n :: n in P.Split(p) ==> n != "" && n != "." && n != "..") && (provider == GitHub ==> |P.Split(p)| == 2)
  }

  lemma PathEnds(provider: Provider, p: string)
    requires IsPath(provider, p)
    ensures p != "" && !("/" <= p) && !HasSuffix(p, "/")
  {
    if p == "" || p[0] == '/' || p[|p| - 1] == '/' { EmptyPart(p); }
  }

  lemma PathGiven(provider: Provider, value: string)
    ensures var v := TrimSpace(value); var p := StripGit(v);
            NormalizeFullPath(provider, value) == if !HasControl(v) && '\\' !in v && IsPath(provider, p) then Some(p) else None
  {
    var p := StripGit(TrimSpace(value));
    if IsPath(provider, p) { PathEnds(provider, p); }
  }

  /** Which texts are repository paths, and what they become. */
  lemma PathIff(provider: Provider, value: string, r: string)
    ensures var v := TrimSpace(value);
            NormalizeFullPath(provider, value) == Some(r) <==>
            !HasControl(v) && '\\' !in v && (v == r + ".git" || (v == r && !HasSuffix(r, ".git"))) && IsPath(provider, r)
  {
    PathGiven(provider, value);
    StripIff(TrimSpace(value), r);
  }
}
