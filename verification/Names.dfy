/**
 Tunnel names and the path a name travels: chosen or generated, put into the
 public URL, read back by the client, and recovered from the Host of a request.
 (internal/server/tunnel_manager.go, internal/server/http_proxy.go,
 internal/client/reconnect.go)
 */
module Names {
  import opened Wrappers

  // ---------------------------------------------------------------- validation

  predicate IsLowerAlnum(c: char) {
    'a' <= c <= 'z' || '0' <= c <= '9'
  }

  /** The labels that no client may claim. */
  const RESERVED_SUBDOMAINS: set<string> :=
    {"www", "api", "admin", "mail", "ftp", "localhost", "tunnel", "dashboard"}

  /** `^[a-z0-9][a-z0-9-]{1,61}[a-z0-9]$` */
  predicate MatchesSubdomainRe(s: string) {
    && 3 <= |s| <= 63
    && IsLowerAlnum(s[0])
    && IsLowerAlnum(s[|s| - 1])
    && forall i :: 1 <= i < |s| - 1 ==> IsLowerAlnum(s[i]) || s[i] == '-'
  }

  datatype NameError = BadLength | BadFormat | ReservedName

  function ValidateSubdomain(sub: string): Option<NameError> {
    if |sub| < 3 || |sub| > 63 then Some(BadLength)
    else if !MatchesSubdomainRe(sub) then Some(BadFormat)
    else if sub in RESERVED_SUBDOMAINS then Some(ReservedName)
    else None
  }

  predicate ValidSubdomain(sub: string) {
    ValidateSubdomain(sub).None?
  }

  /** The letters, digits and hyphens a name may be spelled with, hyphens not at its ends. */
  predicate WellSpelled(sub: string) {
    && (forall c :: c in sub ==> 'a' <= c <= 'z' || '0' <= c <= '9' || c == '-')
    && (sub != "" ==> sub[0] != '-' && sub[|sub| - 1] != '-')
  }

  lemma SpellingIs(sub: string)
    requires 3 <= |sub| <= 63
    ensures MatchesSubdomainRe(sub) <==> WellSpelled(sub)
  {
    assert forall i :: 0 <= i < |sub| ==> sub[i] in sub;
    if MatchesSubdomainRe(sub) {
      forall c | c in sub
        ensures IsLowerAlnum(c) || c == '-'
      {
        var i :| 0 <= i < |sub| && sub[i] == c;
      }
    }
  }

  lemma SpecialsAreSpelled(sub: string)
    requires sub in {"www", "api", "admin", "mail", "ftp", "localhost", "tunnel", "dashboard"}
    ensures 3 <= |sub| <= 63 && WellSpelled(sub)
  {
  }

  /** Which names are accepted, and which error each other one gets. */
  lemma ValidNameIff(sub: string)
    ensures var taken := sub in {"www", "api", "admin", "mail", "ftp", "localhost", "tunnel", "dashboard"};
            && (ValidSubdomain(sub) <==> 3 <= |sub| <= 63 && WellSpelled(sub) && !taken)
            && (ValidateSubdomain(sub) == Some(BadLength) <==> |sub| < 3 || |sub| > 63)
            && (ValidateSubdomain(sub) == Some(BadFormat) <==> 3 <= |sub| <= 63 && !WellSpelled(sub))
            && (ValidateSubdomain(sub) == Some(ReservedName) <==> taken)
  {
    if 3 <= |sub| <= 63 {
      SpellingIs(sub);
    }
    if sub in RESERVED_SUBDOMAINS {
      SpecialsAreSpelled(sub);
    }
  }

  const RANDOM_CHARS := "abcdefghijklmnopqrstuvwxyz0123456789"

  /** Eight characters drawn from RANDOM_CHARS; `draws` are the random indices.
      Whatever is drawn, the name is one that RegisterHTTP accepts. */
  method RandomSubdomain(draws: seq<nat>) returns (sub: string)
    requires |draws| == 8
    requires forall i :: 0 <= i < 8 ==> draws[i] < |RANDOM_CHARS|
    ensures ValidSubdomain(sub)
    ensures |sub| == 8 && forall i :: 0 <= i < 8 ==> sub[i] == RANDOM_CHARS[draws[i]]
  {
    var b := new char[8](_ => 'a');
    for i := 0 to 8
      invariant forall j :: 0 <= j < i ==> b[j] == RANDOM_CHARS[draws[j]] && IsLowerAlnum(b[j])
    {
      b[i] := RANDOM_CHARS[draws[i]];
      RandomCharsAreAlnum(draws[i]);
    }
    sub := b[..];
    assert MatchesSubdomainRe(sub);
    NoReservedNameHasEightChars(sub);
  }

  lemma RandomCharsAreAlnum(k: nat)
    requires k < |RANDOM_CHARS|
    ensures IsLowerAlnum(RANDOM_CHARS[k])
  {
  }

  /** The 36 indices draw the letters and then the digits, each once. */
  lemma DrawnCharIs(k: nat)
    requires k < 36
    ensures |RANDOM_CHARS| == 36
    ensures RANDOM_CHARS[k] as int == if k < 26 then 'a' as int + k else '0' as int + (k - 26)
  {
  }

  lemma NoReservedNameHasEightChars(s: string)
    requires |s| == 8
    ensures s !in RESERVED_SUBDOMAINS
  {
  }

  // ---------------------------------------------------------------- the public URL

  const SCHEME := "https://"

  /** The URL sent back for a registered HTTP tunnel. */
  function TunnelURL(sub: string, domain: string): string {
    SCHEME + sub + "." + domain
  }

  /** Everything before the first dot. */
  function FirstLabel(s: string): string {
    if s == "" || s[0] == '.' then "" else [s[0]] + FirstLabel(s[1..])
  }

  function StripScheme(url: string): string {
    if |url| > |SCHEME| then url[|SCHEME|..] else url
  }

  /** The client's reading of the URL it was given. */
  method ExtractSubdomainFromURL(rawURL: string) returns (first: string)
    ensures first == FirstLabel(StripScheme(rawURL))
    ensures var s := if |rawURL| > 8 then rawURL[8..] else rawURL;
            first <= s && '.' !in first && (|first| < |s| ==> s[|first|] == '.')
  {
    var s := rawURL;
    if |s| > |SCHEME| {
      s := s[|SCHEME|..];
    }
    for i := 0 to |s|
      invariant '.' !in s[..i]
    {
      if s[i] == '.' {
        FirstLabelIs(s, i);
        return s[..i];
      }
    }
    assert s[..|s|] == s;
    FirstLabelIs(s, |s|);
    return s;
  }

  lemma {:induction false} FirstLabelIs(s: string, i: nat)
    requires i <= |s| && '.' !in s[..i]
    requires i < |s| ==> s[i] == '.'
    ensures FirstLabel(s) == s[..i]
  {
    if i > 0 {
      assert s[0] == s[..i][0];
      assert s[1..][..i - 1] == s[..i][1..];
      FirstLabelIs(s[1..], i - 1);
    }
  }

  lemma {:induction false} FirstLabelEnds(s: string)
    ensures var first := FirstLabel(s); first <= s && '.' !in first && (|first| < |s| ==> s[|first|] == '.')
  {
    if s != "" && s[0] != '.' {
      FirstLabelEnds(s[1..]);
    }
  }

  // ---------------------------------------------------------------- the Host of a request

  function Lower(c: char): char {
    if 'A' <= c <= 'Z' then (c as int + 32) as char else c
  }

  function ToLower(s: string): string {
    seq(|s|, i requires 0 <= i < |s| => Lower(s[i]))
  }

  lemma SameUpToCase(a: string, b: string)
    requires ToLower(a) == ToLower(b)
    ensures |a| == |b| && forall i :: 0 <= i < |a| ==> Lower(a[i]) == Lower(b[i])
  {
    assert |a| == |ToLower(a)| == |ToLower(b)| == |b|;
    forall i | 0 <= i < |a|
      ensures Lower(a[i]) == Lower(b[i])
    {
      assert ToLower(a)[i] == ToLower(b)[i];
    }
  }

  /** Each capital letter becomes the small letter at its place in the alphabet, and nothing
      else changes; so no capitals are left, and doing it again changes nothing. */
  lemma LoweredIs(s: string)
    ensures var t := ToLower(s);
            && |t| == |s| && ToLower(t) == t
            && forall i :: 0 <= i < |s| ==>
                 && !('A' <= t[i] <= 'Z')
                 && if 'A' <= s[i] <= 'Z' then 'a' <= t[i] <= 'z' && t[i] as int - 'a' as int == s[i] as int - 'A' as int
                    else t[i] == s[i]
  {
  }

  /** strings.LastIndex(s, ":") */
  function LastColon(s: string): (i: int)
    ensures -1 <= i < |s|
    ensures 0 <= i ==> s[i] == ':'
    ensures forall j :: i < j < |s| ==> s[j] != ':'
  {
    if s == "" then -1
    else if s[|s| - 1] == ':' then |s| - 1
    else
      var i := LastColon(s[..|s| - 1]);
      i
  }

  function StripPort(host: string): string {
    var i := LastColon(host);
    if i >= 0 then host[..i] else host
  }

  predicate HasSuffix(s: string, suffix: string) {
    |s| >= |suffix| && s[|s| - |suffix|..] == suffix
  }

  /** HTTPProxy.extractSubdomain */
  function ExtractSubdomain(host: string, domain: string): string {
    var h := StripPort(host);
    if ToLower(h) == ToLower(domain) then ""
    else
      var suffix := "." + domain;
      if !HasSuffix(h, suffix) then ToLower(FirstLabel(h))
      else ToLower(h[..|h| - |suffix|])
  }

  /** serveRequest hands these names to the dashboard when it is enabled. */
  predicate IsSpecialName(sub: string) {
    sub == "dashboard" || sub == "admin" || sub == "www" || sub == ""
  }

  lemma ValidNameShape(sub: string)
    requires ValidSubdomain(sub)
    ensures !IsSpecialName(sub) && IsLabel(sub)
  {
    assert forall i :: 0 <= i < |sub| ==> IsLowerAlnum(sub[i]) || sub[i] == '-';
  }

  /** What the client remembers is the name that was registered, for any domain. */
  lemma ClientRemembersName(sub: string, domain: string)
    requires ValidSubdomain(sub)
    ensures FirstLabel(StripScheme(TunnelURL(sub, domain))) == sub
  {
    ValidNameShape(sub);
    var s := StripScheme(TunnelURL(sub, domain));
    assert TunnelURL(sub, domain) == SCHEME + (sub + "." + domain);
    assert s == sub + "." + domain;
    assert s[..|sub|] == sub;
    FirstLabelIs(s, |sub|);
  }

  lemma StripPortIs(h: string, port: string)
    requires ':' !in h && ':' !in port
    ensures StripPort(h) == h && StripPort(h + ":" + port) == h
  {
    var full := h + ":" + port;
    assert full[|h|] == ':';
    assert forall j :: |h| < j < |full| ==> full[j] == port[j - |h| - 1];
    assert LastColon(full) == |h|;
    assert full[..|h|] == h;
  }

  lemma NoColons(a: string, b: string)
    requires ToLower(a) == ToLower(b) && ':' !in b
    ensures ':' !in a
  {
    SameUpToCase(a, b);
    assert forall i :: 0 <= i < |a| ==> Lower(a[i]) == Lower(b[i]) && b[i] != ':';
  }

  /** One label of a host name, in lower case. */
  predicate IsLabel(sub: string) {
    sub != "" && '.' !in sub && ':' !in sub && ToLower(sub) == sub
  }

  /** A Host that spells the tunnel's host in any letter case, with or without a
      port, yields exactly the registered name; likewise any other label below the domain. */
  lemma HostNamesTunnel(sub: string, domain: string, host: string, port: string)
    requires IsLabel(sub) && ':' !in domain && ':' !in port
    requires ToLower(host) == ToLower(sub + "." + domain)
    ensures ExtractSubdomain(host, domain) == sub
    ensures ExtractSubdomain(host + ":" + port, domain) == sub
  {
    NoColons(host, sub + "." + domain);
    StripPortIs(host, port);
    BareHostNamesTunnel(sub, domain, host);
    assert StripPort(host + ":" + port) == StripPort(host);
  }

  lemma BareHostNamesTunnel(sub: string, domain: string, h: string)
    requires IsLabel(sub) && StripPort(h) == h
    requires ToLower(h) == ToLower(sub + "." + domain)
    ensures ExtractSubdomain(h, domain) == sub
  {
    FrontNamesTunnel(sub, domain, h);
    assert |ToLower(h)| == |h| != |domain| == |ToLower(domain)|;
    var front := h[..|sub|];
    if HasSuffix(h, "." + domain) {
      assert h[..|h| - |"." + domain|] == front;
    } else {
      FirstLabelIs(h, |sub|);
    }
  }

  lemma FrontNamesTunnel(sub: string, domain: string, h: string)
    requires '.' !in sub && ToLower(sub) == sub
    requires ToLower(h) == ToLower(sub + "." + domain)
    ensures |h| == |sub| + 1 + |domain|
    ensures h[|sub|] == '.' && '.' !in h[..|sub|] && ToLower(h[..|sub|]) == sub
  {
    var whole := sub + "." + domain;
    SameUpToCase(h, whole);
    assert Lower(h[|sub|]) == Lower(whole[|sub|]) == '.';
    var front := h[..|sub|];
    forall i | 0 <= i < |sub|
      ensures Lower(front[i]) == sub[i] && front[i] != '.'
    {
      assert Lower(h[i]) == Lower(whole[i]) && whole[i] == sub[i];
      assert ToLower(sub)[i] == Lower(sub[i]);
    }
  }

  /** The host's first label spells the name, and the host is neither the bare domain nor a
      deeper name below the domain. A host outside the domain counts too. */
  predicate SaysName(host: string, sub: string, domain: string) {
    var h := StripPort(host);
    && ToLower(h) != ToLower(domain)
    && ToLower(FirstLabel(h)) == sub
    && (HasSuffix(h, "." + domain) ==> |h| == |sub| + 1 + |domain|)
  }

  /** The bare domain, or a host that begins with a dot or is empty; not a deeper name below
      the domain. */
  predicate SaysNothing(host: string, domain: string) {
    var h := StripPort(host);
    || ToLower(h) == ToLower(domain)
    || ((h == "" || h[0] == '.') && (HasSuffix(h, "." + domain) ==> |h| == 1 + |domain|))
  }

  /** Exactly which Hosts yield a given name, valid or special. */
  lemma HostYieldsNameIff(sub: string, domain: string, host: string)
    requires sub != "" && '.' !in sub
    ensures ExtractSubdomain(host, domain) == sub <==> SaysName(host, sub, domain)
  {
    var h := StripPort(host);
    if HasSuffix(h, "." + domain) {
      var front := h[..|h| - |"." + domain|];
      assert h[|front|] == ("." + domain)[0];
      FirstLabelEnds(h);
      assert |FirstLabel(h)| == |front| ==> FirstLabel(h) == front;
      if ToLower(front) == sub {
        NoDots(front, sub);
        FirstLabelIs(h, |front|);
      }
    }
  }

  /** And which yield none. */
  lemma HostYieldsNothingIff(domain: string, host: string)
    ensures ExtractSubdomain(host, domain) == "" <==> SaysNothing(host, domain)
  {
    var h := StripPort(host);
    if HasSuffix(h, "." + domain) {
      assert h[|h| - |"." + domain|] == ("." + domain)[0];
    }
  }

  lemma NoDots(front: string, sub: string)
    requires ToLower(front) == sub && '.' !in sub
    ensures '.' !in front
  {
    assert forall i :: 0 <= i < |front| ==> ToLower(front)[i] == Lower(front[i]);
  }

  /** Whatever stands before the domain is what a Host yields, also several labels. */
  lemma DomainIsCutOff(front: string, domain: string)
    requires ':' !in front && ':' !in domain
    ensures ExtractSubdomain(front + "." + domain, domain) == ToLower(front)
  {
    var suffix := "." + domain;
    var h := front + suffix;
    assert h == front + "." + domain;
    StripPortIs(h, "");
    assert h[|h| - |suffix|..] == suffix && h[..|h| - |suffix|] == front;
    LoweredIs(h);
    LoweredIs(domain);
  }

  /** Of a host outside the domain it is the first label. */
  lemma ForeignHostYieldsLabel(host: string, domain: string)
    requires ':' !in host && ToLower(host) != ToLower(domain)
    requires forall k :: 0 <= k <= |host| ==> host[k..] != "." + domain
    ensures ExtractSubdomain(host, domain) == ToLower(FirstLabel(host))
  {
    StripPortIs(host, "");
  }

  // ---------------------------------------------------------------- masked names

  /** How the request log stores the owner of an entry (server.maskToken). */
  function MaskToken(t: string): string {
    if |t| <= 8 then "***" else t[..4] + "..." + t[|t| - 4..]
  }

  /** How the dashboard spells the key it filters by (dashboard.maskKey). */
  function MaskKey(key: string): string {
    if |key| <= 8 then "***" else key[..4] + "..." + key[|key| - 4..]
  }

  /** The filter a user's dashboard passes is never the empty one, and it selects an
      entry logged for `token` exactly when the two share their masked spelling. */
  lemma MaskSelects(key: string, token: string)
    ensures MaskKey(key) != ""
    ensures MaskToken(token) == MaskKey(key) <==>
            || (|token| <= 8 && |key| <= 8)
            || (|token| > 8 && |key| > 8 && token[..4] == key[..4] && token[|token| - 4..] == key[|key| - 4..])
  {
    if |token| > 8 && |key| > 8 {
      var a, b := MaskToken(token), MaskKey(key);
      assert a[..4] == token[..4] && a[7..] == token[|token| - 4..];
      assert b[..4] == key[..4] && b[7..] == key[|key| - 4..];
    } else if |token| > 8 {
      assert |MaskToken(token)| == 11;
    } else if |key| > 8 {
      assert |MaskKey(key)| == 11;
    }
  }
}
