/** The client's URL helpers: one URL, given in any of five spellings, names the instance and its API. */
module Urls {
  import opened Text

  const VPN := "/vpn/"

  /** normalizeWSURL */
  function NormalizeWSURL(raw: string): string {
    if HasPrefix(raw, "wss://") || HasPrefix(raw, "ws://") then raw
    else if HasPrefix(raw, "https://") then "wss://" + raw[8..]
    else if HasPrefix(raw, "http://") then "ws://" + raw[7..]
    else "wss://" + raw
  }

  /** wsToHTTP: both replacements look for their first occurrence anywhere in the string. */
  function WsToHTTP(url: string): string {
    ReplaceFirst(ReplaceFirst(url, "wss://", "https://"), "ws://", "http://")
  }

  datatype Cut = Whole | Parts(before: string, behind: string)

  /** strings.SplitN(url, "/vpn/", 2) */
  function CutVPN(url: string): Cut {
    var i := Find(url, VPN);
    if i < 0 then Whole else Parts(url[..i], url[i + |VPN|..])
  }

  /** instanceID: None is the error for a URL of another form. */
  function InstanceID(url: string): Option<string> {
    match CutVPN(url)
    case Whole => None
    case Parts(_, id) =>
      if id == "" then None
      else if HasSuffix(id, "/") then Some(id[..|id| - 1]) else Some(id)
  }

  function BaseURL(url: string): Option<string> {
    match CutVPN(WsToHTTP(url))
    case Whole => None
    case Parts(base, _) => Some(base)
  }

  function ConfigURL(url: string): Option<string> {
    match CutVPN(WsToHTTP(url))
    case Whole => None
    case Parts(base, id) => if id == "" then None else Some(base + "/api/instances/" + id + "/client-config")
  }

  /** strings.SplitN on a one-character separator: at most n parts, the last one with the rest. */
  function SplitN(s: string, sep: char, n: nat): (parts: seq<string>)
    requires n > 0
    ensures 1 <= |parts| <= n
  {
    var i := Find(s, [sep]);
    if n == 1 || i < 0 then [s] else [s[..i]] + SplitN(s[i + 1..], sep, n - 1)
  }

  /** wsBaseURL */
  function WsBaseURL(url: string): string {
    var i := Find(url, VPN);
    if i >= 0 then url[..i]
    else
      var parts := SplitN(url, '/', 4);
      if |parts| >= 3 then parts[0] + "//" + parts[2] else url
  }

  /** A URL names no instance if and only if it has no /vpn/ or nothing behind the first one; only then there is no
      configuration address for a URL that is already an HTTP one. */
  lemma NoInstance(url: string)
    ensures InstanceID(url).None? <==> Find(url, "/vpn/") < 0 || Find(url, "/vpn/") == |url| - 5
    ensures InstanceID(url).Some? ==>
              var id := url[Find(url, "/vpn/") + 5..];
              InstanceID(url).value == if id[|id| - 1] == '/' then id[..|id| - 1] else id
    ensures WsToHTTP(url) == url ==>
              (ConfigURL(url).None? <==> InstanceID(url).None?) && (BaseURL(url).None? <==> Find(url, "/vpn/") < 0)
  {
    var i := Find(url, VPN);
    if i >= 0 && url[i + 5..] != "" {
      var id := url[i + 5..];
      assert id[|id| - 1..] == [id[|id| - 1]];
    }
  }

  // ---------- First occurrences ----------

  /** The rest of a URL behind its scheme. */
  function Rest(host: string, guid: string): string {
    host + VPN + guid
  }

  /** The rest begins with vpn/ exactly if the host is vpn. */
  lemma StartsVPN(host: string, guid: string)
    requires '/' !in host
    ensures At(Rest(host, guid), "vpn/", 0) <==> host == "vpn"
  {
    var s, n := Rest(host, guid), |host|;
    assert s[n] == '/' && forall k :: 0 <= k < n ==> s[k] == host[k];
    if n < 3 {
      NotAt(s, "vpn/", 0, n);
    } else if n > 3 {
      NotAt(s, "vpn/", 0, 3);
    } else if host == "vpn" {
      assert s[0..4] == host + "/";
    } else {
      var k := if host[0] != 'v' then 0 else if host[1] != 'p' then 1 else 2;
      NotAt(s, "vpn/", 0, k);
    }
  }

  /** The second slash of the scheme begins an occurrence exactly if vpn/ follows. */
  lemma SecondSlash(s: string, p: nat, rest: string)
    requires 0 < p <= |s| && s[p - 1] == '/' && s[p..] == rest
    ensures At(s, VPN, p - 1) <==> At(rest, "vpn/", 0)
  {
    if |rest| >= 4 {
      SliceCons(s, p - 1, p + 4);
      DropDrop(s, p, 4);
      assert rest[0..4] == rest[..4] == s[p..p + 4];
      SameHead('/', rest[0..4], "vpn/");
      assert VPN == ['/'] + "vpn/";
    }
  }

  /** Where the first /vpn/ of a URL is: behind the host, except that the host vpn makes one with the second slash
      of the scheme. */
  lemma FirstVPN(scheme: string, host: string, guid: string)
    requires '/' !in scheme && '/' !in host
    ensures Find(scheme + "//" + Rest(host, guid), VPN) ==
            if host == "vpn" then |scheme| + 1 else |scheme| + 2 + |host|
  {
    var p, n := |scheme| + 2, |host|;
    var rest := Rest(host, guid);
    var s := scheme + "//" + rest;
    assert s[p..] == rest && s[p - 1] == '/' && s[p - 2] == '/';
    StartsVPN(host, guid);
    SecondSlash(s, p, rest);
    forall k: nat | k < p + n && k != p - 1
      ensures !At(s, VPN, k)
    {
      if k < p - 2 {
        assert s[k] == scheme[k];
        NotAt(s, VPN, k, 0);
      } else if k == p - 2 {
        NotAt(s, VPN, k, 1);
      } else {
        assert s[k] == host[k - p];
        NotAt(s, VPN, k, 0);
      }
    }
    if host == "vpn" {
      FirstAt(s, VPN, p - 1);
    } else {
      assert s[p + n..p + n + 5] == VPN;
      FirstAt(s, VPN, p + n);
    }
  }

  /** No :// behind the scheme, if the guid holds none. */
  lemma NoSchemeBehind(host: string, guid: string, i: nat)
    requires '/' !in host && Find(guid, "://") < 0
    ensures !At(Rest(host, guid), "://", i)
  {
    var s, n := Rest(host, guid), |host|;
    assert forall k :: 0 <= k < n ==> s[k] == host[k];
    assert s[n] == '/' && s[n + 1] == 'v' && s[n + 2] == 'p' && s[n + 3] == 'n' && s[n + 4] == '/';
    if i >= n + 5 {
      if i + 3 <= |s| {
        assert s[i..i + 3] == guid[i - n - 5..i - n - 5 + 3];
      }
      assert !At(guid, "://", i - n - 5);
    } else if i + 1 < n {
      NotAt(s, "://", i, 1);
    } else if i + 1 == n {
      NotAt(s, "://", i, 2);
    } else {
      NotAt(s, "://", i, 0);
    }
  }

  /** Behind the scheme q the scheme sub does not occur. */
  predicate Other(q: string, sub: string) {
    (q == "https://" && sub == "ws://") || (q == "ws://" && sub == "wss://")
  }

  /** In q + rest a scheme other than q does not occur, if :// does not in rest. */
  lemma OneScheme(q: string, sub: string, rest: string)
    requires Other(q, sub)
    requires forall i: nat :: !At(rest, "://", i)
    ensures Find(q + rest, sub) == -1
  {
    forall i: nat
      ensures !At(q + rest, sub, i)
    {
      NotThere(q, sub, rest, i);
    }
    Nowhere(q + rest, sub);
  }

  lemma NotThere(q: string, sub: string, rest: string, i: nat)
    requires Other(q, sub)
    requires forall i: nat :: !At(rest, "://", i)
    ensures !At(q + rest, sub, i)
  {
    var s, d := q + rest, |sub| - 3;
    if i + |sub| > |s| {
    } else if i + d >= |q| {
      var j := i + d - |q|;
      assert !At(rest, "://", j);
      SliceDrop(s, i, |sub|, d);
      SliceBehind(q, rest, i + d, i + |sub|);
      assert sub[d..] == "://";
    } else if i < |q| - 3 {
      // a letter of q stands in the place of one of sub, or q ends in the middle of sub
      assert forall k :: 0 <= k < |q| ==> s[k] == q[k];
      if q == "https://" {
        NotAt(s, sub, i, 0);
      } else {
        NotAt(s, sub, i, 1 + if i == 0 then 1 else 0);
      }
    } else {
      assert s[i] == q[i];
      NotAt(s, sub, i, 0);
    }
  }

  lemma ReplaceScheme(q: string, with: string, rest: string)
    ensures ReplaceFirst(q + rest, q, with) == with + rest
  {
    var s := q + rest;
    assert s[0..|q|] == q;
    FirstAt(s, q, 0);
    assert s[|q|..] == rest;
    assert "" + with == with;
  }

  predicate Secure(scheme: string) {
    scheme in {"wss:", "https:", ""}
  }

  /** A URL as the five accepted spellings write it; the empty scheme is a bare host. */
  function Spell(scheme: string, host: string, guid: string): string
    requires scheme in {"wss:", "ws:", "https:", "http:", ""}
  {
    (if scheme == "" then "" else scheme + "//") + Rest(host, guid)
  }

  /** Its WebSocket and HTTP schemes. */
  function Ws(scheme: string): string {
    if Secure(scheme) then "wss:" else "ws:"
  }

  function Http(scheme: string): string {
    if Secure(scheme) then "https:" else "http:"
  }

  /** Normalising is idempotent on every string, and the result always has a WebSocket scheme. */
  lemma NormalizeTwice(raw: string)
    ensures HasPrefix(NormalizeWSURL(raw), "wss://") || HasPrefix(NormalizeWSURL(raw), "ws://")
    ensures NormalizeWSURL(NormalizeWSURL(raw)) == NormalizeWSURL(raw)
  {
    if HasPrefix(raw, "https://") {
      assert ("wss://" + raw[8..])[..6] == "wss://";
    } else if HasPrefix(raw, "http://") {
      assert ("ws://" + raw[7..])[..5] == "ws://";
    } else {
      assert ("wss://" + raw)[..6] == "wss://";
    }
  }

  lemma NotPrefix(s: string, p: string, k: nat)
    requires k < |p| && (k < |s| ==> s[k] != p[k])
    ensures !HasPrefix(s, p)
  {
    if |p| <= |s| {
      assert s[..|p|][k] == s[k];
    }
  }

  /** The rest of a URL has no scheme of its own. */
  lemma BareHasNoScheme(host: string, guid: string, q: string)
    requires '/' !in host && q in {"wss://", "ws://", "https://", "http://"}
    ensures !HasPrefix(Rest(host, guid), q)
  {
    var s, n, d := Rest(host, guid), |host|, |q| - 2;
    assert s[n] == '/' && s[n + 1] == 'v' && forall k :: 0 <= k < n ==> s[k] == host[k];
    NotPrefix(s, q, if n < d then n else if n == d then d + 1 else d);
  }

  /** All five spellings normalise to one of two. */
  lemma NormalizeSpelling(scheme: string, host: string, guid: string)
    requires scheme in {"wss:", "ws:", "https:", "http:", ""} && '/' !in host
    ensures NormalizeWSURL(Spell(scheme, host, guid)) == Spell(Ws(scheme), host, guid)
  {
    var rest := Rest(host, guid);
    var raw := Spell(scheme, host, guid);
    if scheme == "" {
      assert "" + rest == rest;
      BareHasNoScheme(host, guid, "wss://");
      BareHasNoScheme(host, guid, "ws://");
      BareHasNoScheme(host, guid, "https://");
      BareHasNoScheme(host, guid, "http://");
    } else {
      assert "wss:" + "//" == "wss://" && "ws:" + "//" == "ws://";
      assert "https:" + "//" == "https://" && "http:" + "//" == "http://";
      assert raw[..|scheme| + 2] == scheme + "//" && raw[|scheme| + 2..] == rest;
      if scheme in {"https:", "http:"} {
        assert raw[0] == scheme[0] && raw[4] == scheme[4];
        NotPrefix(raw, "wss://", 0);
        NotPrefix(raw, "ws://", 0);
        if scheme == "http:" {
          NotPrefix(raw, "https://", 4);
        }
      }
    }
  }

  /** wsToHTTP swaps the scheme and nothing else. */
  lemma HttpSpelling(scheme: string, host: string, guid: string)
    requires scheme in {"wss:", "ws:"} && '/' !in host && Find(guid, "://") < 0
    ensures WsToHTTP(Spell(scheme, host, guid)) == Spell(Http(scheme), host, guid)
  {
    var rest := Rest(host, guid);
    forall i: nat
      ensures !At(rest, "://", i)
    {
      NoSchemeBehind(host, guid, i);
    }
    assert "wss:" + "//" == "wss://" && "ws:" + "//" == "ws://";
    assert "https:" + "//" == "https://" && "http:" + "//" == "http://";
    assert Spell(scheme, host, guid) == scheme + "//" + rest;
    assert Spell(Http(scheme), host, guid) == Http(scheme) + "//" + rest;
    if scheme == "wss:" {
      ReplaceScheme("wss://", "https://", rest);
      OneScheme("https://", "ws://", rest);
    } else {
      OneScheme("ws://", "wss://", rest);
      ReplaceScheme("ws://", "http://", rest);
    }
  }

  /** The same for a URL without a path. */
  lemma HttpBase(scheme: string, host: string)
    requires scheme in {"wss:", "ws:"} && '/' !in host
    ensures WsToHTTP(scheme + "//" + host) == Http(scheme) + "//" + host
  {
    forall i: nat
      ensures !At(host, "://", i)
    {
      NotAt(host, "://", i, 1);
    }
    assert "wss:" + "//" == "wss://" && "ws:" + "//" == "ws://";
    assert "https:" + "//" == "https://" && "http:" + "//" == "http://";
    if scheme == "wss:" {
      ReplaceScheme("wss://", "https://", host);
      OneScheme("https://", "ws://", host);
    } else {
      OneScheme("ws://", "wss://", host);
      ReplaceScheme("ws://", "http://", host);
    }
  }

  // ---------- The pipeline ----------

  lemma CutAt(url: string, before: string, behind: string)
    requires url == before + VPN + behind && Find(url, VPN) == |before|
    ensures CutVPN(url) == Parts(before, behind)
  {
    assert url[..|before|] == before && url[|before| + |VPN|..] == behind;
  }

  /** The two parts of a URL, and exactly when they are the scheme and host and the guid. */
  lemma CutSpelling(scheme: string, host: string, guid: string)
    requires scheme in {"wss:", "ws:", "https:", "http:"} && '/' !in host
    ensures CutVPN(Spell(scheme, host, guid)) == Parts(scheme + "//" + host, guid) <==> host != "vpn"
    ensures host == "vpn" ==> CutVPN(Spell(scheme, host, guid)) == Parts(scheme + "/", "vpn/" + guid)
  {
    var u := Spell(scheme, host, guid);
    FirstVPN(scheme, host, guid);
    if host == "vpn" {
      VPNTwice(scheme, guid);
      CutAt(u, scheme + "/", "vpn/" + guid);
    } else {
      assert u == (scheme + "//" + host) + VPN + guid;
      CutAt(u, scheme + "//" + host, guid);
    }
  }

  lemma VPNTwice(scheme: string, guid: string)
    ensures scheme + "//" + Rest("vpn", guid) == (scheme + "/") + VPN + ("vpn/" + guid)
  {
    assert "//" + "vpn" + VPN == "/" + VPN + "vpn/";
    var a, b := scheme + "//" + Rest("vpn", guid), (scheme + "/") + VPN + ("vpn/" + guid);
    assert a == scheme + ("//" + "vpn" + VPN) + guid;
    assert b == scheme + ("/" + VPN + "vpn/") + guid;
  }

  /** For every host but vpn, in all five spellings of a URL: normalising takes two steps to nowhere, the id is the
      guid less one trailing slash, the base is the scheme and host, and the two ways to the base agree. */
  lemma Pipeline(scheme: string, host: string, guid: string)
    requires scheme in {"wss:", "ws:", "https:", "http:", ""}
    requires '/' !in host && host != "vpn" && guid != "" && Find(guid, "://") < 0
    ensures var u, base := NormalizeWSURL(Spell(scheme, host, guid)), Http(scheme) + "//" + host;
            && NormalizeWSURL(u) == u
            && InstanceID(u) == Some(if HasSuffix(guid, "/") then guid[..|guid| - 1] else guid)
            && BaseURL(u) == Some(base)
            && WsToHTTP(WsBaseURL(u)) == base
            && ConfigURL(u) == Some(base + "/api/instances/" + guid + "/client-config")
  {
    NormalizeTwice(Spell(scheme, host, guid));
    NormalizeSpelling(scheme, host, guid);
    CutSpelling(Ws(scheme), host, guid);
    CutSpelling(Http(scheme), host, guid);
    HttpSpelling(Ws(scheme), host, guid);
    HttpBase(Ws(scheme), host);
  }

  /** Without two slashes in a row there is no scheme to swap. */
  lemma NoScheme(url: string)
    requires url in {"wss:/", "ws:/"}
    ensures WsToHTTP(url) == url
  {
    forall sub, i: nat | sub in {"wss://", "ws://"}
      ensures !At(url, sub, i)
    {
      if i + |sub| <= |url| {
        NotAt(url, sub, i, |sub| - 2);
      }
    }
    Nowhere(url, "wss://");
    Nowhere(url, "ws://");
  }

  /** The host vpn, whose name is taken for the path: what each helper returns instead. */
  lemma HostVPN(scheme: string, guid: string)
    requires scheme in {"wss:", "ws:", "https:", "http:", ""}
    requires guid != "" && Find(guid, "://") < 0
    ensures var u := NormalizeWSURL(Spell(scheme, "vpn", guid));
            && InstanceID(u) == Some("vpn/" + if HasSuffix(guid, "/") then guid[..|guid| - 1] else guid)
            && BaseURL(u) == Some(Http(scheme) + "/")
            && ConfigURL(u) == Some(Http(scheme) + "/" + "/api/instances/" + ("vpn/" + guid) + "/client-config")
            && WsBaseURL(u) == WsToHTTP(WsBaseURL(u)) == Ws(scheme) + "/"
  {
    NormalizeSpelling(scheme, "vpn", guid);
    VPNHelpers(scheme, guid);
    TrimmedId(guid);
    BareScheme(Ws(scheme));
  }

  lemma BareScheme(ws: string)
    requires ws in {"wss:", "ws:"}
    ensures WsToHTTP(ws + "/") == ws + "/"
  {
    assert "wss:" + "/" == "wss:/" && "ws:" + "/" == "ws:/";
    NoScheme(ws + "/");
  }

  lemma VPNHelpers(scheme: string, guid: string)
    requires guid != "" && Find(guid, "://") < 0
    ensures var u, id := Spell(Ws(scheme), "vpn", guid), "vpn/" + guid;
            && WsBaseURL(u) == Ws(scheme) + "/" && BaseURL(u) == Some(Http(scheme) + "/")
            && InstanceID(u) == Some(if HasSuffix(id, "/") then id[..|id| - 1] else id)
            && ConfigURL(u) == Some(Http(scheme) + "/" + "/api/instances/" + id + "/client-config")
  {
    var u, h := Spell(Ws(scheme), "vpn", guid), Spell(Http(scheme), "vpn", guid);
    CutSpelling(Ws(scheme), "vpn", guid);
    CutSpelling(Http(scheme), "vpn", guid);
    HttpSpelling(Ws(scheme), "vpn", guid);
    NotEmpty(guid);
    FromParts(u, h, Parts(Ws(scheme) + "/", "vpn/" + guid), Parts(Http(scheme) + "/", "vpn/" + guid));
  }

  lemma TrimmedId(guid: string)
    requires guid != ""
    ensures var id := "vpn/" + guid;
            (if HasSuffix(id, "/") then id[..|id| - 1] else id) ==
            "vpn/" + if HasSuffix(guid, "/") then guid[..|guid| - 1] else guid
  {
    TrimBehind("vpn/", guid);
  }

  lemma NotEmpty(guid: string)
    ensures "vpn/" + guid != ""
  {}

  /** The helpers, by the cuts of the URL and of its HTTP form. */
  lemma FromParts(u: string, h: string, ws: Cut, http: Cut)
    requires WsToHTTP(u) == h && CutVPN(u) == ws && CutVPN(h) == http && ws.Parts? && http.Parts?
    requires ws.behind != "" && http.behind != ""
    ensures WsBaseURL(u) == ws.before && BaseURL(u) == Some(http.before)
    ensures InstanceID(u) == Some(if HasSuffix(ws.behind, "/") then ws.behind[..|ws.behind| - 1] else ws.behind)
    ensures ConfigURL(u) == Some(http.before + "/api/instances/" + http.behind + "/client-config")
  {}

  lemma TrimBehind(front: string, guid: string)
    requires guid != ""
    ensures HasSuffix(front + guid, "/") <==> HasSuffix(guid, "/")
    ensures (front + guid)[..|front + guid| - 1] == front + guid[..|guid| - 1]
  {
    var id := front + guid;
    assert id[|id| - 1..] == guid[|guid| - 1..];
  }

  /** The configuration is asked for under the id of the instance if and only if the URL has no trailing slash:
      instanceID drops one, configURL does not. */
  lemma SameInstanceIff(scheme: string, host: string, guid: string)
    requires scheme in {"wss:", "ws:", "https:", "http:", ""}
    requires '/' !in host && host != "vpn" && guid != "" && Find(guid, "://") < 0
    ensures var u := NormalizeWSURL(Spell(scheme, host, guid));
            && InstanceID(u).Some? && BaseURL(u).Some?
            && (ConfigURL(u) == Some(BaseURL(u).value + "/api/instances/" + InstanceID(u).value + "/client-config")
                <==> !HasSuffix(guid, "/"))
  {
    Pipeline(scheme, host, guid);
    var base, id := Http(scheme) + "//" + host, if HasSuffix(guid, "/") then guid[..|guid| - 1] else guid;
    if HasSuffix(guid, "/") {
      assert |base + "/api/instances/" + id + "/client-config"| + 1 == |base + "/api/instances/" + guid + "/client-config"|;
    }
  }

  // ---------- Without /vpn/ ----------

  lemma SplitNStep(p: string, s: string, sep: char, n: nat)
    requires sep !in p && n > 1
    ensures SplitN(p + [sep] + s, sep, n) == [p] + SplitN(s, sep, n - 1)
  {
    var whole := p + [sep] + s;
    forall i: nat | i < |p|
      ensures !At(whole, [sep], i)
    {
      NotAt(whole, [sep], i, 0);
    }
    FirstAt(whole, [sep], |p|);
    assert whole[..|p|] == p && whole[|p| + 1..] == s;
  }

  lemma SplitNWhole(p: string, sep: char, n: nat)
    requires sep !in p && n > 0
    ensures SplitN(p, sep, n) == [p]
  {
    forall i: nat
      ensures !At(p, [sep], i)
    {
      NotAt(p, [sep], i, 0);
    }
    Nowhere(p, [sep]);
  }

  lemma HostPart(host: string, path: string)
    requires '/' !in host && (path == "" || path[0] == '/')
    ensures SplitN(host + path, '/', 2)[0] == host
  {
    if path == "" {
      assert host + path == host;
      SplitNWhole(host, '/', 2);
    } else {
      assert host + path == host + ['/'] + path[1..];
      SplitNStep(host, path[1..], '/', 2);
    }
  }

  lemma ThreeParts(a: string, b: string, tail: string)
    requires '/' !in a && '/' !in b
    ensures SplitN(a + ['/'] + (b + ['/'] + tail), '/', 4) == [a] + ([b] + SplitN(tail, '/', 2))
  {
    SplitNStep(a, b + ['/'] + tail, '/', 4);
    SplitNStep(b, tail, '/', 3);
  }

  /** A URL that has no /vpn/ at all is cut behind the host, whatever its path. */
  lemma WsBaseWithoutVPN(scheme: string, host: string, path: string)
    requires '/' !in scheme && '/' !in host && (path == "" || path[0] == '/')
    requires Find(scheme + "//" + host + path, VPN) == -1
    ensures WsBaseURL(scheme + "//" + host + path) == scheme + "//" + host
  {
    Slashes(scheme, host, path);
    HostPart(host, path);
    ThreeParts(scheme, "", host + path);
    Third(scheme, "", SplitN(host + path, '/', 2));
  }

  lemma Slashes(scheme: string, host: string, path: string)
    ensures scheme + "//" + host + path == scheme + ['/'] + ("" + ['/'] + (host + path))
  {
    assert "//" == ['/'] + ("" + ['/']);
  }

  lemma Third(a: string, b: string, rest: seq<string>)
    requires rest != []
    ensures ([a] + ([b] + rest))[0] == a && ([a] + ([b] + rest))[2] == rest[0]
  {}

  /** And so is one whose second part is not empty, which goes; with fewer than two slashes nothing is cut. */
  lemma WsBaseOther(a: string, b: string, host: string, path: string)
    requires '/' !in a && '/' !in b && '/' !in host && (path == "" || path[0] == '/')
    ensures Find(a + ['/'] + (b + ['/'] + (host + path)), VPN) == -1 ==>
              WsBaseURL(a + ['/'] + (b + ['/'] + (host + path))) == a + "//" + host
    ensures WsBaseURL(a) == a && WsBaseURL(a + ['/'] + b) == a + ['/'] + b
  {
    HostPart(host, path);
    ThreeParts(a, b, host + path);
    Third(a, b, SplitN(host + path, '/', 2));
    FewSlashes(a, b);
  }

  lemma FewSlashes(a: string, b: string)
    requires '/' !in a && '/' !in b
    ensures WsBaseURL(a) == a && WsBaseURL(a + ['/'] + b) == a + ['/'] + b
  {
    SplitNWhole(a, '/', 4);
    SplitNStep(a, b, '/', 4);
    SplitNWhole(b, '/', 3);
    forall i: nat
      ensures !At(a, VPN, i) && !At(a + ['/'] + b, VPN, i)
    {
      NotAt(a, VPN, i, 0);
      OneSlash(a, b, i);
    }
    Nowhere(a, VPN);
    Nowhere(a + ['/'] + b, VPN);
  }

  /** /vpn/ has two slashes. */
  lemma OneSlash(a: string, b: string, i: nat)
    requires '/' !in a && '/' !in b
    ensures !At(a + ['/'] + b, VPN, i)
  {
    var s := a + ['/'] + b;
    if i + 5 <= |s| {
      assert forall k :: 0 <= k < |s| && k != |a| ==> s[k] != '/';
      NotAt(s, VPN, i, if i == |a| then 4 else 0);
    }
  }
}
