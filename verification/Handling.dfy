/**
 The handler's map of VPN connections, and the two passes that kick clients in bulk: the ban of an IP and the
 timeout enforcer.

 The passes run here without interference, one after the other; what holds under interference is the business
 of KickSafety.
 */
module Handling {
  import opened Text
  import opened Vpn
  import opened Protocol

  // ---------- The port in an address ----------

  function LastIndex(s: string, c: char): (r: int)
    ensures -1 <= r < |s|
    ensures r >= 0 ==> s[r] == c
    ensures forall k :: 0 <= r < k < |s| ==> s[k] != c
    ensures r < 0 ==> c !in s
  {
    if s == "" then -1
    else if s[|s| - 1] == c then |s| - 1
    else LastIndex(s[..|s| - 1], c)
  }

  /** net.SplitHostPort: the host and the port of host:port, [host]:port, or an error. */
  function SplitHostPort(s: string): Option<(string, string)> {
    var i := LastIndex(s, ':');
    if i < 0 then None
    else
      var port := s[i + 1..];
      if s[0] == '[' then
        var end := Find(s, "]");
        if end < 0 || end + 1 != i || '[' in s[1..] || ']' in s[end + 1..] then None else Some((s[1..end], port))
      else if ':' in s[..i] || '[' in s || ']' in s then None
      else Some((s[..i], port))
  }

  /** The source port of a real_addr, or 0: what Sscanf leaves of it. */
  function SourcePort(realAddr: string): int {
    var hp := SplitHostPort(realAddr);
    if hp.None? then 0
    else
      var port := ScanInt(hp.value.1);
      if port.Some? then port.value else 0
  }

  lemma {:induction false} LastColon(front: string, port: string)
    requires ':' !in port
    ensures LastIndex(front + ":" + port, ':') == |front|
  {
    var s := front + ":" + port;
    if port == "" {
      assert s[|s| - 1] == ':';
    } else {
      var less := port[..|port| - 1];
      LastColon(front, less);
      assert s[..|s| - 1] == front + ":" + less && s[|s| - 1] == port[|port| - 1];
    }
  }

  lemma DecAvoids(p: nat, c: char)
    requires !IsDigit(c)
    ensures c !in Dec(p)
  {}

  /** Every port OpenVPN can print behind an IPv4 address is read back. */
  lemma PortOfIPv4(host: string, p: nat)
    requires ':' !in host && '[' !in host && ']' !in host && p <= MAX_INT64
    ensures SourcePort(host + ":" + Dec(p)) == p
  {
    var s, d := host + ":" + Dec(p), Dec(p);
    DecAvoids(p, ':');
    DecAvoids(p, '[');
    DecAvoids(p, ']');
    LastColon(host, d);
    ScanOfDec(p);
    assert s[..|host|] == host && s[|host| + 1..] == d;
    assert s[0] == if host == "" then ':' else host[0];
  }

  /** The one closing bracket of [host]:port. */
  lemma Bracket(host: string, port: string)
    requires ']' !in host
    ensures Find("[" + host + "]" + ":" + port, "]") == |host| + 1
  {
    var s := "[" + host + "]" + ":" + port;
    forall k: nat | k < |host| + 1
      ensures !At(s, "]", k)
    {
      assert k > 0 ==> s[k] == host[k - 1];
      NotAt(s, "]", k, 0);
    }
    assert s[|host| + 1..|host| + 2] == "]";
    FirstAt(s, "]", |host| + 1);
  }

  lemma SplitBracketed(host: string, port: string)
    requires '[' !in host && ']' !in host && ':' !in port && '[' !in port && ']' !in port
    ensures SplitHostPort("[" + host + "]" + ":" + port) == Some((host, port))
  {
    var s, n := "[" + host + "]" + ":" + port, |host|;
    LastColon("[" + host + "]", port);
    Bracket(host, port);
    assert s[1..] == host + "]" + ":" + port && s[n + 2..] == ":" + port;
    assert s[1..n + 1] == host && s[n + 3..] == port;
  }

  /** And behind an IPv6 address in brackets. */
  lemma PortOfIPv6(host: string, p: nat)
    requires '[' !in host && ']' !in host && p <= MAX_INT64
    ensures SourcePort("[" + host + "]" + ":" + Dec(p)) == p
  {
    DecAvoids(p, ':');
    DecAvoids(p, '[');
    DecAvoids(p, ']');
    SplitBracketed(host, Dec(p));
    ScanOfDec(p);
  }

  /** An address without a colon, or with colons in front of the last one but no brackets, has no port. */
  lemma NoPort(host: string, port: string)
    requires ':' !in port
    ensures SourcePort(port) == 0
    ensures ':' in host && host[0] != '[' ==> SourcePort(host + ":" + port) == 0
  {
    var s := host + ":" + port;
    LastColon(host, port);
    assert s[..|host|] == host;
    assert host != "" ==> s[0] == host[0];
  }

  // ---------- What one kick does ----------

  /** The parts of an instance the passes read. */
  datatype Inst = Inst(running: bool, clientTimeouts: map<Cn, int>)

  /** What a pass does not change: conns, the instances, whose management ports answer, whose CCD directory
      takes writes. */
  datatype Env = Env(conns: map<Port, VpnConn>, insts: map<Id, Inst>, reachable: set<Id>, writable: set<Id>)

  /** What it changes: disabled CCD files, who is connected, which WebSockets were closed. */
  datatype Net = Net(ccd: set<(Id, Cn)>, online: map<Id, seq<VPNClient>>, closed: set<Sid>)

  /** Instance.GetClients; None is a failed query. */
  function Listing(env: Env, net: Net, id: Id): Option<seq<VPNClient>> {
    if id in env.insts && id in env.reachable && id in net.online then Some(net.online[id]) else None
  }

  /** The session closeWSForCN finds in a listing: that of the first client of the name whose port can be read. */
  function Carrier(conns: map<Port, VpnConn>, clients: seq<VPNClient>, cn: Cn): Option<Sid> {
    if clients == [] then None
    else
      var port := SourcePort(clients[0].realAddr);
      if clients[0].commonName != cn || port == 0 then Carrier(conns, clients[1..], cn)
      else if port in conns then Some(conns[port].ws) else None
  }

  function ToClose(env: Env, net: Net, id: Id, cn: Cn): set<Sid> {
    var l := Listing(env, net, id);
    if l.None? then {}
    else
      var w := Carrier(env.conns, l.value, cn);
      if w.Some? then {w.value} else {}
  }

  /** The clients that stay when some names are killed. */
  function Without(clients: seq<VPNClient>, gone: set<Cn>): seq<VPNClient> {
    if clients == [] then []
    else (if clients[0].commonName in gone then [] else [clients[0]]) + Without(clients[1..], gone)
  }

  predicate Writes(env: Env, id: Id, cn: Cn) {
    ValidCN(cn) && id in env.insts && id in env.writable
  }

  predicate Kills(env: Env, id: Id, cn: Cn) {
    ValidCN(cn) && id in env.insts && id in env.reachable
  }

  /** A set of kicks, done in any order and any number of times each: what it comes to. */
  function Kicked(env: Env, net: Net, kicks: set<(Id, Cn)>): Net {
    Net(net.ccd + (set k | k in kicks && Writes(env, k.0, k.1)),
        map i | i in net.online :: Without(net.online[i], Gone(env, kicks, i)),
        net.closed + (set k, w | k in kicks && w in ToClose(env, net, k.0, k.1) :: w))
  }

  function Gone(env: Env, kicks: set<(Id, Cn)>, id: Id): set<Cn> {
    set k | k in kicks && k.0 == id && Kills(env, id, k.1) :: k.1
  }

  /** CCD write, WebSocket close, management kill. */
  function KickOne(env: Env, net: Net, id: Id, cn: Cn): Net {
    Net(if Writes(env, id, cn) then net.ccd + {(id, cn)} else net.ccd,
        if Kills(env, id, cn) && id in net.online then net.online[id := Without(net.online[id], {cn})] else net.online,
        net.closed + ToClose(env, net, id, cn))
  }

  lemma {:induction false} WithoutTwice(clients: seq<VPNClient>, gone: set<Cn>, more: set<Cn>)
    ensures Without(Without(clients, gone), more) == Without(clients, gone + more)
  {
    if clients == [] {
    } else {
      WithoutTwice(clients[1..], gone, more);
      if clients[0].commonName !in gone {
        var w := [clients[0]] + Without(clients[1..], gone);
        assert w[1..] == Without(clients[1..], gone);
      } else {
        assert [] + Without(clients[1..], gone) == Without(clients[1..], gone);
      }
    }
  }

  lemma {:induction false} WithoutNone(clients: seq<VPNClient>)
    ensures Without(clients, {}) == clients
  {
    if clients == [] {
    } else {
      WithoutNone(clients[1..]);
    }
  }

  /** Killing other names changes nothing for a name; killing the name leaves nothing to close. */
  lemma {:induction false} CarrierWithout(conns: map<Port, VpnConn>, clients: seq<VPNClient>, cn: Cn, gone: set<Cn>)
    ensures Carrier(conns, Without(clients, gone), cn) == if cn in gone then None else Carrier(conns, clients, cn)
  {
    if clients == [] {
    } else {
      CarrierWithout(conns, clients[1..], cn, gone);
      var rest := Without(clients[1..], gone);
      if clients[0].commonName !in gone {
        assert ([clients[0]] + rest)[1..] == rest;
      } else {
        assert [] + rest == rest;
      }
    }
  }

  lemma {:induction false} StaysIffNotGone(clients: seq<VPNClient>, gone: set<Cn>, c: VPNClient)
    ensures c in Without(clients, gone) <==> c in clients && c.commonName !in gone
  {
    if clients == [] {
    } else {
      StaysIffNotGone(clients[1..], gone, c);
      assert clients == [clients[0]] + clients[1..];
    }
  }

  /** No kicks. */
  lemma KickedNone(env: Env, net: Net)
    ensures Kicked(env, net, {}) == net
  {
    forall i | i in net.online
      ensures Without(net.online[i], Gone(env, {}, i)) == net.online[i]
    {
      assert Gone(env, {}, i) == {};
      WithoutNone(net.online[i]);
    }
    assert Kicked(env, net, {}).online == net.online;
  }

  /** One more kick, perhaps a repeated one. */
  lemma KickedMore(env: Env, net: Net, kicks: set<(Id, Cn)>, id: Id, cn: Cn)
    ensures KickOne(env, Kicked(env, net, kicks), id, cn) == Kicked(env, net, kicks + {(id, cn)})
  {
    KickedOnline(env, net, kicks, id, cn);
    KickedClosed(env, net, kicks, id, cn);
  }

  /** A kick alone. */
  lemma KickedOnce(env: Env, net: Net, id: Id, cn: Cn)
    ensures KickOne(env, net, id, cn) == Kicked(env, net, {(id, cn)})
  {
    KickedNone(env, net);
    KickedMore(env, net, {}, id, cn);
    assert {} + {(id, cn)} == {(id, cn)};
  }

  lemma GoneMore(env: Env, kicks: set<(Id, Cn)>, id: Id, cn: Cn, i: Id)
    ensures Gone(env, kicks + {(id, cn)}, i) ==
            Gone(env, kicks, i) + if i == id && Kills(env, id, cn) then {cn} else {}
  {
    assert (id, cn) in kicks + {(id, cn)};
  }

  lemma KickedOnlineAt(env: Env, net: Net, kicks: set<(Id, Cn)>, id: Id, cn: Cn, i: Id)
    requires i in net.online
    ensures KickOne(env, Kicked(env, net, kicks), id, cn).online[i] == Kicked(env, net, kicks + {(id, cn)}).online[i]
  {
    GoneMore(env, kicks, id, cn, i);
    if i == id && Kills(env, id, cn) {
      WithoutTwice(net.online[i], Gone(env, kicks, i), {cn});
    } else {
      assert Gone(env, kicks, i) + {} == Gone(env, kicks, i);
    }
  }

  lemma KickedOnline(env: Env, net: Net, kicks: set<(Id, Cn)>, id: Id, cn: Cn)
    ensures KickOne(env, Kicked(env, net, kicks), id, cn).online == Kicked(env, net, kicks + {(id, cn)}).online
  {
    var one := KickOne(env, Kicked(env, net, kicks), id, cn).online;
    var next := Kicked(env, net, kicks + {(id, cn)}).online;
    assert one.Keys == net.online.Keys == next.Keys;
    forall i | i in net.online
      ensures one[i] == next[i]
    {
      KickedOnlineAt(env, net, kicks, id, cn, i);
    }
  }

  lemma KickedClosed(env: Env, net: Net, kicks: set<(Id, Cn)>, id: Id, cn: Cn)
    ensures KickOne(env, Kicked(env, net, kicks), id, cn).closed == Kicked(env, net, kicks + {(id, cn)}).closed
  {
    var now, all := Kicked(env, net, kicks), kicks + {(id, cn)};
    if id in net.online {
      CarrierWithout(env.conns, net.online[id], cn, Gone(env, kicks, id));
    }
    assert ToClose(env, now, id, cn) == if cn in Gone(env, kicks, id) then {} else ToClose(env, net, id, cn);
    assert cn in Gone(env, kicks, id) ==> (id, cn) in kicks;
  }

  // ---------- Who is kicked ----------

  /** The ports registered for an HTTP client's IP. */
  function PortsOfIP(conns: map<Port, VpnConn>, ip: string): set<int> {
    set p | p in conns && conns[p].httpClientIP == ip :: p
  }

  function Names(id: Id, clients: seq<VPNClient>, ports: set<int>): set<(Id, Cn)> {
    set c | c in clients && SourcePort(c.realAddr) in ports :: (id, c.commonName)
  }

  /** The ban of an IP is after these: the names of the listed clients of running instances that come from it. */
  function Banned(env: Env, net: Net, ids: set<Id>, ip: string): set<(Id, Cn)> {
    set i, k |
      i in ids && i in env.insts && env.insts[i].running && Listing(env, net, i).Some?
      && k in Names(i, Listing(env, net, i).value, PortsOfIP(env.conns, ip)) :: k
  }

  const SECOND: int := 1_000_000_000
  const MIN_INT64: int := -0x8000_0000_0000_0000
  const ZERO_TIME: int := -62135596800           // the zero time.Time, in Unix seconds

  /** The int64 a product leaves. */
  function Wrap64(x: int): (r: int)
    ensures MIN_INT64 <= r <= MAX_INT64
  {
    (x - MIN_INT64) % 0x1_0000_0000_0000_0000 + MIN_INT64
  }

  /** time.Time.Sub saturates. */
  function Sat64(x: int): int {
    if x > MAX_INT64 then MAX_INT64 else if x < MIN_INT64 then MIN_INT64 else x
  }

  function EffectiveTimeout(inst: Inst, configTimeout: int, cn: Cn): int {
    if cn in inst.clientTimeouts && inst.clientTimeouts[cn] > 0 then inst.clientTimeouts[cn] else configTimeout
  }

  /** now: nanoseconds since 1970. */
  function Age(now: int, c: VPNClient): int {
    now - SECOND * (if c.connectedAt.Some? then c.connectedAt.value else ZERO_TIME)
  }

  predicate Overdue(now: int, c: VPNClient, limit: int) {
    limit > 0 && Sat64(Age(now, c)) > Wrap64(limit * SECOND)
  }

  function Late(id: Id, inst: Inst, configTimeout: int, now: int, clients: seq<VPNClient>): set<(Id, Cn)> {
    set c | c in clients && Overdue(now, c, EffectiveTimeout(inst, configTimeout, c.commonName)) :: (id, c.commonName)
  }

  /** The names a timeout pass selects. */
  function TimedOut(env: Env, net: Net, ids: set<Id>, configTimeout: int, now: int): set<(Id, Cn)> {
    set i, k |
      i in ids && i in env.insts && env.insts[i].running && Listing(env, net, i).Some?
      && k in Late(i, env.insts[i], configTimeout, now, Listing(env, net, i).value) :: k
  }

  /** A client as the administrator sees it: with the HTTP client's IP, when its source port is registered. */
  function Filled(conns: map<Port, VpnConn>, c: VPNClient): VPNClient {
    var port := SourcePort(c.realAddr);
    if port != 0 && port in conns then c.(realAddr := conns[port].httpClientIP) else c
  }

  function FilledAll(conns: map<Port, VpnConn>, cs: seq<VPNClient>): (filled: seq<VPNClient>)
    ensures |filled| == |cs| && forall k :: 0 <= k < |cs| ==> filled[k] == Filled(conns, cs[k])
  {
    seq(|cs|, k requires 0 <= k < |cs| => Filled(conns, cs[k]))
  }

  /** The first i clients are filled, the others as they were. */
  predicate FilledUpTo(all: seq<VPNClient>, was: seq<VPNClient>, now: seq<VPNClient>, i: nat) {
    && i <= |all| == |was| == |now|
    && (forall k :: 0 <= k < i ==> now[k] == all[k]) && forall k :: i <= k < |was| ==> now[k] == was[k]
  }

  lemma FilledEnd(all: seq<VPNClient>, was: seq<VPNClient>, now: seq<VPNClient>)
    requires FilledUpTo(all, was, now, |was|)
    ensures now == all
  {}

  /** Which clients are shown with another address, and which. */
  lemma FilledEach(conns: map<Port, VpnConn>, cs: seq<VPNClient>, k: nat)
    requires k < |cs|
    ensures var port := SourcePort(cs[k].realAddr);
            FilledAll(conns, cs)[k] ==
            if port != 0 && port in conns then cs[k].(realAddr := conns[port].httpClientIP) else cs[k]
  {}

  lemma FilledAsShown(conns: map<Port, VpnConn>, cs: seq<VPNClient>)
    ensures forall k :: 0 <= k < |cs| ==>
              var port := SourcePort(cs[k].realAddr);
              FilledAll(conns, cs)[k] ==
              if port != 0 && port in conns then cs[k].(realAddr := conns[port].httpClientIP) else cs[k]
  {
    forall k | 0 <= k < |cs|
      ensures FilledAll(conns, cs)[k] == Filled(conns, cs[k])
    {
      FilledEach(conns, cs, k);
    }
  }

  predicate NoRepeats<T(==)>(s: seq<T>) {
    forall a, b :: 0 <= a < b < |s| ==> s[a] != s[b]
  }

  lemma NoRepeatsMore<T>(s: seq<T>, x: T)
    requires NoRepeats(s) && x !in SetOf(s)
    ensures NoRepeats(s + [x])
  {
    forall a, b | 0 <= a < b < |s + [x]|
      ensures (s + [x])[a] != (s + [x])[b]
    {
      assert a < |s| && s[a] in SetOf(s);
    }
  }

  /** How many of some ports are registered for an instance. */
  function Counted(conns: map<Port, VpnConn>, ports: set<Port>, id: Id): nat {
    |PortsOn(conns, id) * ports|
  }

  /** One more port looked at. */
  lemma CountMore(conns: map<Port, VpnConn>, todo: set<Port>, p: Port, id: Id)
    requires p in todo && todo <= conns.Keys
    ensures Counted(conns, conns.Keys - (todo - {p}), id) ==
            Counted(conns, conns.Keys - todo, id) + if conns[p].instanceID == id then 1 else 0
  {
    var before, after := PortsOn(conns, id) * (conns.Keys - todo), PortsOn(conns, id) * (conns.Keys - (todo - {p}));
    assert after == if conns[p].instanceID == id then before + {p} else before;
  }

  lemma CountEnds(conns: map<Port, VpnConn>, id: Id)
    ensures Counted(conns, conns.Keys - conns.Keys, id) == 0
    ensures Counted(conns, conns.Keys - {}, id) == |set p | p in conns && conns[p].instanceID == id|
  {
    assert PortsOn(conns, id) * (conns.Keys - conns.Keys) == {};
    assert PortsOn(conns, id) * (conns.Keys - {}) == set p | p in conns && conns[p].instanceID == id;
  }

  lemma NoNames(id: Id, clients: seq<VPNClient>, ports: set<int>, kicks: set<(Id, Cn)>)
    ensures kicks + Names(id, clients[..0], ports) == kicks && clients[..|clients|] == clients
  {}

  lemma NamesMore(id: Id, clients: seq<VPNClient>, c: VPNClient, ports: set<int>)
    ensures Names(id, clients + [c], ports) ==
            Names(id, clients, ports) + if SourcePort(c.realAddr) in ports then {(id, c.commonName)} else {}
  {
    assert c in clients + [c];
  }

  lemma LateMore(id: Id, inst: Inst, configTimeout: int, now: int, clients: seq<VPNClient>, c: VPNClient)
    ensures Late(id, inst, configTimeout, now, clients + [c]) ==
            Late(id, inst, configTimeout, now, clients)
            + if Overdue(now, c, EffectiveTimeout(inst, configTimeout, c.commonName)) then {(id, c.commonName)} else {}
  {
    assert c in clients + [c];
  }

  function SetOf<T>(s: seq<T>): set<T> {
    set x | x in s
  }

  lemma SetOfBoth<T>(a: seq<T>, b: seq<T>)
    ensures SetOf(a + b) == SetOf(a) + SetOf(b)
    ensures |b| == 1 ==> SetOf(b) == {b[0]}
  {}

  lemma BannedMore(env: Env, net: Net, ids: set<Id>, id: Id, ip: string)
    requires id in env.insts
    ensures Banned(env, net, ids + {id}, ip) == Banned(env, net, ids, ip)
            + if env.insts[id].running && Listing(env, net, id).Some?
              then Names(id, Listing(env, net, id).value, PortsOfIP(env.conns, ip)) else {}
  {}

  lemma BannedNone(env: Env, net: Net, ids: set<Id>, ip: string)
    requires ids == {} || PortsOfIP(env.conns, ip) == {}
    ensures Banned(env, net, ids, ip) == {}
  {}

  lemma TimedOutMore(env: Env, net: Net, ids: set<Id>, id: Id, configTimeout: int, now: int)
    requires id in env.insts
    ensures TimedOut(env, net, ids + {id}, configTimeout, now) == TimedOut(env, net, ids, configTimeout, now)
            + if env.insts[id].running && Listing(env, net, id).Some?
              then Late(id, env.insts[id], configTimeout, now, Listing(env, net, id).value) else {}
  {}

  /** A pass has not touched the clients of an instance it has not come to. */
  lemma Untouched(env: Env, net: Net, ids: set<Id>, id: Id, ip: string)
    requires id !in ids && id in net.online
    ensures Kicked(env, net, Banned(env, net, ids, ip)).online[id] == net.online[id]
  {
    assert Gone(env, Banned(env, net, ids, ip), id) == {};
    WithoutNone(net.online[id]);
  }

  // ---------- Handler ----------

  class Handler {
    var conns: map<Port, VpnConn>
    // of the manager, Docker and OpenVPN
    var insts: map<Id, Inst>
    var configTimeout: int
    var reachable: set<Id>
    var writable: set<Id>
    var ccd: set<(Id, Cn)>
    var online: map<Id, seq<VPNClient>>
    // of the WebSockets
    var closed: set<Sid>

    ghost function Setting(): Env
      reads this
    {
      Env(conns, insts, reachable, writable)
    }

    ghost function Effects(): Net
      reads this
    {
      Net(ccd, online, closed)
    }

    /** countConns: as many as the instance has ports registered. */
    method CountConns(id: Id) returns (n: nat)
      ensures n == |set p | p in conns && conns[p].instanceID == id|
    {
      n := 0;
      var todo := conns.Keys;
      CountEnds(conns, id);
      while todo != {}
        invariant todo <= conns.Keys && n == Counted(conns, conns.Keys - todo, id)
        decreases |todo|
      {
        var p :| p in todo;
        CountMore(conns, todo, p, id);
        if conns[p].instanceID == id {
          n := n + 1;
        }
        todo := todo - {p};
      }
    }

    /** One round of fillHTTPClientIPs. */
    method FillOne(c: VPNClient) returns (filled: VPNClient)
      ensures filled == Filled(conns, c)
    {
      filled := c;
      var hp := SplitHostPort(c.realAddr);
      if hp.None? {
        return;
      }
      var scanned := ScanInt(hp.value.1);
      var port := if scanned.Some? then scanned.value else 0;
      if port == 0 {
        return;
      }
      if port in conns {
        filled := c.(realAddr := conns[port].httpClientIP);
      }
    }

    /** fillHTTPClientIPs, in place: the address of a client whose port is registered, and nothing else, is replaced
        by that of the HTTP client. */
    method FillHTTPClientIPs(clients: array<VPNClient>)
      modifies clients
      ensures clients[..] == FilledAll(conns, old(clients[..]))
      ensures forall k :: 0 <= k < clients.Length ==>
                var c, port := old(clients[k]), SourcePort(old(clients[k]).realAddr);
                clients[k] == if port != 0 && port in conns then c.(realAddr := conns[port].httpClientIP) else c
    {
      ghost var was := clients[..];
      ghost var all := FilledAll(conns, was);
      for i := 0 to clients.Length
        invariant FilledUpTo(all, was, clients[..], i)
      {
        ghost var before := clients[..];
        assert before[i] == was[i];
        var filled := FillOne(clients[i]);
        clients[i] := filled;
        assert clients[..] == before[i := filled];
      }
      FilledEnd(all, was, clients[..]);
      forall k | 0 <= k < clients.Length
        ensures clients[k] == all[k] && was[k] == old(clients[k])
      {
        assert clients[k] == clients[..][k];
      }
      FilledAsShown(conns, was);
    }

    /** closeWSForCN */
    method CloseWSForCN(id: Id, cn: Cn)
      modifies this`closed
      ensures closed == old(closed) + ToClose(Setting(), old(Effects()), id, cn)
    {
      if id !in insts || id !in reachable || id !in online {
        return;
      }
      var clients := online[id];
      for i := 0 to |clients|
        invariant closed == old(closed)
        invariant Carrier(conns, clients[i..], cn) == Carrier(conns, clients, cn)
      {
        var c := clients[i];
        assert clients[i..][1..] == clients[i + 1..];
        if c.commonName != cn {
          continue;
        }
        var port := SourcePort(c.realAddr);
        if port == 0 {
          continue;
        }
        if port in conns {
          closed := closed + {conns[port].ws};
        }
        return;
      }
    }

    method DisableCN(id: Id, cn: Cn) returns (ok: bool)
      modifies this`ccd
      ensures ok == Writes(Setting(), id, cn) == (ValidCN(cn) && id in insts && id in writable)
      ensures ccd == if ok then old(ccd) + {(id, cn)} else old(ccd)
    {
      if !ValidCN(cn) || id !in insts || id !in writable {
        return false;
      }
      ccd := ccd + {(id, cn)};
      ok := true;
    }

    /** Manager.KickClient: the CCD file is written again, then the management interface kills the name. */
    method KickClient(id: Id, cn: Cn) returns (ok: bool)
      modifies this`ccd, this`online
      ensures ok == Kills(Setting(), id, cn) == (ValidCN(cn) && id in insts && id in reachable)
      ensures ccd == if Writes(Setting(), id, cn) then old(ccd) + {(id, cn)} else old(ccd)
      ensures online ==
              if ok && id in old(online) then old(online)[id := Without(old(online)[id], {cn})] else old(online)
    {
      if !ValidCN(cn) || id !in insts {
        return false;
      }
      if id in writable {
        ccd := ccd + {(id, cn)};
      }
      if id !in reachable {
        return false;
      }
      if id in online {
        online := online[id := Without(online[id], {cn})];
      }
      ok := true;
    }

    /** The three steps of a kick, in the order that keeps a client from coming back between them. */
    method Kick(id: Id, cn: Cn)
      modifies this`ccd, this`closed, this`online
      ensures Effects() == KickOne(Setting(), old(Effects()), id, cn)
    {
      var disabled := DisableCN(id, cn);
      CloseWSForCN(id, cn);
      var killed := KickClient(id, cn);
    }

    /** kickClient, the request: refused, and nothing done, when the CCD write fails. */
    method KickRequest(id: Id, cn: Cn) returns (ok: bool)
      modifies this`ccd, this`closed, this`online
      ensures ok == Writes(Setting(), id, cn) == (ValidCN(cn) && id in insts && id in writable)
      ensures Effects() == if ok then Kicked(Setting(), old(Effects()), {(id, cn)}) else old(Effects())
    {
      ok := DisableCN(id, cn);
      if ok {
        CloseWSForCN(id, cn);
        var killed := KickClient(id, cn);
        KickedOnce(Setting(), old(Effects()), id, cn);
      }
    }

    method PortSet(ip: string) returns (ports: set<int>)
      ensures ports == PortsOfIP(conns, ip)
    {
      ports := {};
      var todo := conns.Keys;
      while todo != {}
        invariant todo <= conns.Keys
        invariant ports == set p | p in conns && p !in todo && conns[p].httpClientIP == ip :: p
        decreases |todo|
      {
        var p :| p in todo;
        if conns[p].httpClientIP == ip {
          ports := ports + {p};
        }
        todo := todo - {p};
      }
    }

    /** A kick on top of others. */
    method KickNext(id: Id, cn: Cn, ghost was: Net, ghost kicks: set<(Id, Cn)>)
      requires Effects() == Kicked(Setting(), was, kicks)
      modifies this`ccd, this`closed, this`online
      ensures Effects() == Kicked(Setting(), was, kicks + {(id, cn)})
    {
      Kick(id, cn);
      KickedMore(Setting(), was, kicks, id, cn);
    }

    /** One listed client of a ban. */
    method KickIfFrom(id: Id, ports: set<int>, c: VPNClient, ghost was: Net, ghost kicks: set<(Id, Cn)>)
      requires Effects() == Kicked(Setting(), was, kicks)
      modifies this`ccd, this`closed, this`online
      ensures Effects() ==
              Kicked(Setting(), was, kicks + if SourcePort(c.realAddr) in ports then {(id, c.commonName)} else {})
    {
      if SourcePort(c.realAddr) in ports {
        KickNext(id, c.commonName, was, kicks);
      } else {
        assert kicks + {} == kicks;
      }
    }

    /** One instance of a ban: every listed client that comes from one of the ports. */
    method KickListed(id: Id, ports: set<int>, clients: seq<VPNClient>, ghost was: Net, ghost kicks: set<(Id, Cn)>)
      requires Effects() == Kicked(Setting(), was, kicks)
      modifies this`ccd, this`closed, this`online
      ensures Effects() == Kicked(Setting(), was, kicks + Names(id, clients, ports))
    {
      ghost var env, all := Setting(), kicks;
      NoNames(id, clients, ports, kicks);
      for i := 0 to |clients|
        invariant Setting() == env
        invariant all == kicks + Names(id, clients[..i], ports)
        invariant Effects() == Kicked(env, was, all)
      {
        var c := clients[i];
        assert clients[..i + 1] == clients[..i] + [c];
        NamesMore(id, clients[..i], c, ports);
        KickIfFrom(id, ports, c, was, all);
        all := all + if SourcePort(c.realAddr) in ports then {(id, c.commonName)} else {};
      }
    }

    /** The step of a ban for an instance that was not passed yet. */
    method KickInstance(id: Id, ip: string, ports: set<int>, ghost was: Net, ghost passed: set<Id>)
      requires id in insts && id !in passed && ports == PortsOfIP(conns, ip)
      requires Effects() == Kicked(Setting(), was, Banned(Setting(), was, passed, ip))
      modifies this`ccd, this`closed, this`online
      ensures Effects() == Kicked(Setting(), was, Banned(Setting(), was, passed + {id}, ip))
    {
      BannedMore(Setting(), was, passed, id, ip);
      if insts[id].running && id in reachable && id in online {
        Untouched(Setting(), was, passed, id, ip);
        KickListed(id, ports, online[id], was, Banned(Setting(), was, passed, ip));
      } else {
        assert Banned(Setting(), was, passed, ip) + {} == Banned(Setting(), was, passed, ip);
      }
    }

    /** Manager.ListInstances: the instances, in the order the map yields them. */
    method ListInstances() returns (ids: seq<Id>)
      ensures SetOf(ids) == insts.Keys && NoRepeats(ids)
    {
      ids := [];
      var todo := insts.Keys;
      while todo != {}
        invariant todo + SetOf(ids) == insts.Keys && todo !! SetOf(ids) && NoRepeats(ids)
        decreases |todo|
      {
        var id :| id in todo;
        SetOfBoth(ids, [id]);
        NoRepeatsMore(ids, id);
        todo, ids := todo - {id}, ids + [id];
      }
    }

    method KickInstances(ip: string, ports: set<int>, ids: seq<Id>)
      requires ports == PortsOfIP(conns, ip)
      requires forall a :: 0 <= a < |ids| ==> ids[a] in insts
      requires NoRepeats(ids)
      modifies this`ccd, this`closed, this`online
      ensures Effects() == Kicked(Setting(), old(Effects()), Banned(Setting(), old(Effects()), SetOf(ids), ip))
    {
      ghost var was := Effects();
      ghost var passed: set<Id> := {};
      KickedNone(Setting(), was);
      BannedNone(Setting(), was, passed, ip);
      for i := 0 to |ids|
        invariant passed == SetOf(ids[..i])
        invariant Effects() == Kicked(Setting(), was, Banned(Setting(), was, passed, ip))
      {
        KickInstance(ids[i], ip, ports, was, passed);
        SetOfBoth(ids[..i], [ids[i]]);
        assert ids[..i + 1] == ids[..i] + [ids[i]];
        passed := passed + {ids[i]};
      }
      assert ids[..|ids|] == ids;
    }

    /** kickVPNClientsByHTTPIP: exactly the banned are kicked, whatever order the instances come in. */
    method KickVPNClientsByHTTPIP(ip: string)
      modifies this`ccd, this`closed, this`online
      ensures Effects() == Kicked(Setting(), old(Effects()), Banned(Setting(), old(Effects()), insts.Keys, ip))
    {
      var ports := PortSet(ip);
      if ports == {} {
        KickedNone(Setting(), Effects());
        BannedNone(Setting(), Effects(), insts.Keys, ip);
        return;
      }
      var ids := ListInstances();
      KickInstances(ip, ports, ids);
    }

    /** The first half of enforceTimeouts for one instance. */
    method SelectLate(id: Id, now: int, clients: seq<VPNClient>) returns (kicks: seq<(Id, Cn)>)
      requires id in insts
      ensures SetOf(kicks) == Late(id, insts[id], configTimeout, now, clients)
    {
      kicks := [];
      for i := 0 to |clients|
        invariant SetOf(kicks) == Late(id, insts[id], configTimeout, now, clients[..i])
      {
        var c := clients[i];
        assert clients[..i + 1] == clients[..i] + [c];
        LateMore(id, insts[id], configTimeout, now, clients[..i], c);
        var limit := EffectiveTimeout(insts[id], configTimeout, c.commonName);
        if limit <= 0 {
          continue;
        }
        if Sat64(Age(now, c)) > Wrap64(limit * SECOND) {
          SetOfBoth(kicks, [(id, c.commonName)]);
          kicks := kicks + [(id, c.commonName)];
        }
      }
      assert clients[..|clients|] == clients;
    }

    /** And for one more instance. */
    method SelectMore(id: Id, now: int, given: seq<(Id, Cn)>, ghost passed: set<Id>) returns (kicks: seq<(Id, Cn)>)
      requires id in insts && SetOf(given) == TimedOut(Setting(), Effects(), passed, configTimeout, now)
      ensures SetOf(kicks) == TimedOut(Setting(), Effects(), passed + {id}, configTimeout, now)
    {
      kicks := given;
      TimedOutMore(Setting(), Effects(), passed, id, configTimeout, now);
      if insts[id].running && id in reachable && id in online {
        var more := SelectLate(id, now, online[id]);
        SetOfBoth(kicks, more);
        kicks := kicks + more;
      }
    }

    method SelectTimedOut(now: int) returns (kicks: seq<(Id, Cn)>)
      ensures SetOf(kicks) == TimedOut(Setting(), Effects(), insts.Keys, configTimeout, now)
    {
      kicks := [];
      var todo := insts.Keys;
      ghost var passed: set<Id> := {};
      while todo != {}
        invariant todo + passed == insts.Keys && todo !! passed
        invariant SetOf(kicks) == TimedOut(Setting(), Effects(), passed, configTimeout, now)
        decreases |todo|
      {
        var id :| id in todo;
        kicks := SelectMore(id, now, kicks, passed);
        todo, passed := todo - {id}, passed + {id};
      }
      assert passed == insts.Keys;
    }

    /** enforceTimeouts: first all overdue clients are selected, then each is kicked. */
    method EnforceTimeouts(now: int)
      modifies this`ccd, this`closed, this`online
      ensures Effects() ==
              Kicked(Setting(), old(Effects()), TimedOut(Setting(), old(Effects()), insts.Keys, configTimeout, now))
    {
      ghost var env, was := Setting(), Effects();
      var kicks := SelectTimedOut(now);
      KickedNone(env, was);
      assert SetOf(kicks[..0]) == {};
      for i := 0 to |kicks|
        invariant Setting() == env && configTimeout == old(configTimeout)
        invariant Effects() == Kicked(env, was, SetOf(kicks[..i]))
      {
        var (id, cn) := kicks[i];
        KickNext(id, cn, was, SetOf(kicks[..i]));
        SetOfBoth(kicks[..i], [(id, cn)]);
        assert kicks[..i + 1] == kicks[..i] + [(id, cn)];
      }
      assert kicks[..|kicks|] == kicks;
    }
  }

  // ---------- What the passes come to ----------

  /** Kicks after kicks are those kicks together. */
  lemma {:induction false} KickedTwice(env: Env, net: Net, kicks: set<(Id, Cn)>, more: set<(Id, Cn)>)
    ensures Kicked(env, Kicked(env, net, kicks), more) == Kicked(env, net, kicks + more)
    decreases |more|
  {
    if more == {} {
      KickedNone(env, Kicked(env, net, kicks));
      assert kicks + {} == kicks;
    } else {
      var k :| k in more;
      var rest := more - {k};
      KickedTwice(env, net, kicks, rest);
      KickedMore(env, Kicked(env, net, kicks), rest, k.0, k.1);
      KickedMore(env, net, kicks + rest, k.0, k.1);
      assert rest + {(k.0, k.1)} == more;
      assert (kicks + rest) + {(k.0, k.1)} == kicks + more;
    }
  }

  predicate IsListed(net: Net, id: Id, cn: Cn) {
    id in net.online && exists c :: c in net.online[id] && c.commonName == cn
  }

  /** A kick over HTTP that answers success has removed the client if and only if the management port answered or no
      client of the name was connected. */
  lemma KickRemovesIff(env: Env, net: Net, id: Id, cn: Cn)
    requires Writes(env, id, cn)
    ensures !IsListed(Kicked(env, net, {(id, cn)}), id, cn) <==> id in env.reachable || !IsListed(net, id, cn)
  {
    if id in net.online {
      var kicks := {(id, cn)};
      assert Gone(env, kicks, id) == if id in env.reachable then {cn} else {};
      forall c
        ensures c in Without(net.online[id], Gone(env, kicks, id)) <==>
                c in net.online[id] && c.commonName !in Gone(env, kicks, id)
      {
        StaysIffNotGone(net.online[id], Gone(env, kicks, id), c);
      }
    }
  }

  /** An instance of the failure: the CCD file is written, so the request succeeds, and the client stays. */
  lemma KickedYetConnected(id: Id, c: VPNClient)
    requires ValidCN(c.commonName)
    ensures var env, net := Env(map[], map[id := Inst(true, map[])], {}, {id}), Net({}, map[id := [c]], {});
            Writes(env, id, c.commonName) && IsListed(Kicked(env, net, {(id, c.commonName)}), id, c.commonName)
  {
    var env, net := Env(map[], map[id := Inst(true, map[])], {}, {id}), Net({}, map[id := [c]], {});
    assert c in net.online[id];
    KickRemovesIff(env, net, id, c.commonName);
  }

  /** A client of a running instance whose management port answers. */
  predicate InListing(env: Env, net: Net, id: Id, c: VPNClient) {
    id in env.insts && env.insts[id].running && Listing(env, net, id).Some? && c in net.online[id]
  }

  /** Its source port is registered for an IP. */
  predicate ComesFrom(env: Env, c: VPNClient, ip: string) {
    var p := SourcePort(c.realAddr);
    p in env.conns && env.conns[p].httpClientIP == ip
  }

  predicate Hit(env: Env, net: Net, id: Id, cn: Cn, ip: string) {
    id in net.online && exists c :: c in net.online[id] && InListing(env, net, id, c) && c.commonName == cn && ComesFrom(env, c, ip)
  }

  lemma BannedIffHit(env: Env, net: Net, ip: string, id: Id, cn: Cn)
    ensures (id, cn) in Banned(env, net, env.insts.Keys, ip) <==> Hit(env, net, id, cn, ip)
  {
    if Hit(env, net, id, cn, ip) {
      var c :| c in net.online[id] && InListing(env, net, id, c) && c.commonName == cn && ComesFrom(env, c, ip);
      assert SourcePort(c.realAddr) in PortsOfIP(env.conns, ip);
      assert (id, cn) in Names(id, net.online[id], PortsOfIP(env.conns, ip));
    }
    if (id, cn) in Banned(env, net, env.insts.Keys, ip) {
      var ids := env.insts.Keys;
      var i :| i in ids && i in env.insts && env.insts[i].running && Listing(env, net, i).Some?
               && (id, cn) in Names(i, Listing(env, net, i).value, PortsOfIP(env.conns, ip));
      var c :| c in Listing(env, net, i).value && SourcePort(c.realAddr) in PortsOfIP(env.conns, ip) && (i, c.commonName) == (id, cn);
      assert InListing(env, net, id, c) && ComesFrom(env, c, ip);
    }
  }

  /** Whom a ban is after: the names of clients listed by a running instance whose management port answers, with a
      source port under which the map has the IP. */
  lemma BannedExact(env: Env, net: Net, ip: string, id: Id, cn: Cn)
    ensures (id, cn) in Banned(env, net, env.insts.Keys, ip) <==>
            id in env.insts && env.insts[id].running && id in env.reachable && id in net.online &&
            exists k :: 0 <= k < |net.online[id]| && net.online[id][k].commonName == cn &&
                        SourcePort(net.online[id][k].realAddr) in env.conns &&
                        env.conns[SourcePort(net.online[id][k].realAddr)].httpClientIP == ip
  {
    BannedIffHit(env, net, ip, id, cn);
    if id in env.insts && env.insts[id].running && id in env.reachable && id in net.online {
      var l := net.online[id];
      if k :| 0 <= k < |l| && l[k].commonName == cn && SourcePort(l[k].realAddr) in env.conns &&
              env.conns[SourcePort(l[k].realAddr)].httpClientIP == ip {
        assert l[k] in l && InListing(env, net, id, l[k]) && ComesFrom(env, l[k], ip);
      }
    }
  }

  /** A ban is exact, for every name of every instance: its CCD entry becomes or stays disabled if and only if it
      was, or the name is valid, its directory takes writes, and it is that of a listed client from the IP. */
  lemma BanDisables(env: Env, net: Net, ip: string, id: Id, cn: Cn)
    ensures (id, cn) in Kicked(env, net, Banned(env, net, env.insts.Keys, ip)).ccd <==>
            (id, cn) in net.ccd || (Writes(env, id, cn) && Hit(env, net, id, cn, ip))
  {
    BannedIffHit(env, net, ip, id, cn);
  }

  /** And for every client: it is killed if and only if it has such a name. */
  lemma BanKills(env: Env, net: Net, ip: string, id: Id, c: VPNClient)
    requires id in net.online
    ensures c in Kicked(env, net, Banned(env, net, env.insts.Keys, ip)).online[id] <==>
            c in net.online[id] && !(ValidCN(c.commonName) && Hit(env, net, id, c.commonName, ip))
  {
    var kicks := Banned(env, net, env.insts.Keys, ip);
    BannedIffHit(env, net, ip, id, c.commonName);
    StaysIffNotGone(net.online[id], Gone(env, kicks, id), c);
    assert c.commonName in Gone(env, kicks, id) <==> (id, c.commonName) in kicks && Kills(env, id, c.commonName);
  }

  /** No name is listed twice by one instance. */
  predicate NamesOnce(clients: seq<VPNClient>) {
    forall a, b :: 0 <= a < b < |clients| ==> clients[a].commonName != clients[b].commonName
  }

  lemma {:induction false} CarrierOfOnly(conns: map<Port, VpnConn>, clients: seq<VPNClient>, c: VPNClient)
    requires NamesOnce(clients) && c in clients
    ensures var p := SourcePort(c.realAddr);
            Carrier(conns, clients, c.commonName) == if p != 0 && p in conns then Some(conns[p].ws) else None
  {
    if clients[0] == c {
      if SourcePort(c.realAddr) == 0 {
        CarrierOfNone(conns, clients[1..], c.commonName);
      }
    } else {
      var k :| 0 <= k < |clients| && clients[k] == c;
      assert clients[0].commonName != clients[k].commonName;
      assert clients[1..][k - 1] == c;
      CarrierOfOnly(conns, clients[1..], c);
    }
  }

  lemma {:induction false} CarrierOfNone(conns: map<Port, VpnConn>, clients: seq<VPNClient>, cn: Cn)
    requires forall k :: 0 <= k < |clients| ==> clients[k].commonName != cn
    ensures Carrier(conns, clients, cn) == None
  {
    if clients == [] {
    } else {
      CarrierOfNone(conns, clients[1..], cn);
    }
  }

  /** Some listed client from the IP is carried by the session. */
  ghost predicate CarriesFrom(env: Env, net: Net, ip: string, w: Sid) {
    exists id, c :: InListing(env, net, id, c) && ComesFrom(env, c, ip) && env.conns[SourcePort(c.realAddr)].ws == w
  }

  /** In a listing without repeated names, a hit name's session is that of the client from the IP. */
  lemma HitCloses(env: Env, net: Net, ip: string, id: Id, c: VPNClient)
    requires id in net.online && NamesOnce(net.online[id]) && 0 !in env.conns
    requires InListing(env, net, id, c) && ComesFrom(env, c, ip)
    ensures ToClose(env, net, id, c.commonName) == {env.conns[SourcePort(c.realAddr)].ws}
    ensures (id, c.commonName) in Banned(env, net, env.insts.Keys, ip)
  {
    CarrierOfOnly(env.conns, net.online[id], c);
    BannedIffHit(env, net, ip, id, c.commonName);
  }

  /** Where no name is listed twice, the WebSockets a ban closes are exactly those that carry a listed client from
      the IP.  Port 0 is never registered. */
  lemma BanCloses(env: Env, net: Net, ip: string, w: Sid)
    requires forall id :: id in net.online ==> NamesOnce(net.online[id])
    requires 0 !in env.conns
    ensures w in Kicked(env, net, Banned(env, net, env.insts.Keys, ip)).closed <==>
            w in net.closed || CarriesFrom(env, net, ip, w)
  {
    if CarriesFrom(env, net, ip, w) {
      var id, c :| InListing(env, net, id, c) && ComesFrom(env, c, ip) && env.conns[SourcePort(c.realAddr)].ws == w;
      HitCloses(env, net, ip, id, c);
      assert w in ToClose(env, net, id, c.commonName);
    }
    var kicks := Banned(env, net, env.insts.Keys, ip);
    if w in Kicked(env, net, kicks).closed && w !in net.closed {
      var k :| k in kicks && w in ToClose(env, net, k.0, k.1);
      ClosedCarries(env, net, ip, k, w);
    }
  }

  lemma ClosedCarries(env: Env, net: Net, ip: string, k: (Id, Cn), w: Sid)
    requires forall id :: id in net.online ==> NamesOnce(net.online[id])
    requires 0 !in env.conns
    requires k in Banned(env, net, env.insts.Keys, ip) && w in ToClose(env, net, k.0, k.1)
    ensures CarriesFrom(env, net, ip, w)
  {
    BannedIffHit(env, net, ip, k.0, k.1);
    var c :| c in net.online[k.0] && InListing(env, net, k.0, c) && c.commonName == k.1 && ComesFrom(env, c, ip);
    HitCloses(env, net, ip, k.0, c);
  }

  /** Different listed clients are carried by different sessions. */
  ghost predicate OwnSessions(env: Env, net: Net) {
    forall i, c, j, d :: InListing(env, net, i, c) && InListing(env, net, j, d) && SameSession(env, c, d) ==> i == j && c == d
  }

  predicate SameSession(env: Env, c: VPNClient, d: VPNClient) {
    var p, q := SourcePort(c.realAddr), SourcePort(d.realAddr);
    p in env.conns && q in env.conns && env.conns[p].ws == env.conns[q].ws
  }

  /** The i-th is the first listed client of its name whose port can be read. */
  predicate FirstReadable(clients: seq<VPNClient>, i: nat) {
    i < |clients| && SourcePort(clients[i].realAddr) != 0 &&
    forall j :: 0 <= j < i && clients[j].commonName == clients[i].commonName ==> SourcePort(clients[j].realAddr) == 0
  }

  predicate First(clients: seq<VPNClient>, c: VPNClient) {
    exists i :: 0 <= i < |clients| && clients[i] == c && FirstReadable(clients, i)
  }

  /** Every listed client from the IP is the first of its name in the listing whose port can be read. */
  ghost predicate FoundFirst(env: Env, net: Net, ip: string) {
    forall id, c :: InListing(env, net, id, c) && ComesFrom(env, c, ip) ==> First(net.online[id], c)
  }

  /** Every listed client from the IP is on the session its name leads to. */
  ghost predicate LeadsBack(env: Env, net: Net, ip: string) {
    forall id, c :: InListing(env, net, id, c) && ComesFrom(env, c, ip) ==>
      Carrier(env.conns, net.online[id], c.commonName) == Some(env.conns[SourcePort(c.realAddr)].ws)
  }

  lemma {:induction false} CarrierOfFirst(conns: map<Port, VpnConn>, clients: seq<VPNClient>, i: nat)
    requires FirstReadable(clients, i)
    ensures var p := SourcePort(clients[i].realAddr);
            Carrier(conns, clients, clients[i].commonName) == if p in conns then Some(conns[p].ws) else None
  {
    if i == 0 {
    } else {
      var rest := clients[1..];
      forall j | 0 <= j < i - 1 && rest[j].commonName == rest[i - 1].commonName
        ensures SourcePort(rest[j].realAddr) == 0
      {
        assert rest[j] == clients[j + 1];
      }
      CarrierOfFirst(conns, rest, i - 1);
      assert clients[0].commonName == clients[i].commonName ==> SourcePort(clients[0].realAddr) == 0;
    }
  }

  lemma FirstBehind(clients: seq<VPNClient>, k: nat)
    requires clients != [] && FirstReadable(clients[1..], k)
    requires clients[0].commonName == clients[1..][k].commonName ==> SourcePort(clients[0].realAddr) == 0
    ensures FirstReadable(clients, k + 1) && clients[k + 1] == clients[1..][k]
  {
    forall j | 0 <= j < k + 1 && clients[j].commonName == clients[k + 1].commonName
      ensures SourcePort(clients[j].realAddr) == 0
    {
      if j > 0 {
        assert clients[j] == clients[1..][j - 1];
      }
    }
  }

  lemma {:induction false} FirstOfCarrier(conns: map<Port, VpnConn>, clients: seq<VPNClient>, cn: Cn) returns (i: nat)
    requires Carrier(conns, clients, cn).Some?
    ensures FirstReadable(clients, i) && clients[i].commonName == cn
  {
    if clients[0].commonName == cn && SourcePort(clients[0].realAddr) != 0 {
      i := 0;
    } else {
      var k := FirstOfCarrier(conns, clients[1..], cn);
      i := k + 1;
      FirstBehind(clients, k);
    }
  }

  /** What closing by name comes to: where the management port answers, the WebSocket under the port of the first listed
      client of the name whose port can be read, if that port is registered. */
  lemma ClosedByName(env: Env, net: Net, id: Id, cn: Cn, w: Sid)
    ensures w in ToClose(env, net, id, cn) <==>
            id in env.insts && id in env.reachable && id in net.online &&
            exists i :: 0 <= i < |net.online[id]| && FirstReadable(net.online[id], i) && net.online[id][i].commonName == cn
                        && SourcePort(net.online[id][i].realAddr) in env.conns
                        && env.conns[SourcePort(net.online[id][i].realAddr)].ws == w
  {
    if id in env.insts && id in env.reachable && id in net.online {
      var clients := net.online[id];
      if Carrier(env.conns, clients, cn).Some? {
        var i := FirstOfCarrier(env.conns, clients, cn);
        CarrierOfFirst(env.conns, clients, i);
      }
      if i :| 0 <= i < |clients| && FirstReadable(clients, i) && clients[i].commonName == cn
              && SourcePort(clients[i].realAddr) in env.conns && env.conns[SourcePort(clients[i].realAddr)].ws == w {
        CarrierOfFirst(env.conns, clients, i);
      }
    }
  }

  /** With clients on sessions of their own the two say the same. */
  lemma FoundIffLeads(env: Env, net: Net, ip: string)
    requires OwnSessions(env, net)
    ensures FoundFirst(env, net, ip) <==> LeadsBack(env, net, ip)
  {
    forall id, c | InListing(env, net, id, c) && ComesFrom(env, c, ip)
      ensures First(net.online[id], c) <==>
              Carrier(env.conns, net.online[id], c.commonName) == Some(env.conns[SourcePort(c.realAddr)].ws)
    {
      FirstIffCarrier(env, net, id, c);
    }
  }

  lemma FirstIffCarrier(env: Env, net: Net, id: Id, c: VPNClient)
    requires OwnSessions(env, net) && InListing(env, net, id, c) && SourcePort(c.realAddr) in env.conns
    ensures First(net.online[id], c) <==>
            Carrier(env.conns, net.online[id], c.commonName) == Some(env.conns[SourcePort(c.realAddr)].ws)
  {
    var clients := net.online[id];
    if First(clients, c) {
      var i :| 0 <= i < |clients| && clients[i] == c && FirstReadable(clients, i);
      CarrierOfFirst(env.conns, clients, i);
    }
    if Carrier(env.conns, clients, c.commonName) == Some(env.conns[SourcePort(c.realAddr)].ws) {
      var i := FirstOfCarrier(env.conns, clients, c.commonName);
      CarrierOfFirst(env.conns, clients, i);
      assert InListing(env, net, id, clients[i]) && SameSession(env, c, clients[i]);
    }
  }

  /** The WebSockets closed are those that carry a listed client from the IP. */
  ghost predicate ClosesOwn(env: Env, net: Net, ip: string) {
    forall w :: w in Kicked(env, net, Banned(env, net, env.insts.Keys, ip)).closed <==>
                w in net.closed || CarriesFrom(env, net, ip, w)
  }

  lemma {:induction false} CarrierIsListed(conns: map<Port, VpnConn>, clients: seq<VPNClient>, cn: Cn)
    requires Carrier(conns, clients, cn).Some?
    ensures exists c :: c in clients && c.commonName == cn && SourcePort(c.realAddr) in conns
                        && conns[SourcePort(c.realAddr)].ws == Carrier(conns, clients, cn).value
  {
    if clients[0].commonName == cn && SourcePort(clients[0].realAddr) != 0 {
      assert clients[0] in clients;
    } else {
      CarrierIsListed(conns, clients[1..], cn);
      var c :| c in clients[1..] && c.commonName == cn && SourcePort(c.realAddr) in conns
               && conns[SourcePort(c.realAddr)].ws == Carrier(conns, clients[1..], cn).value;
      assert c in clients;
    }
  }

  /** What a kick closes carries a listed client of its name. */
  lemma ClosedIsListed(env: Env, net: Net, k: (Id, Cn), w: Sid)
    requires k.0 in env.insts && env.insts[k.0].running && w in ToClose(env, net, k.0, k.1)
    ensures exists c :: InListing(env, net, k.0, c) && c.commonName == k.1 && SourcePort(c.realAddr) in env.conns
                        && env.conns[SourcePort(c.realAddr)].ws == w
  {
    CarrierIsListed(env.conns, net.online[k.0], k.1);
    var c :| c in net.online[k.0] && c.commonName == k.1 && SourcePort(c.realAddr) in env.conns
             && env.conns[SourcePort(c.realAddr)].ws == w;
    assert InListing(env, net, k.0, c);
  }

  lemma FoundCloses(env: Env, net: Net, ip: string, w: Sid)
    requires LeadsBack(env, net, ip) && CarriesFrom(env, net, ip, w)
    ensures w in Kicked(env, net, Banned(env, net, env.insts.Keys, ip)).closed
  {
    var id, c :| InListing(env, net, id, c) && ComesFrom(env, c, ip) && env.conns[SourcePort(c.realAddr)].ws == w;
    BannedIffHit(env, net, ip, id, c.commonName);
    assert w in ToClose(env, net, id, c.commonName);
  }

  lemma ClosedFrom(env: Env, net: Net, ip: string, k: (Id, Cn), w: Sid)
    requires LeadsBack(env, net, ip)
    requires k in Banned(env, net, env.insts.Keys, ip) && w in ToClose(env, net, k.0, k.1)
    ensures CarriesFrom(env, net, ip, w)
  {
    BannedIffHit(env, net, ip, k.0, k.1);
    var c :| c in net.online[k.0] && InListing(env, net, k.0, c) && c.commonName == k.1 && ComesFrom(env, c, ip);
    assert InListing(env, net, k.0, c) && ComesFrom(env, c, ip);
  }

  lemma OwnIfLeads(env: Env, net: Net, ip: string)
    requires LeadsBack(env, net, ip)
    ensures ClosesOwn(env, net, ip)
  {
    var kicks := Banned(env, net, env.insts.Keys, ip);
    forall w
      ensures w in Kicked(env, net, kicks).closed <==> w in net.closed || CarriesFrom(env, net, ip, w)
    {
      if CarriesFrom(env, net, ip, w) {
        FoundCloses(env, net, ip, w);
      }
      if w in Kicked(env, net, kicks).closed && w !in net.closed {
        var k :| k in kicks && w in ToClose(env, net, k.0, k.1);
        ClosedFrom(env, net, ip, k, w);
      }
    }
  }

  lemma LeadsIfOwn(env: Env, net: Net, ip: string, id: Id, c: VPNClient)
    requires OwnSessions(env, net) && ClosesOwn(env, net, ip)
    requires InListing(env, net, id, c) && ComesFrom(env, c, ip)
    requires env.conns[SourcePort(c.realAddr)].ws !in net.closed
    ensures Carrier(env.conns, net.online[id], c.commonName) == Some(env.conns[SourcePort(c.realAddr)].ws)
  {
    var w, kicks := env.conns[SourcePort(c.realAddr)].ws, Banned(env, net, env.insts.Keys, ip);
    assert CarriesFrom(env, net, ip, w);
    assert w in Kicked(env, net, kicks).closed;
    var k :| k in kicks && w in ToClose(env, net, k.0, k.1);
    BannedIffHit(env, net, ip, k.0, k.1);
    ClosedIsListed(env, net, k, w);
    var d :| InListing(env, net, k.0, d) && d.commonName == k.1 && SourcePort(d.realAddr) in env.conns
             && env.conns[SourcePort(d.realAddr)].ws == w;
    assert SameSession(env, c, d);
  }

  /** For every listing, with its clients on sessions of their own that are still open: a ban closes exactly the
      WebSockets that carry a listed client from the IP if and only if each of these clients is the first of its name
      in the listing whose port can be read. */
  lemma BanClosesIff(env: Env, net: Net, ip: string)
    requires OwnSessions(env, net)
    requires forall w :: CarriesFrom(env, net, ip, w) ==> w !in net.closed
    ensures ClosesOwn(env, net, ip) <==> FoundFirst(env, net, ip)
  {
    FoundIffLeads(env, net, ip);
    if FoundFirst(env, net, ip) {
      OwnIfLeads(env, net, ip);
    }
    if ClosesOwn(env, net, ip) {
      forall id, c | InListing(env, net, id, c) && ComesFrom(env, c, ip)
        ensures Carrier(env.conns, net.online[id], c.commonName) == Some(env.conns[SourcePort(c.realAddr)].ws)
      {
        assert CarriesFrom(env, net, ip, env.conns[SourcePort(c.realAddr)].ws);
        LeadsIfOwn(env, net, ip, id, c);
      }
    }
  }

  /** Where a name is listed twice, the WebSocket of another IP may be closed instead: two clients of one name, the
      second of which comes from the banned IP. */
  lemma BanClosesOther(env: Env, net: Net, a: VPNClient, b: VPNClient, id: Id)
    requires env.insts.Keys == {id} && env.insts[id].running && id in env.reachable
    requires net.online == map[id := [a, b]] && a.commonName == b.commonName && net.closed == {}
    requires var p, q := SourcePort(a.realAddr), SourcePort(b.realAddr);
             && p != 0 && p in env.conns && q in env.conns
             && env.conns[p].httpClientIP != env.conns[q].httpClientIP
    ensures var p, q := SourcePort(a.realAddr), SourcePort(b.realAddr);
            Kicked(env, net, Banned(env, net, env.insts.Keys, env.conns[q].httpClientIP)).closed == {env.conns[p].ws}
  {
    var ip := env.conns[SourcePort(b.realAddr)].httpClientIP;
    var kicks := Banned(env, net, env.insts.Keys, ip);
    BannedIffHit(env, net, ip, id, b.commonName);
    assert b in net.online[id] && InListing(env, net, id, b) && ComesFrom(env, b, ip);
    assert ToClose(env, net, id, b.commonName) == {env.conns[SourcePort(a.realAddr)].ws};
    forall k | k in kicks
      ensures k == (id, b.commonName)
    {
      BannedIffHit(env, net, ip, k.0, k.1);
    }
    assert (id, b.commonName) in kicks;
  }

  /** A ban repeated at once changes nothing. */
  lemma BanTwice(env: Env, net: Net, ip: string)
    ensures var after := Kicked(env, net, Banned(env, net, env.insts.Keys, ip));
            Kicked(env, after, Banned(env, after, env.insts.Keys, ip)) == after
  {
    var kicks := Banned(env, net, env.insts.Keys, ip);
    var after := Kicked(env, net, kicks);
    var again := Banned(env, after, env.insts.Keys, ip);
    forall k | k in again
      ensures k in kicks
    {
      BannedIffHit(env, after, ip, k.0, k.1);
      BannedIffHit(env, net, ip, k.0, k.1);
      var c :| c in after.online[k.0] && InListing(env, after, k.0, c) && c.commonName == k.1 && ComesFrom(env, c, ip);
      StaysIffNotGone(net.online[k.0], Gone(env, kicks, k.0), c);
      assert InListing(env, net, k.0, c);
    }
    KickedTwice(env, net, kicks, again);
    assert kicks + again == kicks;
  }

  /** Some client of the name is shown with the address. */
  predicate ShownAs(shown: seq<VPNClient>, cn: Cn, addr: string) {
    exists k :: 0 <= k < |shown| && shown[k].commonName == cn && shown[k].realAddr == addr
  }

  /** One client, as it is shown. */
  lemma ShownFrom(env: Env, clients: seq<VPNClient>, k: nat, ip: string)
    requires k < |clients| && 0 !in env.conns && SourcePort(clients[k].realAddr) in env.conns
    ensures var shown := FilledAll(env.conns, clients);
            && |shown| == |clients| && shown[k].commonName == clients[k].commonName
            && (shown[k].realAddr == ip <==> ComesFrom(env, clients[k], ip))
  {
    FilledEach(env.conns, clients, k);
  }

  lemma HitIsShown(env: Env, net: Net, ip: string, id: Id, cn: Cn)
    requires Hit(env, net, id, cn, ip) && 0 !in env.conns
    ensures ShownAs(FilledAll(env.conns, net.online[id]), cn, ip)
  {
    var listed := net.online[id];
    var c :| c in listed && InListing(env, net, id, c) && c.commonName == cn && ComesFrom(env, c, ip);
    FromIsShown(env, listed, c, ip);
  }

  lemma FromIsShown(env: Env, listed: seq<VPNClient>, c: VPNClient, ip: string)
    requires c in listed && ComesFrom(env, c, ip) && 0 !in env.conns
    ensures ShownAs(FilledAll(env.conns, listed), c.commonName, ip)
  {
    var k :| 0 <= k < |listed| && listed[k] == c;
    ShownFrom(env, listed, k, ip);
    ShownAt(FilledAll(env.conns, listed), k, c.commonName, ip);
  }

  lemma ShownAt(shown: seq<VPNClient>, k: nat, cn: Cn, addr: string)
    requires k < |shown| && shown[k].commonName == cn && shown[k].realAddr == addr
    ensures ShownAs(shown, cn, addr)
  {}

  lemma ShownIsHit(env: Env, net: Net, ip: string, id: Id, cn: Cn)
    requires id in env.insts && env.insts[id].running && id in env.reachable && id in net.online && 0 !in env.conns
    requires forall k :: 0 <= k < |net.online[id]| ==> SourcePort(net.online[id][k].realAddr) in env.conns
    requires ShownAs(FilledAll(env.conns, net.online[id]), cn, ip)
    ensures Hit(env, net, id, cn, ip)
  {
    var listed, shown := net.online[id], FilledAll(env.conns, net.online[id]);
    var k :| 0 <= k < |shown| && shown[k].commonName == cn && shown[k].realAddr == ip;
    ShownFrom(env, listed, k, ip);
    assert listed[k] in listed && InListing(env, net, id, listed[k]);
  }

  /** A ban hits whom the administrator sees under the IP: if every listed client of a running instance has its
      port registered, its name is among the banned exactly if a client of that name is shown with the IP. */
  lemma ShownIsBanned(env: Env, net: Net, ip: string, id: Id, cn: Cn)
    requires id in env.insts && env.insts[id].running && id in env.reachable && id in net.online && 0 !in env.conns
    requires forall k :: 0 <= k < |net.online[id]| ==> SourcePort(net.online[id][k].realAddr) in env.conns
    ensures (id, cn) in Banned(env, net, env.insts.Keys, ip) <==>
            ShownAs(FilledAll(env.conns, net.online[id]), cn, ip)
  {
    BannedIffHit(env, net, ip, id, cn);
    if Hit(env, net, id, cn, ip) {
      HitIsShown(env, net, ip, id, cn);
    }
    if ShownAs(FilledAll(env.conns, net.online[id]), cn, ip) {
      ShownIsHit(env, net, ip, id, cn);
    }
  }

  /** A listed client of the name has been connected for too long. */
  predicate Exceeds(env: Env, net: Net, configTimeout: int, now: int, id: Id, cn: Cn) {
    id in net.online && exists c :: c in net.online[id] && InListing(env, net, id, c) && c.commonName == cn
                                    && Overdue(now, c, EffectiveTimeout(env.insts[id], configTimeout, cn))
  }

  lemma LateIff(id: Id, inst: Inst, configTimeout: int, now: int, clients: seq<VPNClient>, k: (Id, Cn))
    ensures k in Late(id, inst, configTimeout, now, clients) <==>
            k.0 == id && exists c :: c in clients && c.commonName == k.1
                                     && Overdue(now, c, EffectiveTimeout(inst, configTimeout, k.1))
  {
    if k.0 == id && exists c :: c in clients && c.commonName == k.1 && Overdue(now, c, EffectiveTimeout(inst, configTimeout, k.1)) {
      var c :| c in clients && c.commonName == k.1 && Overdue(now, c, EffectiveTimeout(inst, configTimeout, k.1));
      assert k == (id, c.commonName);
    }
  }

  /** A timeout pass selects exactly the names of the listed clients of running instances whose effective limit is
      positive and exceeded. */
  lemma SelectedIff(env: Env, net: Net, configTimeout: int, now: int, id: Id, cn: Cn)
    ensures (id, cn) in TimedOut(env, net, env.insts.Keys, configTimeout, now) <==>
            Exceeds(env, net, configTimeout, now, id, cn)
  {
    var ids, k := env.insts.Keys, (id, cn);
    if k in TimedOut(env, net, ids, configTimeout, now) {
      var i :| i in ids && i in env.insts && env.insts[i].running && Listing(env, net, i).Some?
               && k in Late(i, env.insts[i], configTimeout, now, Listing(env, net, i).value);
      LateIff(i, env.insts[i], configTimeout, now, net.online[i], k);
      var c :| c in net.online[id] && c.commonName == cn && Overdue(now, c, EffectiveTimeout(env.insts[id], configTimeout, cn));
      assert InListing(env, net, id, c);
    }
    if Exceeds(env, net, configTimeout, now, id, cn) {
      LateIff(id, env.insts[id], configTimeout, now, net.online[id], k);
    }
  }

  lemma WrapSmall(x: int)
    requires MIN_INT64 <= x <= MAX_INT64
    ensures Wrap64(x) == x
  {
    var y, m := x - MIN_INT64, 0x1_0000_0000_0000_0000;
    assert 0 <= y < m;
    assert y % m == y;
  }

  /** An even product does not wrap to the largest int64, which is odd. */
  lemma WrapEven(half: int)
    ensures Wrap64(2 * half) != MAX_INT64
  {
    var x, m := 2 * half - MIN_INT64, 0x1_0000_0000_0000_0000;
    var q := x / m;
    assert x == q * m + x % m;
    assert x % m == 2 * (half + 0x4000_0000_0000_0000 - q * 0x8000_0000_0000_0000);
  }

  /** The int64 comparison for a client of the given age is the exact one. */
  predicate Exact(age: int, limit: int) {
    Sat64(age) > Wrap64(limit * SECOND) <==> age > limit * SECOND
  }

  /** For ages up to a bound the comparison is exact if and only if the limit in nanoseconds fits an int64, that is,
      up to 9223372036 seconds, or wraps to the bound or more. */
  lemma LimitExactUpTo(limit: int, bound: int)
    requires limit > 0 && 0 <= bound <= MAX_INT64
    ensures (forall age :: 0 <= age <= bound ==> Exact(age, limit)) <==>
            limit <= 9223372036 || Wrap64(limit * SECOND) >= bound
    ensures limit <= 9223372036 ==> forall age :: Exact(age, limit)
  {
    var exact := limit * SECOND;
    if limit <= 9223372036 {
      assert 0 < exact <= 9223372036 * SECOND < MAX_INT64;
      WrapSmall(exact);
    } else {
      assert exact >= 9223372037 * SECOND > MAX_INT64;
      assert Exact(bound, limit) <==> !(bound > Wrap64(exact));
    }
  }

  /** For all ages an int64 can hold: if and only if the limit is at most 9223372036 seconds.  A larger limit wraps. */
  lemma LimitExactIff(limit: int)
    requires limit > 0
    ensures (forall age :: 0 <= age <= MAX_INT64 ==> Exact(age, limit)) <==> limit <= 9223372036
  {
    LimitExactUpTo(limit, MAX_INT64);
    WrapEven(limit * 500_000_000);
    assert limit * SECOND == 2 * (limit * 500_000_000);
  }

  /** And the limits just above, up to 18446744073 seconds, wrap to negative ones: every client is overdue, however
      new its connection. */
  lemma WrappedLimit(now: int, c: VPNClient, limit: int)
    requires 9223372037 <= limit <= 18446744073 && Age(now, c) >= 0
    ensures Overdue(now, c, limit)
  {
    var exact, m := limit * SECOND, 0x1_0000_0000_0000_0000;
    assert MAX_INT64 < 9223372037 * SECOND <= exact <= 18446744073 * SECOND < m;
    assert (exact - MIN_INT64) % m == exact - MIN_INT64 - m;
  }

  /** So for configured limits in that range a client is overdue exactly if it is connected for longer. */
  lemma OverdueExact(now: int, c: VPNClient, limit: int)
    requires limit <= 9223372036
    ensures Overdue(now, c, limit) <==> limit > 0 && Age(now, c) > limit * SECOND
  {
    if limit > 0 {
      LimitExactUpTo(limit, 0);
      assert Exact(Age(now, c), limit);
    }
  }

  // ---------- Whom a timeout pass kicks, by the settings alone ----------

  /** Connected for longer than so many seconds.  The zero time stands for a connect time that is not known. */
  predicate LongerThan(now: int, c: VPNClient, seconds: int) {
    if c.connectedAt.Some? then now - c.connectedAt.value * 1_000_000_000 > seconds * 1_000_000_000
    else now + 62135596800 * 1_000_000_000 > seconds * 1_000_000_000
  }

  predicate SomeLongerThan(now: int, clients: seq<VPNClient>, cn: Cn, seconds: int) {
    exists k :: 0 <= k < |clients| && clients[k].commonName == cn && LongerThan(now, clients[k], seconds)
  }

  lemma OverdueIff(now: int, c: VPNClient, limit: int)
    requires limit <= 9223372036
    ensures Overdue(now, c, limit) <==> limit > 0 && LongerThan(now, c, limit)
  {
    OverdueExact(now, c, limit);
  }

  lemma ExceedsIff(env: Env, net: Net, configTimeout: int, now: int, id: Id, cn: Cn, limit: int)
    requires id in env.insts && env.insts[id].running && id in env.reachable && id in net.online
    requires EffectiveTimeout(env.insts[id], configTimeout, cn) == limit <= 9223372036
    ensures Exceeds(env, net, configTimeout, now, id, cn) <==> limit > 0 && SomeLongerThan(now, net.online[id], cn, limit)
  {
    var l := net.online[id];
    if Exceeds(env, net, configTimeout, now, id, cn) {
      var c :| c in l && InListing(env, net, id, c) && c.commonName == cn && Overdue(now, c, limit);
      OverdueIff(now, c, limit);
      var k :| 0 <= k < |l| && l[k] == c;
    }
    if limit > 0 && SomeLongerThan(now, l, cn, limit) {
      var k :| 0 <= k < |l| && l[k].commonName == cn && LongerThan(now, l[k], limit);
      OverdueIff(now, l[k], limit);
      assert l[k] in l && InListing(env, net, id, l[k]);
    }
  }

  /** Whom a timeout pass selects, by the settings and the connect times alone.  On an instance that runs and answers, a
      name with a limit of its own is selected if and only if a listed client of it has been connected for longer,
      whatever the configured limit is; any other name if and only if the configured limit is positive and exceeded.
      Nobody is selected on another instance. */
  lemma SelectedExact(env: Env, net: Net, configTimeout: int, now: int, id: Id, cn: Cn)
    ensures var selected := (id, cn) in TimedOut(env, net, env.insts.Keys, configTimeout, now);
            if id in env.insts && env.insts[id].running && id in env.reachable && id in net.online then
              var own := if cn in env.insts[id].clientTimeouts then env.insts[id].clientTimeouts[cn] else 0;
              && (0 < own <= 9223372036 ==> (selected <==> SomeLongerThan(now, net.online[id], cn, own)))
              && (own <= 0 && configTimeout <= 9223372036 ==>
                  (selected <==> configTimeout > 0 && SomeLongerThan(now, net.online[id], cn, configTimeout)))
            else !selected
  {
    SelectedIff(env, net, configTimeout, now, id, cn);
    if id in env.insts && env.insts[id].running && id in env.reachable && id in net.online {
      var own := if cn in env.insts[id].clientTimeouts then env.insts[id].clientTimeouts[cn] else 0;
      if 0 < own <= 9223372036 {
        ExceedsIff(env, net, configTimeout, now, id, cn, own);
      } else if own <= 0 && configTimeout <= 9223372036 {
        ExceedsIff(env, net, configTimeout, now, id, cn, configTimeout);
      }
    }
  }

  /** And what the pass does to each name and each client. */
  lemma TimeoutExact(env: Env, net: Net, configTimeout: int, now: int, id: Id, c: VPNClient)
    requires id in net.online
    ensures var selected := TimedOut(env, net, env.insts.Keys, configTimeout, now);
            var after, cn := Kicked(env, net, selected), c.commonName;
            && ((id, cn) in after.ccd <==>
                (id, cn) in net.ccd || ((id, cn) in selected && ValidCN(cn) && id in env.insts && id in env.writable))
            && (c in after.online[id] <==>
                c in net.online[id] && !((id, cn) in selected && ValidCN(cn) && id in env.insts && id in env.reachable))
  {
    var selected := TimedOut(env, net, env.insts.Keys, configTimeout, now);
    StaysIffNotGone(net.online[id], Gone(env, selected, id), c);
  }
}
