/**
 The two views of a kick brought together: what module Handling says a pass comes to is what the step system of
 module Protocol reaches by running its kicks one after the other, so the passes inherit kick safety.
 */
module Passes {
  import opened Text
  import opened Vpn
  import opened Protocol
  import opened Requests
  import opened KickSafety
  import opened Handshake
  import opened Carrying
  import H = Handling

  /** Some listed client of the name has the port. */
  predicate ListedAs(net: H.Net, id: Id, cn: Cn, p: int) {
    id in net.online &&
    exists k :: 0 <= k < |net.online[id]| && net.online[id][k].commonName == cn
                && H.SourcePort(net.online[id][k].realAddr) == p
  }

  /** The management interfaces list exactly who is connected. */
  ghost predicate SameOnline(online: set<Online>, net: H.Net) {
    && (forall id, cn, p: Port :: Online(id, cn, p) in online <==> ListedAs(net, id, cn, p))
    && (forall id, k :: id in net.online && 0 <= k < |net.online[id]| ==> H.SourcePort(net.online[id][k].realAddr) >= 0)
  }

  /** Both describe the same moment. */
  ghost predicate Matches(s: State, env: H.Env, net: H.Net) {
    && env.conns == s.conns
    && (forall id :: id in env.insts <==> Live(s, id))
    && net.ccd == s.ccd
    && SameOnline(s.online, net)
  }

  /** The port closeWSForCN looks up. */
  function FirstPort(clients: seq<VPNClient>, cn: Cn): Option<int> {
    if clients == [] then None
    else if clients[0].commonName == cn && H.SourcePort(clients[0].realAddr) != 0
    then Some(H.SourcePort(clients[0].realAddr))
    else FirstPort(clients[1..], cn)
  }

  lemma {:induction false} FirstPortListed(conns: map<Port, VpnConn>, clients: seq<VPNClient>, cn: Cn)
    ensures var p := FirstPort(clients, cn);
            H.Carrier(conns, clients, cn) == if p.Some? && p.value in conns then Some(conns[p.value].ws) else None
    ensures FirstPort(clients, cn).Some? ==>
              FirstPort(clients, cn).value != 0 &&
              exists k :: 0 <= k < |clients| && clients[k].commonName == cn
                          && H.SourcePort(clients[k].realAddr) == FirstPort(clients, cn).value
  {
    if clients == [] {
    } else {
      FirstPortListed(conns, clients[1..], cn);
      var p := FirstPort(clients[1..], cn);
      if FirstPort(clients, cn) == p && p.Some? {
        var k :| 0 <= k < |clients[1..]| && clients[1..][k].commonName == cn
                 && H.SourcePort(clients[1..][k].realAddr) == p.value;
        assert clients[k + 1] == clients[1..][k];
      }
    }
  }

  /** What the kick sees in the listing. */
  function Seen(env: H.Env, net: H.Net, id: Id, cn: Cn): Option<int> {
    var l := H.Listing(env, net, id);
    if l.Some? then FirstPort(l.value, cn) else None
  }

  lemma SeenOnline(s: State, env: H.Env, net: H.Net, id: Id, cn: Cn)
    requires Matches(s, env, net)
    ensures var seen := Seen(env, net, id, cn);
            && (seen.Some? ==> seen.value > 0 && Online(id, cn, seen.value) in s.online)
            && H.ToClose(env, net, id, cn) ==
               if seen.Some? && seen.value in s.conns then {s.conns[seen.value].ws} else {}
  {
    var l := H.Listing(env, net, id);
    if l.Some? {
      FirstPortListed(env.conns, l.value, cn);
      var p := FirstPort(l.value, cn);
      if p.Some? {
        assert ListedAs(net, id, cn, p.value);
      }
    }
  }

  /** The sessions with some WebSockets closed. */
  function Shut(sessions: map<Sid, Session>, closed: set<Sid>): map<Sid, Session> {
    map t | t in sessions :: if t in closed then sessions[t].(wsOpen := false) else sessions[t]
  }

  /** The state in the middle of a kick, given its kicker and what was changed so far. */
  function During(s: State, kid: Kid, k: Kicker, ccd: set<(Id, Cn)>, closed: set<Sid>): State {
    s.(kickers := s.kickers[kid := k], ccd := ccd, sessions := Shut(s.sessions, closed))
  }

  lemma ShutNone(sessions: map<Sid, Session>)
    ensures Shut(sessions, {}) == sessions
  {}

  /** Closing, as an effect on the sessions. */
  lemma CloseShuts(s: State, kid: Kid)
    requires kid in s.kickers && s.kickers[kid].pc.Closing?
    ensures var p := s.kickers[kid].pc.port;
            Closed(s, s.kickers[kid]) == Shut(s.sessions, if p in s.conns then {s.conns[p].ws} else {})
  {}

  /** The first CCD write. */
  lemma Begins(s: State, env: H.Env, kid: Kid, handler: bool, id: Id, cn: Cn) returns (run: seq<Label>)
    requires (forall i :: i in env.insts <==> Live(s, i)) && kid !in s.kickers && (handler ==> H.Writes(env, id, cn))
    ensures Legal(s, run)
    ensures After(s, run) == Begun(s, kid, handler, id, cn, H.Writes(env, id, cn))
  {
    var w := H.Writes(env, id, cn);
    run := [BeginKick(kid, handler, id, cn)];
    Extend(s, [], run[0]);
    var s1 := After(s, run);
    Extend(s, run, Kick(kid, DisableCN(w)));
    run := run + [Kick(kid, DisableCN(w))];
    assert s1.kickers[kid := Kicker(handler, id, cn, Listing, w)] == s.kickers[kid := Kicker(handler, id, cn, Listing, w)];
  }

  /** The listing and the close. */
  lemma Closes(s: State, kid: Kid, k: Kicker, seen: Option<Port>) returns (run: seq<Label>)
    requires kid in s.kickers && s.kickers[kid] == k && k.pc == Listing
    requires seen.Some? ==> seen.value > 0 && Online(k.inst, k.cn, seen.value) in s.online
    ensures Legal(s, run)
    ensures After(s, run) ==
            s.(kickers := s.kickers[kid := k.(pc := Rewrite)],
               sessions := Shut(s.sessions, if seen.Some? && seen.value in s.conns then {s.conns[seen.value].ws} else {}))
  {
    run := [Kick(kid, ListClients(seen))];
    Extend(s, [], run[0]);
    ShutNone(s.sessions);
    if seen.Some? {
      var s1 := After(s, run);
      CloseShuts(s1, kid);
      Extend(s, run, Kick(kid, CloseWS));
      run := run + [Kick(kid, CloseWS)];
      assert s1.kickers[kid := k.(pc := Rewrite)] == s.kickers[kid := k.(pc := Rewrite)];
    }
  }

  /** After the first CCD write, if w. */
  function Begun(s: State, kid: Kid, handler: bool, id: Id, cn: Cn, w: bool): State {
    s.(kickers := s.kickers[kid := Kicker(handler, id, cn, Listing, w)], ccd := if w then s.ccd + {(id, cn)} else s.ccd)
  }

  /** And after the close. */
  lemma HalfDone(s: State, kid: Kid, handler: bool, id: Id, cn: Cn, w: bool, closed: set<Sid>)
    ensures var s1, k := Begun(s, kid, handler, id, cn, w), Kicker(handler, id, cn, Rewrite, w);
            s1.(kickers := s1.kickers[kid := k], sessions := Shut(s1.sessions, closed)) ==
            During(s, kid, k, if w then s.ccd + {(id, cn)} else s.ccd, closed)
  {
    var s1, k := Begun(s, kid, handler, id, cn, w), Kicker(handler, id, cn, Rewrite, w);
    assert s1.kickers[kid := k] == s.kickers[kid := k];
  }

  /** The first half: CCD write, listing, close. */
  lemma FirstHalf(s: State, env: H.Env, net: H.Net, kid: Kid, handler: bool, id: Id, cn: Cn) returns (run: seq<Label>)
    requires Matches(s, env, net) && kid !in s.kickers && (handler ==> H.Writes(env, id, cn))
    ensures Legal(s, run)
    ensures var w := H.Writes(env, id, cn);
            After(s, run) == During(s, kid, Kicker(handler, id, cn, Rewrite, w),
                                    if w then s.ccd + {(id, cn)} else s.ccd, H.ToClose(env, net, id, cn))
  {
    var w, seen := H.Writes(env, id, cn), Seen(env, net, id, cn);
    SeenOnline(s, env, net, id, cn);
    var port: Option<Port> := if seen.Some? then Some(seen.value) else None;
    var first := Begins(s, env, kid, handler, id, cn);
    var second := Closes(Begun(s, kid, handler, id, cn, w), kid, Kicker(handler, id, cn, Listing, w), port);
    Sequence(s, first, second);
    HalfDone(s, kid, handler, id, cn, w, H.ToClose(env, net, id, cn));
    run := first + second;
  }

  /** The second half: CCD write, kill. */
  lemma SecondHalf(s: State, env: H.Env, kid: Kid, handler: bool, id: Id, cn: Cn) returns (run: seq<Label>)
    requires forall i :: i in env.insts <==> Live(s, i)
    requires kid in s.kickers && s.kickers[kid] == Kicker(handler, id, cn, Rewrite, H.Writes(env, id, cn))
    requires H.Writes(env, id, cn) ==> (id, cn) in s.ccd
    ensures Legal(s, run)
    ensures var r := After(s, run);
            r == s.(kickers := r.kickers,
                    online := if H.Kills(env, id, cn) then WithoutCN(s.online, id, cn) else s.online)
            && r.kickers.Keys == s.kickers.Keys
  {
    var w := H.Writes(env, id, cn);
    run := [Kick(kid, RewriteCCD(w))];
    Extend(s, [], run[0]);
    assert s.ccd == if w then s.ccd + {(id, cn)} else s.ccd;
    if CanWrite(s, s.kickers[kid]) {
      Extend(s, run, Kick(kid, MgmtKill(H.Kills(env, id, cn))));
      run := run + [Kick(kid, MgmtKill(H.Kills(env, id, cn)))];
    }
  }

  /** Killing a name and dropping it from the listing are the same. */
  lemma KillMatches(s: State, env: H.Env, net: H.Net, id: Id, cn: Cn)
    requires Matches(s, env, net)
    ensures SameOnline(if H.Kills(env, id, cn) then WithoutCN(s.online, id, cn) else s.online,
                       H.KickOne(env, net, id, cn))
  {
    var after := H.KickOne(env, net, id, cn);
    var online := if H.Kills(env, id, cn) then WithoutCN(s.online, id, cn) else s.online;
    if H.Kills(env, id, cn) {
      forall i, x, p: Port
        ensures Online(i, x, p) in online <==> ListedAs(after, i, x, p)
      {
        assert Online(i, x, p) in s.online <==> ListedAs(net, i, x, p);
        if i == id && id in net.online {
          ListedWithout(net, after, id, x, p, cn);
        } else {
          assert ListedAs(after, i, x, p) <==> ListedAs(net, i, x, p);
        }
      }
      forall i, k | i in after.online && 0 <= k < |after.online[i]|
        ensures H.SourcePort(after.online[i][k].realAddr) >= 0
      {
        if i == id {
          var c := after.online[i][k];
          H.StaysIffNotGone(net.online[id], {cn}, c);
          var j :| 0 <= j < |net.online[id]| && net.online[id][j] == c;
        }
      }
    }
  }

  lemma ListedWithout(net: H.Net, after: H.Net, id: Id, x: Cn, p: int, cn: Cn)
    requires id in net.online && id in after.online && after.online[id] == H.Without(net.online[id], {cn})
    ensures ListedAs(after, id, x, p) <==> ListedAs(net, id, x, p) && x != cn
  {
    var l, m := net.online[id], after.online[id];
    if ListedAs(after, id, x, p) {
      var k :| 0 <= k < |m| && m[k].commonName == x && H.SourcePort(m[k].realAddr) == p;
      H.StaysIffNotGone(l, {cn}, m[k]);
      var j :| 0 <= j < |l| && l[j] == m[k];
    }
    if ListedAs(net, id, x, p) && x != cn {
      var k :| 0 <= k < |l| && l[k].commonName == x && H.SourcePort(l[k].realAddr) == p;
      H.StaysIffNotGone(l, {cn}, l[k]);
      var j :| 0 <= j < |m| && m[j] == l[k];
    }
  }

  /** One kick is a run of the step system, in the order CCD, close, kill: a kick of a pass, whether or not it can
      write, and a kick over HTTP that can. */
  lemma KickIsRun(s: State, env: H.Env, net: H.Net, handler: bool, id: Id, cn: Cn) returns (run: seq<Label>)
    requires Matches(s, env, net) && (handler ==> H.Writes(env, id, cn))
    ensures Legal(s, run)
    ensures Matches(After(s, run), env, H.KickOne(env, net, id, cn))
    ensures After(s, run).sessions == Shut(s.sessions, H.ToClose(env, net, id, cn))
  {
    var kid := Unused(s.kickers.Keys);
    var first := FirstHalf(s, env, net, kid, handler, id, cn);
    var s1 := After(s, first);
    var second := SecondHalf(s1, env, kid, handler, id, cn);
    Sequence(s, first, second);
    run := first + second;
    KillMatches(s, env, net, id, cn);
    var r := After(s, run);
    assert r.insts == s.insts && r.conns == s.conns && r.ccd == H.KickOne(env, net, id, cn).ccd;
    assert SameOnline(r.online, H.KickOne(env, net, id, cn));
  }

  /** A kick over HTTP whose first write fails can do nothing more, whatever runs beside it. */
  lemma RefusedKickStops(s: State, kid: Kid, later: seq<Label>)
    requires kid in s.kickers && s.kickers[kid].handler && s.kickers[kid].pc == Disable && !s.kickers[kid].wrote
    requires Enabled(s, Kick(kid, DisableCN(false))) && NoRestart(later)
    requires Legal(Apply(s, Kick(kid, DisableCN(false))), later)
    ensures var r := After(Apply(s, Kick(kid, DisableCN(false))), later);
            && kid in r.kickers && !r.kickers[kid].wrote && r.kickers[kid].pc == Ended(false)
            && forall k :: !Enabled(r, Kick(kid, k))
  {
    EndedStays(Apply(s, Kick(kid, DisableCN(false))), later, kid);
  }

  lemma {:induction false} EndedStays(s: State, run: seq<Label>, kid: Kid)
    requires Legal(s, run) && NoRestart(run) && kid in s.kickers && s.kickers[kid].pc.Ended?
    ensures kid in After(s, run).kickers && After(s, run).kickers[kid] == s.kickers[kid]
    decreases |run|
  {
    if run == [] {
    } else {
      KickStays(s, run[0], kid);
      EndedStays(Apply(s, run[0]), run[1..], kid);
    }
  }

  lemma ShutTwice(sessions: map<Sid, Session>, a: set<Sid>, b: set<Sid>)
    ensures Shut(Shut(sessions, a), b) == Shut(sessions, a + b)
  {}

  lemma KickedFirst(env: H.Env, net: H.Net, kicks: seq<(Id, Cn)>)
    requires kicks != []
    ensures H.Kicked(env, H.KickOne(env, net, kicks[0].0, kicks[0].1), H.SetOf(kicks[1..])) ==
            H.Kicked(env, net, H.SetOf(kicks))
  {
    var k := kicks[0];
    H.KickedOnce(env, net, k.0, k.1);
    H.KickedTwice(env, net, {(k.0, k.1)}, H.SetOf(kicks[1..]));
    FirstOfSet(kicks);
  }

  lemma FirstOfSet<T>(s: seq<T>)
    requires s != []
    ensures H.SetOf(s) == {s[0]} + H.SetOf(s[1..])
  {}

  /** A pass is a run: from any moment the step system can reach what Handling says a list of kicks comes to, and
      the WebSockets closed on the way are exactly those it says. */
  lemma {:induction false} PassIsRun(s: State, env: H.Env, net: H.Net, kicks: seq<(Id, Cn)>)
    returns (run: seq<Label>, closed: set<Sid>)
    requires Matches(s, env, net)
    ensures Legal(s, run)
    ensures Matches(After(s, run), env, H.Kicked(env, net, H.SetOf(kicks)))
    ensures H.Kicked(env, net, H.SetOf(kicks)).closed == net.closed + closed
    ensures After(s, run).sessions == Shut(s.sessions, closed)
    decreases |kicks|
  {
    if kicks == [] {
      run, closed := [], {};
      H.KickedNone(env, net);
      ShutNone(s.sessions);
      assert H.SetOf(kicks) == {};
    } else {
      var (id, cn) := kicks[0];
      var net1 := H.KickOne(env, net, id, cn);
      var first := KickIsRun(s, env, net, false, id, cn);
      var rest, more := PassIsRun(After(s, first), env, net1, kicks[1..]);
      KickedFirst(env, net, kicks);
      Sequence(s, first, rest);
      ShutTwice(s.sessions, H.ToClose(env, net, id, cn), more);
      run, closed := first + rest, H.ToClose(env, net, id, cn) + more;
    }
  }

  /** What a pass leaves behind holds for good: whoever it disabled and killed is connected in no later state,
      whatever runs afterwards. */
  lemma PassKeepsOut(s: State, env: H.Env, net: H.Net, kicks: set<(Id, Cn)>, id: Id, cn: Cn, later: seq<Label>)
    requires Matches(s, env, H.Kicked(env, net, kicks)) && Legal(s, later)
    requires (id, cn) in kicks && H.Writes(env, id, cn) && H.Kills(env, id, cn)
    ensures !Connected(After(s, later), id, cn)
  {
    var after := H.Kicked(env, net, kicks);
    assert (id, cn) in after.ccd && cn in H.Gone(env, kicks, id);
    if Connected(s, id, cn) {
      var o :| o in s.online && o.inst == id && o.cn == cn;
      assert ListedAs(after, id, cn, o.port);
      var k :| 0 <= k < |after.online[id]| && after.online[id][k].commonName == cn;
      H.StaysIffNotGone(net.online[id], H.Gone(env, kicks, id), after.online[id][k]);
    }
    OutForever(s, later, id, cn);
  }

  /** A ban, end to end: from a moment the step system and the handler agree on, there is a run that does the ban,
      and after it every valid name the IP was connected under, on an instance whose directory takes writes, is
      connected in no later state of any run. */
  lemma BanKeepsOut(s: State, env: H.Env, net: H.Net, ip: string, order: seq<(Id, Cn)>) returns (run: seq<Label>)
    requires Matches(s, env, net) && H.SetOf(order) == H.Banned(env, net, env.insts.Keys, ip)
    ensures Legal(s, run)
    ensures forall id, cn, later: seq<Label> ::
              H.Hit(env, net, id, cn, ip) && H.Writes(env, id, cn) && Legal(After(s, run), later) ==>
                !Connected(After(After(s, run), later), id, cn)
  {
    var closed;
    run, closed := PassIsRun(s, env, net, order);
    var kicks := H.Banned(env, net, env.insts.Keys, ip);
    forall id, cn, later: seq<Label> |
      H.Hit(env, net, id, cn, ip) && H.Writes(env, id, cn) && Legal(After(s, run), later)
      ensures !Connected(After(After(s, run), later), id, cn)
    {
      H.BannedIffHit(env, net, ip, id, cn);
      PassKeepsOut(After(s, run), env, net, kicks, id, cn, later);
    }
  }

  /** Nobody disabled is connected after the ban, if that was so before. */
  lemma NoneLeftAfter(s: State, env: H.Env, net: H.Net, ip: string, run: seq<Label>, id: Id, cn: Cn)
    requires Matches(s, env, net) && Legal(s, run) && id in s.insts && NoneLeft(s, id, cn)
    requires Matches(After(s, run), env, H.Kicked(env, net, H.Banned(env, net, env.insts.Keys, ip)))
    ensures NoneLeft(After(s, run), id, cn)
  {
    var r, kicks := After(s, run), H.Banned(env, net, env.insts.Keys, ip);
    H.BanDisables(env, net, ip, id, cn);
    if H.Hit(env, net, id, cn, ip) && H.Writes(env, id, cn) {
      H.BannedIffHit(env, net, ip, id, cn);
      PassKeepsOut(r, env, net, kicks, id, cn, []);
    } else if Disabled(r, id, cn) {
      assert Live(s, id) <==> Live(r, id);
      OutForever(s, run, id, cn);
    }
  }

  /** A kick closes only WebSockets that are up. */
  lemma ClosedWasUp(s: State, env: H.Env, net: H.Net, kicks: set<(Id, Cn)>, sid: Sid)
    requires env.conns == s.conns && HandshakeInv(s) && sid in s.sessions
    requires sid in H.Kicked(env, net, kicks).closed && sid !in net.closed
    ensures s.sessions[sid].pc !in {Found, Unlocked, Admitted, Resolved}
  {
    var k :| k in kicks && sid in H.ToClose(env, net, k.0, k.1);
    H.CarrierIsListed(env.conns, H.Listing(env, net, k.0).value, k.1);
    var p: Port :| p in s.conns && s.conns[p].ws == sid;
    assert Owned(s, p) && SessionOk(s.sessions[sid]);
  }

  /** One session before and after, when at most one file and at most its WebSocket changed. */
  lemma SparedIff(s: State, r: State, sid: Sid, cn: Cn, disabled: bool, closed: bool)
    requires HandshakeInv(s) && sid in s.sessions && NoneLeft(s, s.sessions[sid].inst, cn)
    requires HandshakeInv(r) && sid in r.sessions && NoneLeft(r, s.sessions[sid].inst, cn)
    requires r.sessions[sid] == if closed then s.sessions[sid].(wsOpen := false) else s.sessions[sid]
    requires closed ==> s.sessions[sid].pc !in {Found, Unlocked, Admitted, Resolved}
    requires var id := s.sessions[sid].inst;
             (Live(s, id) <==> Live(r, id)) && ((id, cn) in r.ccd <==> (id, cn) in s.ccd || disabled)
    ensures MayCarry(r, sid, cn) <==> MayCarry(s, sid, cn) && !disabled
    ensures MayCarryOpen(r, sid, cn) <==> MayCarryOpen(s, sid, cn) && !disabled && !closed
  {
    MayCarryIff(s, sid, cn);
    MayCarryIff(r, sid, cn);
  }

  /** The same, when the ban was some run. */
  lemma BanSpares(s: State, env: H.Env, net: H.Net, ip: string, run: seq<Label>, closed: set<Sid>, sid: Sid, cn: Cn)
    requires Matches(s, env, net) && Legal(s, run)
    requires Matches(After(s, run), env, H.Kicked(env, net, H.Banned(env, net, env.insts.Keys, ip)))
    requires closed == H.Kicked(env, net, H.Banned(env, net, env.insts.Keys, ip)).closed && net.closed == {}
    requires After(s, run).sessions == Shut(s.sessions, closed)
    requires HandshakeInv(s) && sid in s.sessions && NoneLeft(s, s.sessions[sid].inst, cn)
    ensures var id := s.sessions[sid].inst;
            var hit := H.Hit(env, net, id, cn, ip) && H.Writes(env, id, cn);
            && (MayCarry(After(s, run), sid, cn) <==> MayCarry(s, sid, cn) && !hit)
            && (MayCarryOpen(After(s, run), sid, cn) <==> MayCarryOpen(s, sid, cn) && !hit && sid !in closed)
  {
    var r, id := After(s, run), s.sessions[sid].inst;
    HandshakeRun(s, run);
    NoneLeftAfter(s, env, net, ip, run, id, cn);
    H.BanDisables(env, net, ip, id, cn);
    if sid in closed {
      ClosedWasUp(s, env, net, H.Banned(env, net, env.insts.Keys, ip), sid);
    }
    SparedIff(s, r, sid, cn, H.Hit(env, net, id, cn, ip) && H.Writes(env, id, cn), sid in closed);
  }

  /** Who survives a ban, exactly, in terms of what is listed and registered when it begins: a session, wherever its
      goroutines stand, can come to carry a client after the ban if and only if it could before and the name is not
      one under which the IP is connected, on an instance whose directory takes writes.  To carry it over its own,
      still open WebSocket, the ban must not have closed that one either. */
  lemma BanSparesIff(s: State, env: H.Env, net: H.Net, ip: string, order: seq<(Id, Cn)>, sid: Sid, cn: Cn)
    returns (run: seq<Label>)
    requires Matches(s, env, net) && H.SetOf(order) == H.Banned(env, net, env.insts.Keys, ip) && net.closed == {}
    requires HandshakeInv(s) && sid in s.sessions && NoneLeft(s, s.sessions[sid].inst, cn)
    ensures Legal(s, run)
    ensures var id := s.sessions[sid].inst;
            var hit := H.Hit(env, net, id, cn, ip) && H.Writes(env, id, cn);
            && (MayCarry(After(s, run), sid, cn) <==> MayCarry(s, sid, cn) && !hit)
            && (MayCarryOpen(After(s, run), sid, cn) <==>
                MayCarryOpen(s, sid, cn) && !hit
                && sid !in H.Kicked(env, net, H.Banned(env, net, env.insts.Keys, ip)).closed)
  {
    var closed;
    run, closed := PassIsRun(s, env, net, order);
    BanSpares(s, env, net, ip, run, closed, sid, cn);
  }
}
