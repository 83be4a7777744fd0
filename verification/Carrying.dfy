/** Which sessions can still come to carry a client, whatever else happens: exactly. */
module Carrying {
  import opened Vpn
  import opened Protocol
  import opened Requests
  import opened KickSafety
  import opened Handshake

  /** The session is registered under its own port and carries the client. */
  predicate Carries(s: State, sid: Sid, cn: Cn) {
    sid in s.sessions &&
    var t := s.sessions[sid];
    t.pc == Bridging && t.port in s.conns && s.conns[t.port] == EntryOf(sid, t) && Online(t.inst, cn, t.port) in s.online
  }

  /** ... over a WebSocket nobody has closed. */
  predicate CarriesOpen(s: State, sid: Sid, cn: Cn) {
    Carries(s, sid, cn) && s.sessions[sid].wsOpen
  }

  /** Its relay is over, will not start, or has no port to be registered under. */
  predicate Hopeless(t: Session) {
    match t.pc
    case Found | Unlocked | Admitted | Resolved | Upgraded => false
    case Dialed(_) | Bridging => t.port == 0
    case Stopped | Removing | Done => true
  }

  /** Its WebSocket was up and is closed. */
  predicate WsClosed(t: Session) {
    !t.wsOpen && t.pc !in {Found, Unlocked, Admitted, Resolved}
  }

  /** Nothing the request is still to be checked for stands in its way. */
  predicate Passable(s: State, t: Session) {
    Running(s, t.inst) &&
    (t.pc in {Found, Unlocked} ==> !s.insts[t.inst].locked && EffectiveMax(s, t.inst) > |PortsOf(s, t.inst)|)
  }

  predicate Arrived(t: Session) {
    t.pc == Bridging && t.reg in {Reply, Exited}
  }

  /** The next step towards that, with a port no session has. */
  function Onward(t: Session, sid: Sid, port: Port): Label
    requires !Hopeless(t)
  {
    match t.pc
    case Found => Handler(sid, CheckLock)
    case Unlocked => Handler(sid, CheckLimit)
    case Admitted => Handler(sid, Resolve)
    case Resolved => Handler(sid, Upgrade(true))
    case Upgraded => Handler(sid, Dial(true, port))
    case Dialed(_) => Handler(sid, SendPort)
    case Bridging => Registrar(sid, if t.reg == WaitPort then ReceivePort else InsertConn)
  }

  lemma OnwardStep(s: State, sid: Sid, port: Port)
    requires sid in s.sessions && port != 0 && FreshPort(s, port)
    requires var t := s.sessions[sid]; SessionOk(t) && !Hopeless(t) && !Arrived(t) && Passable(s, t)
    ensures var t := s.sessions[sid]; var l := Onward(t, sid, port);
            && Enabled(s, l) && !IsRestart(l) && !l.Arrive?
            && Apply(s, l).insts == s.insts && Apply(s, l).ccd == s.ccd && sid in Apply(s, l).sessions
            && var t' := Apply(s, l).sessions[sid];
               && !Hopeless(t') && Passable(Apply(s, l), t') && Rank(t') < Rank(t)
               && t'.inst == t.inst && t'.clientIP == t.clientIP && (!WsClosed(t) ==> !WsClosed(t'))
  {
    var t := s.sessions[sid];
    var l := Onward(t, sid, port);
    if t.pc == Found {
      assert PortsOf(Apply(s, l), t.inst) == PortsOf(s, t.inst);
    }
  }

  lemma {:induction false} ToArrived(s: State, sid: Sid) returns (run: seq<Label>)
    requires HandshakeInv(s) && sid in s.sessions && !Hopeless(s.sessions[sid]) && Passable(s, s.sessions[sid])
    ensures Legal(s, run) && Inside(run) && sid in After(s, run).sessions
    ensures After(s, run).insts == s.insts && After(s, run).ccd == s.ccd
    ensures var t, t' := s.sessions[sid], After(s, run).sessions[sid];
            Arrived(t') && t'.port != 0 && t'.inst == t.inst && t'.clientIP == t.clientIP && (!WsClosed(t) ==> !WsClosed(t'))
    decreases Rank(s.sessions[sid])
  {
    var t := s.sessions[sid];
    assert SessionOk(t);
    if Arrived(t) {
      run := [];
    } else {
      var port := Unused((set u | u in s.sessions :: s.sessions[u].port) + {0});
      var l := Onward(t, sid, port);
      OnwardStep(s, sid, port);
      HandshakeStep(s, l);
      var rest := ToArrived(Apply(s, l), sid);
      run := [l] + rest;
      assert run[0] == l && run[1..] == rest;
    }
  }

  /** With the administrator's help. */
  lemma Comes(s: State, sid: Sid, cn: Cn) returns (run: seq<Label>)
    requires HandshakeInv(s) && sid in s.sessions && !Hopeless(s.sessions[sid])
    requires Live(s, s.sessions[sid].inst) && (s.sessions[sid].inst, cn) !in s.ccd
    ensures Legal(s, run) && Inside(run) && Carries(After(s, run), sid, cn)
    ensures !WsClosed(s.sessions[sid]) ==> CarriesOpen(After(s, run), sid, cn)
  {
    var id, join := s.sessions[sid].inst, Vpn(Join(sid, cn));
    var first := RoomMade(s, id);
    HandshakeRun(s, first);
    var s1 := After(s, first);
    var second := ToArrived(s1, sid);
    HandshakeRun(s1, second);
    var s2 := After(s1, second);
    assert Listed(s2, sid);
    Sequence(s, first, second);
    InsideBoth(first, second);
    Extend(s, first + second, join);
    InsideBoth(first + second, [join]);
    run := first + second + [join];
    assert Online(id, cn, s2.sessions[sid].port) in After(s, run).online;
  }

  // ---------- What stays out of reach ----------

  lemma SessionFrame(s: State, l: Label, sid: Sid)
    requires Enabled(s, l) && !IsRestart(l) && sid in s.sessions
    ensures sid in Apply(s, l).sessions
    ensures var t, t' := s.sessions[sid], Apply(s, l).sessions[sid];
            && t'.inst == t.inst && t'.clientIP == t.clientIP
            && (Hopeless(t) ==> Hopeless(t')) && (WsClosed(t) ==> WsClosed(t'))
  {
    Survives(s, l, sid);
    Frame(s, l, sid);
    if OwnStep(l, sid) {
      OwnNext(s, l, sid);
    }
  }

  lemma {:induction false} SessionRun(s: State, run: seq<Label>, sid: Sid)
    requires Legal(s, run) && NoRestart(run) && sid in s.sessions
    ensures sid in After(s, run).sessions
    ensures var t, t' := s.sessions[sid], After(s, run).sessions[sid];
            && t'.inst == t.inst && t'.clientIP == t.clientIP
            && (Hopeless(t) ==> Hopeless(t')) && (WsClosed(t) ==> WsClosed(t'))
    decreases |run|
  {
    if run == [] {
    } else {
      SessionFrame(s, run[0], sid);
      SessionRun(Apply(s, run[0]), run[1..], sid);
    }
  }

  /** Nobody is connected under a name that is disabled: no kill is outstanding. */
  predicate NoneLeft(s: State, id: Id, cn: Cn) {
    Disabled(s, id, cn) ==> !Connected(s, id, cn)
  }

  lemma NeverComes(s: State, run: seq<Label>, sid: Sid, cn: Cn)
    requires HandshakeInv(s) && Legal(s, run) && NoRestart(run) && sid in s.sessions
    requires NoneLeft(s, s.sessions[sid].inst, cn)
    requires Carries(After(s, run), sid, cn)
    ensures !Disabled(s, s.sessions[sid].inst, cn) && !Hopeless(s.sessions[sid])
    ensures After(s, run).sessions[sid].wsOpen ==> !WsClosed(s.sessions[sid])
  {
    SessionRun(s, run, sid);
    HandshakeRun(s, run);
    var r := After(s, run);
    var t := r.sessions[sid];
    assert SessionOk(t) && Owned(r, t.port);
    assert Online(t.inst, cn, t.port) in r.online;
    if Disabled(s, t.inst, cn) {
      OutForever(s, run, t.inst, cn);
    }
  }

  /** Some run of this process takes the session there. */
  ghost predicate MayCarry(s: State, sid: Sid, cn: Cn) {
    exists run :: Legal(s, run) && NoRestart(run) && Carries(After(s, run), sid, cn)
  }

  ghost predicate MayCarryOpen(s: State, sid: Sid, cn: Cn) {
    exists run :: Legal(s, run) && NoRestart(run) && CarriesOpen(After(s, run), sid, cn)
  }

  /** A session, wherever its goroutines stand, can come to carry a client if and only if its instance lives, the name
      is not disabled there, and the session is not past its relay and has not failed its dial. */
  lemma MayCarryIff(s: State, sid: Sid, cn: Cn)
    requires HandshakeInv(s) && sid in s.sessions && NoneLeft(s, s.sessions[sid].inst, cn)
    ensures var t := s.sessions[sid];
            && (MayCarry(s, sid, cn) <==> Live(s, t.inst) && (t.inst, cn) !in s.ccd && !Hopeless(t))
            && (MayCarryOpen(s, sid, cn) <==> Live(s, t.inst) && (t.inst, cn) !in s.ccd && !Hopeless(t) && !WsClosed(t))
  {
    var t := s.sessions[sid];
    if Live(s, t.inst) && (t.inst, cn) !in s.ccd && !Hopeless(t) {
      var run := Comes(s, sid, cn);
      InsideNoRestart(run);
      assert Legal(s, run) && NoRestart(run) && Carries(After(s, run), sid, cn);
    }
    if MayCarryOpen(s, sid, cn) {
      var run :| Legal(s, run) && NoRestart(run) && CarriesOpen(After(s, run), sid, cn);
      assert MayCarry(s, sid, cn);
      NeverComes(s, run, sid, cn);
    }
    if MayCarry(s, sid, cn) {
      var run :| Legal(s, run) && NoRestart(run) && Carries(After(s, run), sid, cn);
      NeverComes(s, run, sid, cn);
    }
  }
}
