/** The port hand-over between a session's two goroutines and the conns map. */
module Handshake {
  import opened Text
  import opened Protocol

  /** The hand-over after the handler sent the port: the port is in portCh, then with the registering
      goroutine, then in registered. */
  predicate Exchange(t: Session) {
    match t.reg
    case NotStarted => false
    case WaitPort => t.portCh == Some(t.port) && t.registered == None
    case Insert => t.port != 0 && t.portCh == None && t.registered == None
    case Reply => t.portCh == None && t.registered == None
    case Exited => t.portCh == None && t.registered == Some(t.port)
  }

  predicate ChannelsEmpty(t: Session) {
    t.portCh == None && t.registered == None
  }

  predicate SessionOk(t: Session) {
    match t.pc
    case Found | Unlocked | Admitted | Resolved => t.reg == NotStarted && ChannelsEmpty(t) && t.port == 0
    case Upgraded => t.reg == WaitPort && ChannelsEmpty(t) && t.port == 0
    case Dialed(ok) => t.reg == WaitPort && ChannelsEmpty(t) && (ok || t.port == 0)
    case Bridging | Stopped => Exchange(t)
    case Removing => t.reg == Exited && ChannelsEmpty(t) && t.port != 0
    case Done => ChannelsEmpty(t) && (t.reg == Exited || (t.reg == NotStarted && t.port == 0))
  }

  /** Between its registration and its deletion a session is in conns. */
  predicate Registered(t: Session) {
    t.port != 0 && (t.reg == Reply || (t.reg == Exited && t.pc != Done))
  }

  function EntryOf(sid: Sid, t: Session): VpnConn {
    VpnConn(t.port, t.clientIP, t.inst, sid)
  }

  /** Two sessions hold the same port only if it is 0 or one of them is done. */
  predicate Distinct(t: Session, u: Session) {
    t.pc == Done || u.pc == Done || t.port != u.port || t.port == 0
  }

  /** The entry under a port is that of a registered session, under its own port. */
  predicate Owned(s: State, p: Port)
    requires p in s.conns
  {
    var sid := s.conns[p].ws;
    sid in s.sessions && Registered(s.sessions[sid]) && s.conns[p] == EntryOf(sid, s.sessions[sid]) && s.sessions[sid].port == p
  }

  /** A registered session has its entry. */
  predicate Listed(s: State, t: Sid)
    requires t in s.sessions
  {
    var r := s.sessions[t];
    Registered(r) ==> r.port in s.conns && s.conns[r.port] == EntryOf(t, r)
  }

  predicate HandshakeInv(s: State) {
    && (forall t :: t in s.sessions ==> SessionOk(s.sessions[t]) && s.sessions[t].inst in s.insts)
    && (forall t, u :: t in s.sessions && u in s.sessions && t != u ==> Distinct(s.sessions[t], s.sessions[u]))
    && (forall p :: p in s.conns ==> Owned(s, p))
    && (forall t :: t in s.sessions ==> Listed(s, t))
  }

  // ---------- One step, seen from one session ----------

  predicate OwnStep(l: Label, sid: Sid) {
    (l.Handler? || l.Registrar?) && l.sid == sid
  }

  /** What a step makes of a session: only its own goroutines change it, apart from a close of its WebSocket. */
  lemma Frame(s: State, l: Label, sid: Sid)
    requires Enabled(s, l) && sid in Apply(s, l).sessions
    ensures sid !in s.sessions ==> SessionOk(Apply(s, l).sessions[sid]) && Apply(s, l).sessions[sid].port == 0
    ensures sid in s.sessions && !OwnStep(l, sid) ==>
              Apply(s, l).sessions[sid] == s.sessions[sid].(wsOpen := Apply(s, l).sessions[sid].wsOpen)
  {}

  /** A session after a step of its own. */
  lemma OwnNext(s: State, l: Label, sid: Sid)
    requires Enabled(s, l) && OwnStep(l, sid)
    ensures sid in s.sessions && sid in Apply(s, l).sessions
    ensures l.Handler? ==>
              HandlerCan(s, s.sessions[sid], l.h) && Apply(s, l).sessions[sid] == HandlerNext(s, s.sessions[sid], l.h)
    ensures l.Registrar? ==>
              RegistrarCan(s.sessions[sid], l.r) && Apply(s, l).sessions[sid] == RegistrarNext(s.sessions[sid], l.r)
  {}

  lemma InstanceKnown(s: State, l: Label, sid: Sid)
    requires Enabled(s, l) && sid in Apply(s, l).sessions
    requires sid in s.sessions ==> s.sessions[sid].inst in s.insts
    ensures Apply(s, l).sessions[sid].inst in Apply(s, l).insts
  {}

  lemma HandlerKeeps(s: State, t: Session, h: HandlerStep)
    requires SessionOk(t) && HandlerCan(s, t, h)
    ensures SessionOk(HandlerNext(s, t, h))
    ensures h != Remove ==> Registered(HandlerNext(s, t, h)) == Registered(t)
    ensures h == Remove ==> Registered(t) && !Registered(HandlerNext(s, t, h))
    ensures HandlerNext(s, t, h).inst == t.inst && HandlerNext(s, t, h).clientIP == t.clientIP
    ensures HandlerNext(s, t, h).port != t.port ==> h.Dial? && !Registered(t) && FreshPort(s, HandlerNext(s, t, h).port)
  {}

  lemma RegistrarKeeps(t: Session, r: RegistrarStep)
    requires SessionOk(t) && RegistrarCan(t, r)
    ensures SessionOk(RegistrarNext(t, r))
    ensures r != InsertConn ==> Registered(RegistrarNext(t, r)) == Registered(t)
    ensures r == InsertConn ==> !Registered(t) && Registered(RegistrarNext(t, r))
    ensures RegistrarNext(t, r) == t.(reg := RegistrarNext(t, r).reg, portCh := RegistrarNext(t, r).portCh,
                                      registered := RegistrarNext(t, r).registered)
  {}

  lemma SessionOkStep(s: State, l: Label, t: Sid)
    requires Enabled(s, l) && t in Apply(s, l).sessions
    requires t in s.sessions ==> SessionOk(s.sessions[t])
    ensures SessionOk(Apply(s, l).sessions[t])
  {
    Frame(s, l, t);
    if t in s.sessions && OwnStep(l, t) {
      match l
      case Handler(_, h) => HandlerKeeps(s, s.sessions[t], h);
      case Registrar(_, r) => RegistrarKeeps(s.sessions[t], r);
    }
  }

  lemma DistinctStep(s: State, l: Label, t: Sid, u: Sid)
    requires Enabled(s, l) && t != u && t in Apply(s, l).sessions && u in Apply(s, l).sessions
    requires t in s.sessions ==> SessionOk(s.sessions[t])
    requires u in s.sessions ==> SessionOk(s.sessions[u])
    requires t in s.sessions && u in s.sessions ==> Distinct(s.sessions[t], s.sessions[u])
    ensures Distinct(Apply(s, l).sessions[t], Apply(s, l).sessions[u])
  {
    Frame(s, l, t);
    Frame(s, l, u);
    if t in s.sessions && OwnStep(l, t) {
      match l
      case Handler(_, h) => HandlerKeeps(s, s.sessions[t], h);
      case Registrar(_, r) => RegistrarKeeps(s.sessions[t], r);
    }
    if u in s.sessions && OwnStep(l, u) {
      match l
      case Handler(_, h) => HandlerKeeps(s, s.sessions[u], h);
      case Registrar(_, r) => RegistrarKeeps(s.sessions[u], r);
    }
  }

  /** How conns changes: one deletion, one insertion, a restart, or not at all. */
  lemma ConnsFrame(s: State, l: Label)
    requires Enabled(s, l)
    ensures Apply(s, l).conns ==
            if l.Handler? && l.h == Remove then s.conns - {s.sessions[l.sid].port}
            else if l.Registrar? && l.r == InsertConn then s.conns[s.sessions[l.sid].port := EntryOf(l.sid, s.sessions[l.sid])]
            else if l.Admin? && l.a.Restart? then map[]
            else s.conns
  {}

  /** Registration, seen from one session: only its own insertion and deletion change it. */
  lemma RegisteredFrame(s: State, l: Label, t: Sid)
    requires Enabled(s, l) && t in s.sessions && SessionOk(s.sessions[t]) && t in Apply(s, l).sessions
    ensures var r := s.sessions[t]; var r' := Apply(s, l).sessions[t];
            && (Registered(r') <==> l == Registrar(t, InsertConn) || (Registered(r) && l != Handler(t, Remove)))
            && (Registered(r) || Registered(r') ==> EntryOf(t, r') == EntryOf(t, r))
            && (l == Handler(t, Remove) ==> Registered(r))
            && (l == Registrar(t, InsertConn) ==> r.port != 0 && r.pc != Done)
  {
    Frame(s, l, t);
    if OwnStep(l, t) {
      match l
      case Handler(_, h) => HandlerKeeps(s, s.sessions[t], h);
      case Registrar(_, r) => RegistrarKeeps(s.sessions[t], r);
    }
  }

  lemma OwnedStep(s: State, l: Label, p: Port)
    requires HandshakeInv(s) && Enabled(s, l) && p in Apply(s, l).conns
    ensures Owned(Apply(s, l), p)
  {
    ConnsFrame(s, l);
    var owner := Apply(s, l).conns[p].ws;
    assert p in s.conns ==> Owned(s, p);
    assert SessionOk(s.sessions[owner]);
    RegisteredFrame(s, l, owner);
  }

  lemma ListedStep(s: State, l: Label, t: Sid)
    requires HandshakeInv(s) && Enabled(s, l) && t in Apply(s, l).sessions
    ensures Listed(Apply(s, l), t)
  {
    Frame(s, l, t);
    if t in s.sessions {
      assert Listed(s, t) && SessionOk(s.sessions[t]);
      RegisteredFrame(s, l, t);
      ConnsFrame(s, l);
      if (l.Handler? || l.Registrar?) && l.sid != t {
        assert SessionOk(s.sessions[l.sid]) && Distinct(s.sessions[t], s.sessions[l.sid]);
      }
    }
  }

  lemma HandshakeStep(s: State, l: Label)
    requires HandshakeInv(s) && Enabled(s, l)
    ensures HandshakeInv(Apply(s, l))
  {
    var s' := Apply(s, l);
    forall t | t in s'.sessions
      ensures SessionOk(s'.sessions[t]) && s'.sessions[t].inst in s'.insts && Listed(s', t)
    {
      InstanceKnown(s, l, t);
      SessionOkStep(s, l, t);
      ListedStep(s, l, t);
    }
    forall t, u | t in s'.sessions && u in s'.sessions && t != u
      ensures Distinct(s'.sessions[t], s'.sessions[u])
    {
      DistinctStep(s, l, t, u);
    }
    forall p | p in s'.conns
      ensures Owned(s', p)
    {
      OwnedStep(s, l, p);
    }
  }

  lemma {:induction false} HandshakeRun(s: State, run: seq<Label>)
    requires HandshakeInv(s) && Legal(s, run)
    ensures HandshakeInv(After(s, run))
    decreases |run|
  {
    if run == [] {
    } else {
      HandshakeStep(s, run[0]);
      HandshakeRun(Apply(s, run[0]), run[1..]);
    }
  }

  lemma ReachableHandshake(s: State)
    requires Reachable(s)
    ensures HandshakeInv(s)
  {
    var s0, run :| Init(s0) && Legal(s0, run) && s == After(s0, run);
    HandshakeRun(s0, run);
  }

  // ---------- Main results ----------

  /** In every interleaving conns holds exactly the entries of the registered sessions, each under its own port. */
  lemma ConnsExact(s: State, p: Port, e: VpnConn)
    requires Reachable(s)
    ensures p in s.conns && s.conns[p] == e <==>
            e.ws in s.sessions && Registered(s.sessions[e.ws]) && e == EntryOf(e.ws, s.sessions[e.ws]) && p == e.localPort
  {
    ReachableHandshake(s);
    assert p in s.conns ==> Owned(s, p);
    assert e.ws in s.sessions ==> Listed(s, e.ws);
  }

  /** A deletion finds the session's own entry, and an insertion overwrites none. */
  lemma DeleteAfterInsert(s: State, sid: Sid)
    requires Reachable(s)
    ensures Enabled(s, Handler(sid, Remove)) ==>
              var p := s.sessions[sid].port; p in s.conns && s.conns[p].ws == sid
    ensures Enabled(s, Registrar(sid, InsertConn)) ==> s.sessions[sid].port !in s.conns
  {
    ReachableHandshake(s);
    if sid in s.sessions {
      var t := s.sessions[sid];
      assert SessionOk(t) && Listed(s, sid);
      if t.port in s.conns {
        var owner := s.conns[t.port].ws;
        assert Owned(s, t.port) && SessionOk(s.sessions[owner]);
        assert owner != sid ==> Distinct(t, s.sessions[owner]);
      }
    }
  }

  lemma Survives(s: State, l: Label, sid: Sid)
    requires Enabled(s, l) && sid in s.sessions && !IsRestart(l)
    ensures sid in Apply(s, l).sessions
  {}

  /** The dial has failed (or gave no port). */
  predicate Portless(t: Session) {
    t.port == 0 && (t.pc.Dialed? || t.pc in {Bridging, Stopped, Done})
  }

  lemma PortlessStays(s: State, l: Label, sid: Sid)
    requires HandshakeInv(s) && Enabled(s, l) && !IsRestart(l) && sid in s.sessions && Portless(s.sessions[sid])
    ensures sid in Apply(s, l).sessions && Portless(Apply(s, l).sessions[sid])
  {
    Survives(s, l, sid);
    Frame(s, l, sid);
    assert SessionOk(s.sessions[sid]);
    if l.Handler? && l.sid == sid {
      HandlerKeeps(s, s.sessions[sid], l.h);
    }
  }

  /** A session whose dial failed is in conns in no later state. */
  lemma {:induction false} FailedDialUnlisted(s: State, sid: Sid, later: seq<Label>)
    requires HandshakeInv(s) && Legal(s, later)
    requires sid in s.sessions && Portless(s.sessions[sid])
    requires NoRestart(later)
    ensures forall p :: p in After(s, later).conns ==> After(s, later).conns[p].ws != sid
    decreases |later|
  {
    if later == [] {
      forall p | p in s.conns
        ensures s.conns[p].ws != sid
      {
        assert Owned(s, p);
      }
    } else {
      HandshakeStep(s, later[0]);
      PortlessStays(s, later[0], sid);
      FailedDialUnlisted(Apply(s, later[0]), sid, later[1..]);
    }
  }

  /** The next step of a session's own goroutines. */
  function NextStep(t: Session, sid: Sid): Label
    requires t.pc != Done
  {
    match t.pc
    case Found => Handler(sid, CheckLock)
    case Unlocked => Handler(sid, CheckLimit)
    case Admitted => Handler(sid, Resolve)
    case Resolved => Handler(sid, Upgrade(false))
    case Upgraded => Handler(sid, Dial(false, 0))
    case Dialed(_) => Handler(sid, SendPort)
    case Bridging => Handler(sid, EndBridge)
    case Stopped =>
      if t.registered.Some? then Handler(sid, AwaitRegistered)
      else if t.reg == WaitPort then Registrar(sid, ReceivePort)
      else if t.reg == Insert then Registrar(sid, InsertConn)
      else Registrar(sid, SendRegistered)
    case Removing => Handler(sid, Remove)
  }

  function PcRank(pc: Pc): nat {
    match pc
    case Found => 9
    case Unlocked => 8
    case Admitted => 7
    case Resolved => 6
    case Upgraded => 5
    case Dialed(_) => 4
    case Bridging => 3
    case Stopped => 2
    case Removing => 1
    case Done => 0
  }

  function RegRank(reg: Reg): nat {
    match reg
    case NotStarted => 3
    case WaitPort => 3
    case Insert => 2
    case Reply => 1
    case Exited => 0
  }

  /** How many steps a session's goroutines can still take. */
  function Rank(t: Session): nat {
    PcRank(t.pc) + RegRank(t.reg)
  }

  /** Neither goroutine can block for ever: until the handler is done one of the two can step, and when it is
      done the registering goroutine, if it was started, has exited. */
  lemma NeverStuck(s: State, sid: Sid)
    requires Reachable(s) && sid in s.sessions
    ensures s.sessions[sid].pc != Done ==> Enabled(s, NextStep(s.sessions[sid], sid))
    ensures s.sessions[sid].pc == Done ==> s.sessions[sid].reg in {NotStarted, Exited}
  {
    ReachableHandshake(s);
    assert SessionOk(s.sessions[sid]);
  }

  function OwnSteps(run: seq<Label>, sid: Sid): nat {
    if run == [] then 0 else (if OwnStep(run[0], sid) then 1 else 0) + OwnSteps(run[1..], sid)
  }

  lemma HandlerRank(s: State, t: Session, h: HandlerStep)
    requires HandlerCan(s, t, h) && (h.Upgrade? ==> t.reg == NotStarted)
    ensures Rank(HandlerNext(s, t, h)) < Rank(t)
  {}

  lemma RegistrarRank(t: Session, r: RegistrarStep)
    requires RegistrarCan(t, r)
    ensures Rank(RegistrarNext(t, r)) < Rank(t)
  {}

  lemma RankFalls(s: State, l: Label, sid: Sid)
    requires HandshakeInv(s) && Enabled(s, l) && sid in s.sessions && sid in Apply(s, l).sessions
    ensures Rank(Apply(s, l).sessions[sid]) + (if OwnStep(l, sid) then 1 else 0) <= Rank(s.sessions[sid])
  {
    assert SessionOk(s.sessions[sid]);
    Frame(s, l, sid);
    if OwnStep(l, sid) {
      OwnNext(s, l, sid);
      if l.Handler? {
        HandlerRank(s, s.sessions[sid], l.h);
      } else {
        RegistrarRank(s.sessions[sid], l.r);
      }
    }
  }

  lemma RankMax(t: Session)
    ensures Rank(t) <= 12
  {}

  /** One step of the run, whoever takes it. */
  lemma OneStep(s: State, l: Label, sid: Sid)
    requires HandshakeInv(s) && Enabled(s, l) && !IsRestart(l) && sid in s.sessions
    ensures HandshakeInv(Apply(s, l)) && sid in Apply(s, l).sessions
    ensures (if OwnStep(l, sid) then 1 else 0) + Rank(Apply(s, l).sessions[sid]) <= Rank(s.sessions[sid])
  {
    Survives(s, l, sid);
    HandshakeStep(s, l);
    RankFalls(s, l, sid);
  }

  lemma {:induction false} RankRun(s: State, run: seq<Label>, sid: Sid)
    requires HandshakeInv(s) && Legal(s, run) && sid in s.sessions
    requires NoRestart(run)
    ensures sid in After(s, run).sessions
    ensures OwnSteps(run, sid) + Rank(After(s, run).sessions[sid]) <= Rank(s.sessions[sid])
    decreases |run|
  {
    if run == [] {
    } else {
      OneStep(s, run[0], sid);
      RankRun(Apply(s, run[0]), run[1..], sid);
    }
  }

  /** A session's goroutines take at most twelve steps between them, however the run goes. */
  lemma BoundedSteps(s: State, run: seq<Label>, sid: Sid)
    requires HandshakeInv(s) && Legal(s, run) && sid in s.sessions
    requires NoRestart(run)
    ensures sid in After(s, run).sessions
    ensures OwnSteps(run, sid) + Rank(After(s, run).sessions[sid]) <= Rank(s.sessions[sid]) <= 12
  {
    RankRun(s, run, sid);
    RankMax(s.sessions[sid]);
  }

  /** When all sessions are done the map is empty. */
  lemma EmptyWhenAllDone(s: State)
    requires Reachable(s)
    requires forall t :: t in s.sessions ==> s.sessions[t].pc == Done
    ensures s.conns == map[]
  {
    ReachableHandshake(s);
    forall p
      ensures p !in s.conns
    {
      assert p in s.conns ==> Owned(s, p);
      assert p in s.conns ==> SessionOk(s.sessions[s.conns[p].ws]);
    }
  }

  /** A kick closes the WebSocket of the session registered under the port it saw, and no other. */
  lemma CloseHitsHolder(s: State, kid: Kid, t: Sid)
    requires Reachable(s) && Enabled(s, Kick(kid, CloseWS)) && t in s.sessions
    ensures t in Apply(s, Kick(kid, CloseWS)).sessions
    ensures Apply(s, Kick(kid, CloseWS)).sessions[t].wsOpen <==>
            s.sessions[t].wsOpen && !(Registered(s.sessions[t]) && s.sessions[t].port == s.kickers[kid].pc.port)
  {
    ReachableHandshake(s);
    var p := s.kickers[kid].pc.port;
    assert p in s.conns ==> Owned(s, p);
    assert Listed(s, t);
  }
}
