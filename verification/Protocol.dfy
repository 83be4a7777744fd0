/**
 Sessions, admission and kicks as a labelled step system.

 Each VPN WebSocket request runs two goroutines: the handler itself and the one that registers its source
 port.  Each kick runs on its own.  A label names one atomic step of one of them (or of the environment)
 together with everything the step cannot decide by itself: the port the dial got, whether a write, an
 upgrade or a management command succeeded.  A run is any interleaving.
 */
module Protocol {
  import opened Text
  import opened Vpn

  type Id = nat      // an instance; UUIDs are never reused
  type Sid = nat     // a WebSocket request
  type Kid = nat     // a kick
  type Port = nat    // a TCP source port; 0 where the address is not a TCP address

  /** The manager's record of an instance.  Goroutines may keep reading it after it was deleted. */
  datatype Instance = Instance(live: bool, running: bool, locked: bool, maxClients: int)

  /** Where the handler goroutine of a session stands. */
  datatype Pc =
    | Found                            // the instance exists and is running
    | Unlocked                         // the lock check let it pass
    | Admitted                         // the limit check let it pass
    | Resolved                         // VPNAddr answered
    | Upgraded                         // the WebSocket is up and the registering goroutine was started
    | Dialed(ok: bool)                 // the dial returned, nothing was sent on portCh yet
    | Bridging                         // the relay loops run
    | Stopped                          // BridgeWSToTCP returned; waits on registered
    | Removing                         // got a port back and is about to delete its entry
    | Done

  /** Where the registering goroutine of a session stands. */
  datatype Reg = NotStarted | WaitPort | Insert | Reply | Exited

  datatype Session = Session(
    inst: Id, clientIP: string, pc: Pc, reg: Reg,
    port: Port,                        // set by the dial
    portCh: Option<Port>,              // the two channels have capacity one
    registered: Option<Port>,
    wsOpen: bool)

  /** An entry of Handler.conns. */
  datatype VpnConn = VpnConn(localPort: Port, httpClientIP: string, instanceID: Id, ws: Sid)

  /** Where a kick stands: CCD write, listing, WebSocket close, second CCD write, management kill. */
  datatype KickPc = Disable | Listing | Closing(port: Port) | Rewrite | Kill | Ended(killed: bool)

  /** One kick of cn on an instance.  handler: requested over HTTP, where a failed first write ends it; bans
      and the timeout enforcer go on.  wrote: some CCD write of this kick succeeded. */
  datatype Kicker = Kicker(handler: bool, inst: Id, cn: Cn, pc: KickPc, wrote: bool)

  /** A client OpenVPN holds: real_addr's port is the port of the session that carries it. */
  datatype Online = Online(inst: Id, cn: Cn, port: Port)

  datatype State = State(
    cfgMax: int,
    insts: map<Id, Instance>,
    sessions: map<Sid, Session>,
    conns: map<Port, VpnConn>,
    kickers: map<Kid, Kicker>,
    ccd: set<(Id, Cn)>,                // files under instances/<id>/ccd that say "disable"
    online: set<Online>)

  /** Registry operations.  Restart: the process ends between two steps; the instances in up come up again. */
  datatype AdminStep =
    | Create(id: Id)
    | Start(id: Id)
    | Stop(id: Id)
    | Delete(id: Id)
    | SetLocked(id: Id, locked: bool)
    | SetMaxClients(id: Id, max: int)
    | Restart(up: set<Id>)

  /** Steps of the handler goroutine of a session. */
  datatype HandlerStep =
    | CheckLock
    | CheckLimit
    | Resolve
    | Upgrade(ok: bool)
    | Dial(ok: bool, port: Port)
    | SendPort
    | EndBridge
    | AwaitRegistered
    | Remove

  /** Steps of the registering goroutine of a session. */
  datatype RegistrarStep = ReceivePort | InsertConn | SendRegistered

  /** OpenVPN: a client authenticates over a bridged session, or OpenVPN notices that clients are gone. */
  datatype VpnStep = Join(sid: Sid, cn: Cn) | Drop(gone: set<Online>)

  datatype KickStep =
    | DisableCN(ok: bool)
    | ListClients(seen: Option<Port>)
    | CloseWS
    | RewriteCCD(ok: bool)
    | MgmtKill(ok: bool)

  datatype Label =
    | Admin(a: AdminStep)
    | Arrive(sid: Sid, id: Id, ip: string)
    | Handler(sid: Sid, h: HandlerStep)
    | Registrar(sid: Sid, r: RegistrarStep)
    | Vpn(v: VpnStep)
    | BeginKick(kid: Kid, handler: bool, id: Id, cn: Cn)
    | Kick(kid: Kid, k: KickStep)

  // ---------- Functions of the program the steps use ----------

  function EffectiveMax(s: State, id: Id): int
    requires id in s.insts
  {
    if s.insts[id].maxClients > 0 then s.insts[id].maxClients else s.cfgMax
  }

  /** The ports countConns counts for an instance. */
  function PortsOn(conns: map<Port, VpnConn>, id: Id): set<Port> {
    set p | p in conns && conns[p].instanceID == id
  }

  function PortsOf(s: State, id: Id): set<Port> {
    PortsOn(s.conns, id)
  }

  predicate Live(s: State, id: Id) {
    id in s.insts && s.insts[id].live
  }

  predicate Running(s: State, id: Id) {
    Live(s, id) && s.insts[id].running
  }

  predicate Connected(s: State, id: Id, cn: Cn) {
    exists o :: o in s.online && o.inst == id && o.cn == cn
  }

  function WithoutCN(online: set<Online>, id: Id, cn: Cn): set<Online> {
    set o | o in online && !(o.inst == id && o.cn == cn)
  }

  function WithoutInstance(online: set<Online>, id: Id): set<Online> {
    set o | o in online && o.inst != id
  }

  // ---------- When a step is possible ----------

  predicate AdminCan(s: State, a: AdminStep) {
    match a
    case Create(id) => id !in s.insts
    case Restart(_) => true
    case _ => Live(s, a.id)
  }

  /** The port is held by no session that has not deleted its entry yet: the 1:1 mapping the code relies on. */
  predicate FreshPort(s: State, p: Port) {
    forall t :: t in s.sessions && s.sessions[t].port == p ==> s.sessions[t].pc == Done
  }

  predicate HandlerCan(s: State, t: Session, h: HandlerStep) {
    match h
    case CheckLock => t.pc == Found && t.inst in s.insts
    case CheckLimit => t.pc == Unlocked && t.inst in s.insts
    case Resolve => t.pc == Admitted
    case Upgrade(_) => t.pc == Resolved
    case Dial(ok, port) => t.pc == Upgraded && (port == 0 || (ok && FreshPort(s, port)))
    case SendPort => t.pc.Dialed? && t.portCh == None
    case EndBridge => t.pc == Bridging
    case AwaitRegistered => t.pc == Stopped && t.registered.Some?
    case Remove => t.pc == Removing
  }

  predicate RegistrarCan(t: Session, r: RegistrarStep) {
    match r
    case ReceivePort => t.reg == WaitPort && t.portCh.Some?
    case InsertConn => t.reg == Insert
    case SendRegistered => t.reg == Reply && t.registered == None
  }

  predicate VpnCan(s: State, v: VpnStep) {
    match v
    case Join(sid, cn) =>
      sid in s.sessions && s.sessions[sid].pc == Bridging &&
      Running(s, s.sessions[sid].inst) && (s.sessions[sid].inst, cn) !in s.ccd
    case Drop(_) => true
  }

  /** A CCD write by a kick can only succeed for a valid name in the directory of a live instance. */
  predicate CanWrite(s: State, k: Kicker) {
    ValidCN(k.cn) && Live(s, k.inst)
  }

  predicate KickCan(s: State, k: Kicker, step: KickStep) {
    match step
    case DisableCN(ok) => k.pc == Disable && (ok ==> CanWrite(s, k))
    case ListClients(seen) =>
      k.pc == Listing && (seen.Some? ==> seen.value != 0 && Online(k.inst, k.cn, seen.value) in s.online)
    case CloseWS => k.pc.Closing?
    case RewriteCCD(ok) => k.pc == Rewrite && (ok ==> CanWrite(s, k))
    case MgmtKill(_) => k.pc == Kill
  }

  predicate Enabled(s: State, l: Label) {
    match l
    case Admin(a) => AdminCan(s, a)
    case Arrive(sid, id, _) => sid !in s.sessions && Running(s, id)
    case Handler(sid, h) => sid in s.sessions && HandlerCan(s, s.sessions[sid], h)
    case Registrar(sid, r) => sid in s.sessions && RegistrarCan(s.sessions[sid], r)
    case Vpn(v) => VpnCan(s, v)
    case BeginKick(kid, _, _, _) => kid !in s.kickers
    case Kick(kid, k) => kid in s.kickers && KickCan(s, s.kickers[kid], k)
  }

  // ---------- What a step does ----------

  function AdminNext(s: State, a: AdminStep): State
    requires AdminCan(s, a)
  {
    match a
    case Create(id) => s.(insts := s.insts[id := Instance(true, true, false, 0)])
    case Start(id) => s.(insts := s.insts[id := s.insts[id].(running := true)])
    case Stop(id) =>
      s.(insts := s.insts[id := s.insts[id].(running := false)], online := WithoutInstance(s.online, id))
    case Delete(id) =>
      s.(insts := s.insts[id := s.insts[id].(live := false)],
         online := WithoutInstance(s.online, id),
         ccd := set f | f in s.ccd && f.0 != id)
    case SetLocked(id, locked) => s.(insts := s.insts[id := s.insts[id].(locked := locked)])
    case SetMaxClients(id, max) =>
      s.(insts := s.insts[id := s.insts[id].(maxClients := if max <= 0 then 0 else max)])
    case Restart(up) =>
      s.(insts := map id | id in s.insts :: s.insts[id].(running := id in up),
         sessions := map[], conns := map[], kickers := map[], online := {})
  }

  function HandlerNext(s: State, t: Session, h: HandlerStep): Session
    requires HandlerCan(s, t, h)
  {
    match h
    case CheckLock => t.(pc := if s.insts[t.inst].locked then Done else Unlocked)
    case CheckLimit =>
      var max := EffectiveMax(s, t.inst);
      t.(pc := if max > 0 && |PortsOf(s, t.inst)| >= max then Done else Admitted)
    case Resolve => t.(pc := if Running(s, t.inst) then Resolved else Done)
    case Upgrade(ok) => if ok then t.(pc := Upgraded, reg := WaitPort, wsOpen := true) else t.(pc := Done)
    case Dial(ok, port) => t.(pc := Dialed(ok), port := port)
    case SendPort => t.(portCh := Some(t.port), pc := if t.pc.ok then Bridging else Stopped)
    case EndBridge => t.(pc := Stopped)
    case AwaitRegistered =>
      if t.registered.value != 0 then t.(registered := None, pc := Removing)
      else t.(registered := None, pc := Done, wsOpen := false)
    case Remove => t.(pc := Done, wsOpen := false)
  }

  function RegistrarNext(t: Session, r: RegistrarStep): Session
    requires RegistrarCan(t, r)
  {
    match r
    case ReceivePort => t.(portCh := None, reg := if t.portCh.value != 0 then Insert else Reply)
    case InsertConn => t.(reg := Reply)
    case SendRegistered => t.(registered := Some(t.port), reg := Exited)
  }

  function KickNext(s: State, k: Kicker, step: KickStep): Kicker
    requires KickCan(s, k, step)
  {
    match step
    case DisableCN(ok) => k.(pc := if ok || !k.handler then Listing else Ended(false), wrote := k.wrote || ok)
    case ListClients(seen) => k.(pc := if seen.Some? then Closing(seen.value) else Rewrite)
    case CloseWS => k.(pc := Rewrite)
    case RewriteCCD(ok) => k.(pc := if CanWrite(s, k) then Kill else Ended(false), wrote := k.wrote || ok)
    case MgmtKill(ok) => k.(pc := Ended(ok))
  }

  /** The sessions after a kick closed the WebSocket registered under the port it saw, if there is one. */
  function Closed(s: State, k: Kicker): map<Sid, Session>
    requires k.pc.Closing?
  {
    var p := k.pc.port;
    if p in s.conns && s.conns[p].ws in s.sessions
    then s.sessions[s.conns[p].ws := s.sessions[s.conns[p].ws].(wsOpen := false)] else s.sessions
  }

  /** What a kick does to the rest of the state. */
  function KickEffect(s: State, k: Kicker, step: KickStep): State
    requires KickCan(s, k, step)
  {
    match step
    case DisableCN(ok) => if ok then s.(ccd := s.ccd + {(k.inst, k.cn)}) else s
    case ListClients(_) => s
    case CloseWS => s.(sessions := Closed(s, k))
    case RewriteCCD(ok) => if ok then s.(ccd := s.ccd + {(k.inst, k.cn)}) else s
    case MgmtKill(ok) => if ok then s.(online := WithoutCN(s.online, k.inst, k.cn)) else s
  }

  function Apply(s: State, l: Label): State
    requires Enabled(s, l)
  {
    match l
    case Admin(a) => AdminNext(s, a)
    case Arrive(sid, id, ip) =>
      s.(sessions := s.sessions[sid := Session(id, ip, Found, NotStarted, 0, None, None, false)])
    case Handler(sid, h) =>
      var t := s.sessions[sid];
      s.(sessions := s.sessions[sid := HandlerNext(s, t, h)],
         conns := if h == Remove then s.conns - {t.port} else s.conns)
    case Registrar(sid, r) =>
      var t := s.sessions[sid];
      s.(sessions := s.sessions[sid := RegistrarNext(t, r)],
         conns := if r == InsertConn then s.conns[t.port := VpnConn(t.port, t.clientIP, t.inst, sid)] else s.conns)
    case Vpn(Join(sid, cn)) =>
      s.(online := s.online + {Online(s.sessions[sid].inst, cn, s.sessions[sid].port)})
    case Vpn(Drop(gone)) => s.(online := s.online - gone)
    case BeginKick(kid, handler, id, cn) =>
      s.(kickers := s.kickers[kid := Kicker(handler, id, cn, Disable, false)])
    case Kick(kid, k) =>
      KickEffect(s, s.kickers[kid], k).(kickers := s.kickers[kid := KickNext(s, s.kickers[kid], k)])
  }

  // ---------- Runs ----------

  predicate Init(s: State) {
    s.insts == map[] && s.sessions == map[] && s.conns == map[] && s.kickers == map[] && s.ccd == {} && s.online == {}
  }

  /** A run from s, given by its labels: every step is possible where it is taken. */
  predicate Legal(s: State, run: seq<Label>)
    decreases |run|
  {
    run == [] || (Enabled(s, run[0]) && Legal(Apply(s, run[0]), run[1..]))
  }

  /** The state a run ends in. */
  function After(s: State, run: seq<Label>): State
    requires Legal(s, run)
    decreases |run|
  {
    if run == [] then s else After(Apply(s, run[0]), run[1..])
  }

  lemma {:induction false} Sequence(s: State, first: seq<Label>, rest: seq<Label>)
    ensures Legal(s, first + rest) <==> Legal(s, first) && Legal(After(s, first), rest)
    ensures Legal(s, first + rest) ==> After(s, first + rest) == After(After(s, first), rest)
    decreases |first|
  {
    if first == [] {
      assert first + rest == rest;
    } else {
      assert (first + rest)[1..] == first[1..] + rest;
      if Enabled(s, first[0]) {
        Sequence(Apply(s, first[0]), first[1..], rest);
      }
    }
  }

  predicate IsRestart(l: Label) {
    l.Admin? && l.a.Restart?
  }

  /** The run stays within one life of the process, which is as long as a session can exist. */
  predicate NoRestart(run: seq<Label>) {
    run == [] || (!IsRestart(run[0]) && NoRestart(run[1..]))
  }

  /** And no request comes in. */
  predicate Inside(run: seq<Label>) {
    run == [] || (!run[0].Arrive? && !IsRestart(run[0]) && Inside(run[1..]))
  }

  lemma {:induction false} NoRestartBoth(first: seq<Label>, rest: seq<Label>)
    requires NoRestart(first) && NoRestart(rest)
    ensures NoRestart(first + rest)
  {
    if first == [] {
      assert first + rest == rest;
    } else {
      NoRestartBoth(first[1..], rest);
      assert (first + rest)[1..] == first[1..] + rest && (first + rest)[0] == first[0];
    }
  }

  lemma {:induction false} InsideBoth(first: seq<Label>, rest: seq<Label>)
    requires Inside(first) && Inside(rest)
    ensures Inside(first + rest)
  {
    if first == [] {
      assert first + rest == rest;
    } else {
      InsideBoth(first[1..], rest);
      assert (first + rest)[0] == first[0] && (first + rest)[1..] == first[1..] + rest;
    }
  }

  lemma {:induction false} InsideNoRestart(run: seq<Label>)
    requires Inside(run)
    ensures NoRestart(run)
  {
    if run == [] {
    } else {
      InsideNoRestart(run[1..]);
    }
  }

  /** A reachable state. */
  ghost predicate Reachable(s: State) {
    exists s0, run :: Init(s0) && Legal(s0, run) && s == After(s0, run)
  }
}
