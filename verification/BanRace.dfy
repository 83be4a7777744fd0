/**
 A ban among requests that keep coming.  The block check is the outermost middleware, so a request passes it a
 while before its handler looks at anything.  The ban blocks the IP and goes on in a goroutine of its own: it takes a
 snapshot of the IP's ports, then lists the clients of one instance after the other and kicks those that come from
 one of the ports, while everything else goes on.
 */
module BanRace {
  import opened Text
  import opened Vpn
  import opened Protocol
  import opened KickSafety
  import opened Handshake
  import opened Carrying
  import H = Handling

  type Bid = nat     // a ban

  /** Where a ban stands. */
  datatype BanPc =
    | Snapshot
    | Instances                        // the ports are taken
    | Visiting                         // between two kicks or two instances
    | Kicking(kid: Kid)                // waits for a kick of its own
    | Over

  /** ports: the snapshot; todo: the instances still to be listed; left: the clients found in the last listing that
      are still to be kicked; kicks: the kick of each client kicked so far. */
  datatype Ban = Ban(ip: string, pc: BanPc, ports: set<int>, todo: set<Id>, left: set<Online>, kicks: map<Online, Kid>)

  datatype BanStep =
    | TakePorts
    | TakeInstances
    | Query(id: Id, ok: bool)          // ok: the instance runs and its management port answers
    | KickFound(o: Online, kid: Kid)
    | KickReturned
    | Finish

  predicate BanCan(s: State, b: Ban, step: BanStep) {
    match step
    case TakePorts => b.pc == Snapshot
    case TakeInstances => b.pc == Instances
    case Query(id, ok) => b.pc == Visiting && b.left == {} && id in b.todo && (ok ==> Running(s, id))
    case KickFound(o, kid) => b.pc == Visiting && o in b.left && kid !in s.kickers
    case KickReturned => b.pc.Kicking? && b.pc.kid in s.kickers && s.kickers[b.pc.kid].pc.Ended?
    case Finish => b.pc == Visiting && b.left == {} && b.todo == {}
  }

  /** The listed clients of an instance whose source port is one of some. */
  function From(s: State, id: Id, ports: set<int>): set<Online> {
    set o | o in s.online && o.inst == id && o.port in ports
  }

  function BanNext(s: State, b: Ban, step: BanStep): Ban
    requires BanCan(s, b, step)
  {
    match step
    case TakePorts =>
      var ports := H.PortsOfIP(s.conns, b.ip);
      b.(ports := ports, pc := if ports == {} then Over else Instances)
    case TakeInstances => b.(pc := Visiting, todo := set id | id in s.insts && s.insts[id].live)
    case Query(id, ok) => b.(todo := b.todo - {id}, left := if ok then From(s, id, b.ports) else {})
    case KickFound(o, kid) => b.(left := b.left - {o}, kicks := b.kicks[o := kid], pc := Kicking(kid))
    case KickReturned => b.(pc := Visiting)
    case Finish => b.(pc := Over)
  }

  /** blocked: the IPs the blocker refuses; passed: the requests that are past the middleware, by their IP. */
  datatype World = World(s: State, blocked: set<string>, passed: map<Sid, string>, bans: map<Bid, Ban>)

  /** Block: without a ban, after ten failed logins. */
  datatype Move =
    | Base(l: Label)
    | Pass(sid: Sid, ip: string)
    | Block(ip: string)
    | Unblock(ip: string)
    | BeginBan(bid: Bid, ip: string)
    | Banning(bid: Bid, step: BanStep)

  predicate CanMove(w: World, m: Move) {
    match m
    case Base(l) => Enabled(w.s, l) && (l.Arrive? ==> l.sid in w.passed && w.passed[l.sid] == l.ip)
    case Pass(sid, ip) => ip !in w.blocked && sid !in w.passed
    case Block(_) => true
    case Unblock(_) => true
    case BeginBan(bid, _) => bid !in w.bans
    case Banning(bid, step) => bid in w.bans && BanCan(w.s, w.bans[bid], step)
  }

  /** The step of the base system in a move, if there is one. */
  function LabelOf(m: Move): Option<Label> {
    match m
    case Base(l) => Some(l)
    case Banning(_, KickFound(o, kid)) => Some(BeginKick(kid, false, o.inst, o.cn))
    case _ => None
  }

  predicate Restarts(m: Move) {
    m.Base? && IsRestart(m.l)
  }

  /** The blocked IPs outlive the process, requests and bans do not. */
  function Moved(w: World, m: Move): World
    requires CanMove(w, m)
  {
    var s := if LabelOf(m).Some? then Apply(w.s, LabelOf(m).value) else w.s;
    match m
    case Base(l) => if IsRestart(l) then World(s, w.blocked, map[], map[]) else w.(s := s)
    case Pass(sid, ip) => w.(passed := w.passed[sid := ip])
    case Block(ip) => w.(blocked := w.blocked + {ip})
    case Unblock(ip) => w.(blocked := w.blocked - {ip})
    case BeginBan(bid, ip) =>
      w.(blocked := w.blocked + {ip}, bans := w.bans[bid := Ban(ip, Snapshot, {}, {}, {}, map[])])
    case Banning(bid, step) => w.(s := s, bans := w.bans[bid := BanNext(w.s, w.bans[bid], step)])
  }

  predicate CanGo(w: World, run: seq<Move>)
    decreases |run|
  {
    run == [] || (CanMove(w, run[0]) && CanGo(Moved(w, run[0]), run[1..]))
  }

  function Gone(w: World, run: seq<Move>): World
    requires CanGo(w, run)
    decreases |run|
  {
    if run == [] then w else Gone(Moved(w, run[0]), run[1..])
  }

  /** The administrator does not lift the ban. */
  predicate StaysBlocked(run: seq<Move>, ip: string) {
    run == [] || (run[0] != Unblock(ip) && StaysBlocked(run[1..], ip))
  }

  predicate NoRestarts(run: seq<Move>) {
    run == [] || (!Restarts(run[0]) && NoRestarts(run[1..]))
  }

  // ---------- What every run keeps ----------

  /** Every session is that of a request that passed the middleware with its IP. */
  predicate PassedFirst(w: World) {
    forall t :: t in w.s.sessions ==> t in w.passed && w.passed[t] == w.s.sessions[t].clientIP
  }

  /** A kick of a ban is one of the client's name; only the one the ban waits for has not ended. */
  predicate KickFits(s: State, b: Ban, o: Online)
    requires o in b.kicks
  {
    var kid := b.kicks[o];
    && kid in s.kickers && s.kickers[kid].inst == o.inst && s.kickers[kid].cn == o.cn
    && (s.kickers[kid].pc.Ended? || b.pc == Kicking(kid))
  }

  predicate BanOk(s: State, b: Ban) {
    && (forall o :: o in b.kicks ==> KickFits(s, b, o) && o.inst !in b.todo)
    && (forall o :: o in b.left ==> o.inst !in b.todo)
    && (b.pc in {Snapshot, Instances} ==> b.todo == {} && b.left == {} && b.kicks == map[])
    && (b.pc == Over ==> b.todo == {} && b.left == {})
    && (b.pc.Kicking? ==> b.pc.kid in s.kickers)
  }

  ghost predicate WorldInv(w: World) {
    && HandshakeInv(w.s) && KickInv(w.s) && ThroughOut(w.s) && PassedFirst(w)
    && forall bid :: bid in w.bans ==> BanOk(w.s, w.bans[bid])
  }

  lemma WorldStarts(w: World)
    requires Init(w.s) && w.passed == map[] && w.bans == map[]
    ensures WorldInv(w)
  {}

  lemma IPStays(s: State, l: Label, t: Sid)
    requires Enabled(s, l) && t in Apply(s, l).sessions
    ensures t in s.sessions ==> Apply(s, l).sessions[t].clientIP == s.sessions[t].clientIP
    ensures t !in s.sessions ==> l.Arrive? && l.sid == t && Apply(s, l).sessions[t].clientIP == l.ip
  {}

  lemma LabelEnabled(w: World, m: Move)
    requires CanMove(w, m) && LabelOf(m).Some?
    ensures Enabled(w.s, LabelOf(m).value)
    ensures IsRestart(LabelOf(m).value) ==> Restarts(m)
  {}

  lemma StateMoved(w: World, m: Move)
    requires CanMove(w, m)
    ensures LabelOf(m).Some? ==> Enabled(w.s, LabelOf(m).value)
    ensures Moved(w, m).s == if LabelOf(m).Some? then Apply(w.s, LabelOf(m).value) else w.s
  {}

  lemma PassedKept(w: World, m: Move)
    requires PassedFirst(w) && CanMove(w, m)
    ensures PassedFirst(Moved(w, m))
  {
    StateMoved(w, m);
    if LabelOf(m).Some? && !Restarts(m) {
      forall t | t in Moved(w, m).s.sessions
        ensures t in w.passed && w.passed[t] == Moved(w, m).s.sessions[t].clientIP
      {
        IPStays(w.s, LabelOf(m).value, t);
      }
    }
  }

  /** A ban while others step. */
  lemma BanFrame(s: State, l: Label, b: Ban)
    requires BanOk(s, b) && Enabled(s, l) && !IsRestart(l)
    ensures BanOk(Apply(s, l), b)
  {
    forall o | o in b.kicks
      ensures KickFits(Apply(s, l), b, o)
    {
      assert KickFits(s, b, o);
      KickStays(s, l, b.kicks[o]);
    }
  }

  /** A ban after a step of its own that kicks nobody. */
  lemma QuietStep(s: State, b: Ban, step: BanStep)
    requires BanOk(s, b) && BanCan(s, b, step) && !step.KickFound?
    ensures BanOk(s, BanNext(s, b, step))
  {
    var b' := BanNext(s, b, step);
    forall o | o in b'.kicks
      ensures KickFits(s, b', o)
    {
      assert o in b.kicks && KickFits(s, b, o);
    }
  }

  /** And after the one that starts a kick. */
  lemma KickStep(s: State, b: Ban, o: Online, kid: Kid)
    requires BanOk(s, b) && BanCan(s, b, KickFound(o, kid))
    ensures BanOk(Apply(s, BeginKick(kid, false, o.inst, o.cn)), BanNext(s, b, KickFound(o, kid)))
  {
    var l, b' := BeginKick(kid, false, o.inst, o.cn), BanNext(s, b, KickFound(o, kid));
    BanFrame(s, l, b);
    forall u | u in b'.kicks
      ensures KickFits(Apply(s, l), b', u)
    {
      assert u != o ==> u in b.kicks && KickFits(s, b, u) && KickFits(Apply(s, l), b, u);
    }
  }

  lemma BanKept(w: World, m: Move, bid: Bid)
    requires CanMove(w, m) && bid in Moved(w, m).bans
    requires bid in w.bans ==> BanOk(w.s, w.bans[bid])
    ensures BanOk(Moved(w, m).s, Moved(w, m).bans[bid])
  {
    StateMoved(w, m);
    if m.Banning? && m.bid == bid {
      if m.step.KickFound? {
        KickStep(w.s, w.bans[bid], m.step.o, m.step.kid);
      } else {
        QuietStep(w.s, w.bans[bid], m.step);
      }
    } else if bid in w.bans && LabelOf(m).Some? {
      BanFrame(w.s, LabelOf(m).value, w.bans[bid]);
    }
  }

  lemma WorldStep(w: World, m: Move)
    requires WorldInv(w) && CanMove(w, m)
    ensures WorldInv(Moved(w, m))
  {
    StateMoved(w, m);
    if LabelOf(m).Some? {
      HandshakeStep(w.s, LabelOf(m).value);
      KickInvStep(w.s, LabelOf(m).value);
      ThroughStep(w.s, LabelOf(m).value);
    }
    PassedKept(w, m);
    forall bid | bid in Moved(w, m).bans
      ensures BanOk(Moved(w, m).s, Moved(w, m).bans[bid])
    {
      BanKept(w, m, bid);
    }
  }

  /** In every interleaving of requests, logins, kicks, bans and administrator steps: all the invariants of the base
      system, every session's request passed the middleware, and every kick a ban began has the name and the instance
      of the client the ban found, and has ended when the ban goes on. */
  lemma {:induction false} WorldRun(w: World, run: seq<Move>)
    requires WorldInv(w) && CanGo(w, run)
    ensures WorldInv(Gone(w, run))
    decreases |run|
  {
    if run == [] {
    } else {
      WorldStep(w, run[0]);
      WorldRun(Moved(w, run[0]), run[1..]);
    }
  }

  // ---------- Whom a blocked IP still has ----------

  /** Every request of the IP in the later state was past the middleware in the earlier one. */
  predicate NoneNew(earlier: World, later: World, ip: string) {
    forall t :: t in later.passed && later.passed[t] == ip ==> t in earlier.passed && earlier.passed[t] == ip
  }

  lemma NoneNewStep(w: World, m: Move, ip: string)
    requires CanMove(w, m) && ip in w.blocked && m != Unblock(ip)
    ensures ip in Moved(w, m).blocked && NoneNew(w, Moved(w, m), ip)
  {}

  /** Blocking an IP, by a ban or after failed logins, shuts out its requests and no others; lifting the block lets them
      in again. */
  lemma BlockShutsOut(w: World, ip: string, bid: Bid, sid: Sid, other: string)
    requires sid !in w.passed && bid !in w.bans && other != ip
    ensures !CanMove(Moved(w, Block(ip)), Pass(sid, ip)) && !CanMove(Moved(w, BeginBan(bid, ip)), Pass(sid, ip))
    ensures CanMove(Moved(w, Unblock(ip)), Pass(sid, ip))
    ensures CanMove(w, Pass(sid, other)) <==> CanMove(Moved(w, Block(ip)), Pass(sid, other))
    ensures CanMove(w, Pass(sid, other)) <==> CanMove(Moved(w, BeginBan(bid, ip)), Pass(sid, other))
    ensures CanMove(w, Pass(sid, other)) <==> CanMove(Moved(w, Unblock(ip)), Pass(sid, other))
    ensures Moved(w, Block(ip)).s == Moved(w, BeginBan(bid, ip)).s == Moved(w, Unblock(ip)).s == w.s
  {}

  /** Once an IP is blocked, and until the ban is lifted, no request of it gets past the middleware: in every later
      state, whatever runs, each of its sessions is that of a request that was past it already. */
  lemma {:induction false} NoNewRequests(w: World, run: seq<Move>, ip: string)
    requires PassedFirst(w) && CanGo(w, run) && ip in w.blocked && StaysBlocked(run, ip)
    ensures var r := Gone(w, run);
            && PassedFirst(r) && ip in r.blocked && NoneNew(w, r, ip)
            && forall t :: t in r.s.sessions && r.s.sessions[t].clientIP == ip ==> t in w.passed && w.passed[t] == ip
    decreases |run|
  {
    if run == [] {
    } else {
      PassedKept(w, run[0]);
      NoneNewStep(w, run[0], ip);
      NoNewRequests(Moved(w, run[0]), run[1..], ip);
    }
  }

  // ---------- Whom a ban kicks ----------

  /** Found, and kicked or about to be. */
  predicate Chosen(b: Ban, o: Online) {
    o in b.left || o in b.kicks
  }

  /** The instance was listed, or skipped. */
  predicate Visited(b: Ban, id: Id) {
    b.pc !in {Snapshot, Instances} && id !in b.todo
  }

  lemma BanStays(w: World, m: Move, bid: Bid)
    requires CanMove(w, m) && !Restarts(m) && bid in w.bans && !(m.Banning? && m.bid == bid)
    ensures bid in Moved(w, m).bans && Moved(w, m).bans[bid] == w.bans[bid]
  {}

  lemma ChoiceStep(s: State, b: Ban, step: BanStep, o: Online)
    requires BanOk(s, b) && BanCan(s, b, step)
    ensures var b' := BanNext(s, b, step);
            && b'.ip == b.ip && (b.pc != Snapshot ==> b'.ports == b.ports && b'.pc != Snapshot)
            && (Visited(b, o.inst) ==> Visited(b', o.inst) && (Chosen(b', o) <==> Chosen(b, o)))
  {}

  lemma {:induction false} ChoiceRun(w: World, run: seq<Move>, bid: Bid, o: Online)
    requires WorldInv(w) && CanGo(w, run) && NoRestarts(run) && bid in w.bans && w.bans[bid].pc != Snapshot
    ensures bid in Gone(w, run).bans
    ensures var b, b' := w.bans[bid], Gone(w, run).bans[bid];
            && b'.ip == b.ip && b'.ports == b.ports && b'.pc != Snapshot
            && (Visited(b, o.inst) ==> Visited(b', o.inst) && (Chosen(b', o) <==> Chosen(b, o)))
    decreases |run|
  {
    if run == [] {
    } else {
      WorldStep(w, run[0]);
      if run[0].Banning? && run[0].bid == bid {
        ChoiceStep(w.s, w.bans[bid], run[0].step, o);
      } else {
        BanStays(w, run[0], bid);
      }
      ChoiceRun(Moved(w, run[0]), run[1..], bid, o);
    }
  }

  /** A ban amid everything else: from the snapshot of its ports on r1 runs, then the ban lists the clients of an
      instance, then r2 runs. */
  predicate BanRun(w: World, bid: Bid, r1: seq<Move>, id: Id, r2: seq<Move>) {
    && CanMove(w, Banning(bid, TakePorts))
    && CanGo(Moved(w, Banning(bid, TakePorts)), r1) && NoRestarts(r1)
    && var listing := Gone(Moved(w, Banning(bid, TakePorts)), r1);
       CanMove(listing, Banning(bid, Query(id, true)))
       && CanGo(Moved(listing, Banning(bid, Query(id, true))), r2) && NoRestarts(r2)
  }

  function AtListing(w: World, bid: Bid, r1: seq<Move>, id: Id, r2: seq<Move>): World
    requires BanRun(w, bid, r1, id, r2)
  {
    Gone(Moved(w, Banning(bid, TakePorts)), r1)
  }

  function AtEnd(w: World, bid: Bid, r1: seq<Move>, id: Id, r2: seq<Move>): World
    requires BanRun(w, bid, r1, id, r2)
  {
    Gone(Moved(AtListing(w, bid, r1, id, r2), Banning(bid, Query(id, true))), r2)
  }

  /** The kick of a client has ended, and was one of its name on its instance. */
  predicate Kicked(w: World, bid: Bid, o: Online)
    requires bid in w.bans
  {
    o in w.bans[bid].kicks &&
    var kid := w.bans[bid].kicks[o];
    kid in w.s.kickers && w.s.kickers[kid].inst == o.inst && w.s.kickers[kid].cn == o.cn && w.s.kickers[kid].pc.Ended?
  }

  /** Whom a ban kicks, in every interleaving: when it is over, a client was kicked if and only if its instance listed
      it and its port was registered for the IP at the snapshot; and then its kick has ended. */
  lemma BanKicksIff(w: World, bid: Bid, r1: seq<Move>, id: Id, r2: seq<Move>, o: Online)
    requires WorldInv(w) && BanRun(w, bid, r1, id, r2) && o.inst == id
    ensures var end := AtEnd(w, bid, r1, id, r2);
            && WorldInv(end) && bid in end.bans && end.bans[bid].ip == w.bans[bid].ip
            && (end.bans[bid].pc == Over ==>
                (o in end.bans[bid].kicks <==>
                 o in AtListing(w, bid, r1, id, r2).s.online && o.port in H.PortsOfIP(w.s.conns, w.bans[bid].ip))
                && (o in end.bans[bid].kicks ==> Kicked(end, bid, o)))
  {
    var taken := Moved(w, Banning(bid, TakePorts));
    WorldStep(w, Banning(bid, TakePorts));
    var listing := AtListing(w, bid, r1, id, r2);
    WorldRun(taken, r1);
    ChoiceRun(taken, r1, bid, o);
    var queried := Moved(listing, Banning(bid, Query(id, true)));
    WorldStep(listing, Banning(bid, Query(id, true)));
    assert Visited(queried.bans[bid], id);
    WorldRun(queried, r2);
    ChoiceRun(queried, r2, bid, o);
    var b := Gone(queried, r2).bans[bid];
    assert BanOk(Gone(queried, r2).s, b);
    assert o in b.kicks ==> KickFits(Gone(queried, r2).s, b, o);
  }

  lemma TodoStays(w: World, m: Move, bid: Bid, id: Id)
    requires WorldInv(w) && CanMove(w, m) && !Restarts(m) && bid in w.bans && id in w.bans[bid].todo
    ensures bid in Moved(w, m).bans
    ensures m in {Banning(bid, Query(id, true)), Banning(bid, Query(id, false))} || id in Moved(w, m).bans[bid].todo
  {
    if m.Banning? && m.bid == bid {
      assert BanOk(w.s, w.bans[bid]);
    }
  }

  lemma {:induction false} TodoDone(w: World, run: seq<Move>, bid: Bid, id: Id) returns (k: nat)
    requires WorldInv(w) && CanGo(w, run) && NoRestarts(run) && bid in w.bans && id in w.bans[bid].todo
    requires bid in Gone(w, run).bans && Gone(w, run).bans[bid].pc == Over
    ensures k < |run| && run[k] in {Banning(bid, Query(id, true)), Banning(bid, Query(id, false))}
    decreases |run|
  {
    assert BanOk(w.s, w.bans[bid]);
    if run[0] in {Banning(bid, Query(id, true)), Banning(bid, Query(id, false))} {
      k := 0;
    } else {
      TodoStays(w, run[0], bid, id);
      WorldStep(w, run[0]);
      k := TodoDone(Moved(w, run[0]), run[1..], bid, id);
      k := k + 1;
    }
  }

  /** The next step of a kick, if it fails wherever it can. */
  function NextKickStep(k: Kicker): KickStep
    requires !k.pc.Ended?
  {
    match k.pc
    case Disable => DisableCN(false)
    case Listing => ListClients(None)
    case Closing(_) => CloseWS
    case Rewrite => RewriteCCD(false)
    case Kill => MgmtKill(false)
  }

  /** A ban is never stuck, and never skips anything: it ends at once only where no port is registered for the IP, and
      otherwise takes the list of instances; while there is a client left to kick it can kick it, and while there is
      an instance left it can ask it; it is over when there is neither; and while it waits for a kick, that kick can
      step or has ended. */
  lemma BanNeverStuck(w: World, bid: Bid)
    requires WorldInv(w) && bid in w.bans
    ensures var b := w.bans[bid];
            && (b.pc == Snapshot ==>
                CanMove(w, Banning(bid, TakePorts)) &&
                Moved(w, Banning(bid, TakePorts)).bans[bid].pc ==
                if exists p :: p in w.s.conns && w.s.conns[p].httpClientIP == b.ip then Instances else Over)
            && (b.pc == Instances ==>
                CanMove(w, Banning(bid, TakeInstances)) && Moved(w, Banning(bid, TakeInstances)).bans[bid].pc == Visiting)
            && (b.pc == Visiting ==>
                && (forall o, kid :: o in b.left && kid !in w.s.kickers ==> CanMove(w, Banning(bid, KickFound(o, kid))))
                && (forall id :: id in b.todo && b.left == {} ==> CanMove(w, Banning(bid, Query(id, false))))
                && (forall id :: id in b.todo && b.left == {} && Running(w.s, id) ==>
                      CanMove(w, Banning(bid, Query(id, true))))
                && (CanMove(w, Banning(bid, Finish)) <==> b.left == {} && b.todo == {}))
            && (b.pc.Kicking? ==>
                b.pc.kid in w.s.kickers &&
                if w.s.kickers[b.pc.kid].pc.Ended? then CanMove(w, Banning(bid, KickReturned))
                else CanMove(w, Base(Kick(b.pc.kid, NextKickStep(w.s.kickers[b.pc.kid])))))
  {
    var b := w.bans[bid];
    assert BanOk(w.s, b);
    if b.pc == Snapshot {
      var ports := H.PortsOfIP(w.s.conns, b.ip);
      if p :| p in w.s.conns && w.s.conns[p].httpClientIP == b.ip {
        assert p in ports;
      }
      if ports != {} {
        var q :| q in ports;
      }
    }
  }

  /** A ban forgets no instance: between the moment it takes the list of instances and its end it asks each instance that
      exists at that moment for its clients. */
  lemma BanAsksAll(w: World, bid: Bid, run: seq<Move>, id: Id) returns (k: nat)
    requires WorldInv(w) && CanMove(w, Banning(bid, TakeInstances)) && id in w.s.insts && w.s.insts[id].live
    requires CanGo(Moved(w, Banning(bid, TakeInstances)), run) && NoRestarts(run)
    requires var end := Gone(Moved(w, Banning(bid, TakeInstances)), run); bid in end.bans && end.bans[bid].pc == Over
    ensures k < |run| && run[k] in {Banning(bid, Query(id, true)), Banning(bid, Query(id, false))}
  {
    WorldStep(w, Banning(bid, TakeInstances));
    k := TodoDone(Moved(w, Banning(bid, TakeInstances)), run, bid, id);
  }

  // ---------- Who is kept out, and who is not ----------

  /** The steps of the base system in a run. */
  function Labels(run: seq<Move>): seq<Label> {
    if run == [] then []
    else if LabelOf(run[0]).Some? then [LabelOf(run[0]).value] + Labels(run[1..])
    else Labels(run[1..])
  }

  lemma OneLabel(s: State, l: Label, rest: seq<Label>)
    requires Enabled(s, l) && Legal(Apply(s, l), rest)
    ensures Legal(s, [l] + rest) && After(s, [l] + rest) == After(Apply(s, l), rest)
    ensures !IsRestart(l) && NoRestart(rest) ==> NoRestart([l] + rest)
  {
    assert ([l] + rest)[0] == l && ([l] + rest)[1..] == rest;
  }

  lemma {:induction false} Projects(w: World, run: seq<Move>)
    requires CanGo(w, run)
    ensures Legal(w.s, Labels(run)) && After(w.s, Labels(run)) == Gone(w, run).s
    ensures NoRestarts(run) ==> NoRestart(Labels(run))
    decreases |run|
  {
    if run == [] {
    } else {
      StateMoved(w, run[0]);
      Projects(Moved(w, run[0]), run[1..]);
      if LabelOf(run[0]).Some? {
        OneLabel(w.s, LabelOf(run[0]).value, Labels(run[1..]));
      }
    }
  }

  /** A ban in every interleaving: when a kick of it has written its file and killed, its client is never connected
      again, whatever runs from there, the end of the ban included.  While the ban stands, the IP has no sessions but
      those of requests that were past the middleware already. */
  lemma BanHolds(w: World, run: seq<Move>, bid: Bid, o: Online)
    requires WorldInv(w) && CanGo(w, run)
    requires bid in w.bans && o in w.bans[bid].kicks && w.bans[bid].kicks[o] in w.s.kickers
    requires Through(w.s.kickers[w.bans[bid].kicks[o]])
    ensures !Connected(Gone(w, run).s, o.inst, o.cn)
    ensures var ip := w.bans[bid].ip; ip in w.blocked && StaysBlocked(run, ip) ==>
              forall t :: t in Gone(w, run).s.sessions && Gone(w, run).s.sessions[t].clientIP == ip ==>
                t in w.passed && w.passed[t] == ip
  {
    assert KickFits(w.s, w.bans[bid], o);
    Projects(w, run);
    OutForever(w.s, Labels(run), o.inst, o.cn);
    if w.bans[bid].ip in w.blocked && StaysBlocked(run, w.bans[bid].ip) {
      NoNewRequests(w, run, w.bans[bid].ip);
    }
  }

  /** Steps of the base system, as moves. */
  function Bases(labels: seq<Label>): seq<Move> {
    if labels == [] then [] else [Base(labels[0])] + Bases(labels[1..])
  }

  lemma {:induction false} Lifts(w: World, labels: seq<Label>, ip: string)
    requires Legal(w.s, labels) && Inside(labels)
    ensures CanGo(w, Bases(labels)) && Gone(w, Bases(labels)) == w.(s := After(w.s, labels))
    ensures StaysBlocked(Bases(labels), ip) && NoRestarts(Bases(labels))
    decreases |labels|
  {
    if labels == [] {
    } else {
      var m, rest := Base(labels[0]), Bases(labels[1..]);
      Lifts(Moved(w, m), labels[1..], ip);
      assert ([m] + rest)[0] == m && ([m] + rest)[1..] == rest;
    }
  }

  /** Some run of this process, during which the ban is not lifted, takes the session to where it carries the client
      over its open WebSocket. */
  ghost predicate GoesOn(w: World, sid: Sid, cn: Cn, ip: string) {
    exists run :: CanGo(w, run) && NoRestarts(run) && StaysBlocked(run, ip) && CarriesOpen(Gone(w, run).s, sid, cn)
  }

  lemma GoesOnIff(w: World, sid: Sid, cn: Cn, ip: string)
    requires HandshakeInv(w.s) && sid in w.s.sessions && NoneLeft(w.s, w.s.sessions[sid].inst, cn)
    ensures var t := w.s.sessions[sid];
            GoesOn(w, sid, cn, ip) <==> Live(w.s, t.inst) && (t.inst, cn) !in w.s.ccd && !Hopeless(t) && !WsClosed(t)
  {
    var t := w.s.sessions[sid];
    if Live(w.s, t.inst) && (t.inst, cn) !in w.s.ccd && !Hopeless(t) && !WsClosed(t) {
      var labels := Comes(w.s, sid, cn);
      Lifts(w, labels, ip);
    }
    if GoesOn(w, sid, cn, ip) {
      var run :| CanGo(w, run) && NoRestarts(run) && StaysBlocked(run, ip) && CarriesOpen(Gone(w, run).s, sid, cn);
      Projects(w, run);
      NeverComes(w.s, Labels(run), sid, cn);
    }
  }

  lemma {:induction false} OnlyKicksRun(w: World, run: seq<Move>, before: set<(Id, Cn)>)
    requires CanGo(w, run) && NoRestarts(run) && OnlyKicksWrite(before, w.s)
    ensures OnlyKicksWrite(before, Gone(w, run).s)
    decreases |run|
  {
    if run == [] {
    } else {
      StateMoved(w, run[0]);
      if LabelOf(run[0]).Some? {
        OnlyKicksStep(before, w.s, LabelOf(run[0]).value);
      }
      OnlyKicksRun(Moved(w, run[0]), run[1..], before);
    }
  }

  /** A name that was not disabled is disabled after any run of the process exactly if its instance lives and a kick
      wrote its file. */
  lemma DisabledIff(w: World, run: seq<Move>, id: Id, cn: Cn)
    requires WorldInv(w) && CanGo(w, run) && NoRestarts(run) && (id, cn) !in w.s.ccd
    ensures (id, cn) in Gone(w, run).s.ccd <==> Live(Gone(w, run).s, id) && Written(Gone(w, run).s, id, cn)
  {
    OnlyKicksRun(w, run, w.s.ccd);
    WorldRun(w, run);
    WrittenIffLive(Gone(w, run), w.s.ccd, id, cn);
  }

  lemma WrittenIffLive(w: World, before: set<(Id, Cn)>, id: Id, cn: Cn)
    requires WorldInv(w) && OnlyKicksWrite(before, w.s) && (id, cn) !in before
    ensures (id, cn) in w.s.ccd <==> Live(w.s, id) && Written(w.s, id, cn)
  {
    if Written(w.s, id, cn) {
      var kid :| kid in w.s.kickers && w.s.kickers[kid].inst == id && w.s.kickers[kid].cn == cn && w.s.kickers[kid].wrote;
      assert KickerOk(w.s, w.s.kickers[kid]);
    }
  }

  /** Who goes on, in every interleaving, exactly.  After any run of the process from a state in which a name is not
      disabled, when no kill of it is outstanding: a session, of whatever IP, goes on to carry a client of the name,
      with every ban in force throughout, if and only if no kick of the name, be it a ban's, wrote its file, the
      instance lives, and the session's relay is not over and its WebSocket not closed.  Whether the session is
      registered does not matter. */
  lemma SurvivesIff(w: World, run: seq<Move>, sid: Sid, cn: Cn, ip: string)
    requires WorldInv(w) && CanGo(w, run) && NoRestarts(run) && sid in Gone(w, run).s.sessions
    requires var id := Gone(w, run).s.sessions[sid].inst; (id, cn) !in w.s.ccd && NoneLeft(Gone(w, run).s, id, cn)
    ensures var r := Gone(w, run); var t := r.s.sessions[sid];
            GoesOn(r, sid, cn, ip) <==>
            !Written(r.s, t.inst, cn) && Live(r.s, t.inst) && !Hopeless(t) && !WsClosed(t)
  {
    WorldRun(w, run);
    DisabledIff(w, run, Gone(w, run).s.sessions[sid].inst, cn);
    GoesOnIff(Gone(w, run), sid, cn, ip);
  }

  /** The name's file was written by no kick but those of one ban. */
  predicate OnlyBanWrote(w: World, bid: Bid, id: Id, cn: Cn)
    requires bid in w.bans
  {
    forall kid ::
      kid in w.s.kickers && w.s.kickers[kid].inst == id && w.s.kickers[kid].cn == cn && w.s.kickers[kid].wrote ==>
      exists o :: o in w.bans[bid].kicks && w.bans[bid].kicks[o] == kid
  }

  /** A ban from its snapshot to its end, amid everything else, when no other kick writes the name's file and no kill of
      it is outstanding at the end.  A session on the instance goes on to carry a client of the name, with the ban in
      force throughout, if and only if no client of the name that the instance listed had a port registered for the IP
      at the snapshot, or none of the kicks of such clients could write; and the instance lives and the session's relay
      is not over nor its WebSocket closed. */
  lemma BanExact(w: World, bid: Bid, r1: seq<Move>, id: Id, r2: seq<Move>, sid: Sid, cn: Cn)
    requires WorldInv(w) && BanRun(w, bid, r1, id, r2) && (id, cn) !in w.s.ccd
    requires var end := AtEnd(w, bid, r1, id, r2);
             && bid in end.bans && end.bans[bid].pc == Over && OnlyBanWrote(end, bid, id, cn)
             && sid in end.s.sessions && end.s.sessions[sid].inst == id && NoneLeft(end.s, id, cn)
    ensures var end := AtEnd(w, bid, r1, id, r2); var t := end.s.sessions[sid];
            var found := From(AtListing(w, bid, r1, id, r2).s, id, H.PortsOfIP(w.s.conns, w.bans[bid].ip));
            && (forall o :: o in found ==> Kicked(end, bid, o))
            && (GoesOn(end, sid, cn, w.bans[bid].ip) <==>
                (forall o :: o in found && o.cn == cn ==> !end.s.kickers[end.bans[bid].kicks[o]].wrote)
                && Live(end.s, id) && !Hopeless(t) && !WsClosed(t))
  {
    var end := AtEnd(w, bid, r1, id, r2);
    var found := From(AtListing(w, bid, r1, id, r2).s, id, H.PortsOfIP(w.s.conns, w.bans[bid].ip));
    forall o: Online | o.inst == id
      ensures WorldInv(end) && (o in end.bans[bid].kicks <==> o in found) && (o in found ==> Kicked(end, bid, o))
    {
      BanKicksIff(w, bid, r1, id, r2, o);
    }
    WorldInvAtEnd(w, bid, r1, id, r2);
    OnlyKicksAtEnd(w, bid, r1, id, r2);
    WrittenIffLive(end, w.s.ccd, id, cn);
    GoesOnIff(end, sid, cn, w.bans[bid].ip);
    WroteIff(end, bid, id, cn, found);
  }

  lemma WorldInvAtEnd(w: World, bid: Bid, r1: seq<Move>, id: Id, r2: seq<Move>)
    requires WorldInv(w) && BanRun(w, bid, r1, id, r2)
    ensures WorldInv(AtEnd(w, bid, r1, id, r2))
  {
    BanKicksIff(w, bid, r1, id, r2, Online(id, "", 0));
  }

  lemma OnlyKicksAtEnd(w: World, bid: Bid, r1: seq<Move>, id: Id, r2: seq<Move>)
    requires BanRun(w, bid, r1, id, r2)
    ensures OnlyKicksWrite(w.s.ccd, AtEnd(w, bid, r1, id, r2).s)
  {
    var listing := AtListing(w, bid, r1, id, r2);
    StateMoved(w, Banning(bid, TakePorts));
    OnlyKicksRun(Moved(w, Banning(bid, TakePorts)), r1, w.s.ccd);
    StateMoved(listing, Banning(bid, Query(id, true)));
    OnlyKicksRun(Moved(listing, Banning(bid, Query(id, true))), r2, w.s.ccd);
  }

  lemma WroteIff(w: World, bid: Bid, id: Id, cn: Cn, found: set<Online>)
    requires bid in w.bans && BanOk(w.s, w.bans[bid]) && OnlyBanWrote(w, bid, id, cn)
    requires forall o :: o in found ==> o.inst == id && Kicked(w, bid, o)
    requires forall o: Online :: o.inst == id && o in w.bans[bid].kicks ==> o in found
    ensures Written(w.s, id, cn) <==>
            exists o :: o in found && o.cn == cn && Kicked(w, bid, o) && w.s.kickers[w.bans[bid].kicks[o]].wrote
  {
    var b := w.bans[bid];
    if Written(w.s, id, cn) {
      var kid :| kid in w.s.kickers && w.s.kickers[kid].inst == id && w.s.kickers[kid].cn == cn && w.s.kickers[kid].wrote;
      var o :| o in b.kicks && b.kicks[o] == kid;
      assert KickFits(w.s, b, o);
    }
  }
}
