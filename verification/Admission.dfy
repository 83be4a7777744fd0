/** How many connections of an instance the checks before the upgrade let through. */
module Admission {
  import opened Text
  import opened Protocol
  import opened Handshake
  import opened Requests

  /** Between the limit check and the registration. */
  predicate InFlight(t: Session) {
    || t.pc in {Admitted, Resolved, Upgraded}
    || t.pc.Dialed?
    || (t.pc in {Bridging, Stopped} && t.reg in {WaitPort, Insert})
  }

  /** Between the lock check and the registration. */
  predicate Pending(t: Session) {
    t.pc == Unlocked || InFlight(t)
  }

  function InFlightOf(s: State, id: Id): set<Sid> {
    set t | t in s.sessions && s.sessions[t].inst == id && InFlight(s.sessions[t])
  }

  function PendingOf(s: State, id: Id): set<Sid> {
    set t | t in s.sessions && s.sessions[t].inst == id && Pending(s.sessions[t])
  }

  /** Registered plus in flight. */
  function Load(s: State, id: Id): nat {
    |PortsOf(s, id)| + |InFlightOf(s, id)|
  }

  /** Registered plus past the lock check. */
  function OpenLoad(s: State, id: Id): nat {
    |PortsOf(s, id)| + |PendingOf(s, id)|
  }

  /** A step that passes the limit check, or the lock check, for a session of the instance. */
  predicate PassesLimit(s: State, l: Label, id: Id) {
    Enabled(s, l) && l.Handler? && l.h == CheckLimit && s.sessions[l.sid].inst == id &&
    Apply(s, l).sessions[l.sid].pc == Admitted
  }

  predicate PassesLock(s: State, l: Label, id: Id) {
    Enabled(s, l) && l.Handler? && l.h == CheckLock && s.sessions[l.sid].inst == id &&
    Apply(s, l).sessions[l.sid].pc == Unlocked
  }

  /** Of a session's own steps only passing the check brings it into the group. */
  lemma HandlerEnters(s: State, t: Session, h: HandlerStep)
    requires SessionOk(t) && HandlerCan(s, t, h)
    ensures InFlight(HandlerNext(s, t, h)) ==> InFlight(t) || (h == CheckLimit && HandlerNext(s, t, h).pc == Admitted)
    ensures Pending(HandlerNext(s, t, h)) ==> Pending(t) || (h == CheckLock && HandlerNext(s, t, h).pc == Unlocked)
  {}

  lemma RegistrarEnters(t: Session, r: RegistrarStep)
    requires SessionOk(t) && RegistrarCan(t, r)
    ensures InFlight(RegistrarNext(t, r)) ==> InFlight(t)
    ensures Pending(RegistrarNext(t, r)) ==> Pending(t)
  {}

  /** A step of the session's own. */
  lemma OwnEntering(s: State, l: Label, id: Id, t: Sid)
    requires HandshakeInv(s) && Enabled(s, l) && OwnStep(l, t)
    ensures t in InFlightOf(Apply(s, l), id) ==> t in InFlightOf(s, id) || PassesLimit(s, l, id)
    ensures t in PendingOf(Apply(s, l), id) ==> t in PendingOf(s, id) || PassesLock(s, l, id)
  {
    OwnNext(s, l, t);
    var was := s.sessions[t];
    assert SessionOk(was);
    if l.Handler? {
      HandlerKeeps(s, was, l.h);
      HandlerEnters(s, was, l.h);
    } else {
      RegistrarKeeps(was, l.r);
      RegistrarEnters(was, l.r);
    }
  }

  /** Who enters the two groups in a step. */
  lemma Entering(s: State, l: Label, id: Id, t: Sid)
    requires HandshakeInv(s) && Enabled(s, l)
    ensures t in InFlightOf(Apply(s, l), id) ==> t in InFlightOf(s, id) || (PassesLimit(s, l, id) && t == l.sid)
    ensures t in PendingOf(Apply(s, l), id) ==> t in PendingOf(s, id) || (PassesLock(s, l, id) && t == l.sid)
  {
    if OwnStep(l, t) {
      OwnEntering(s, l, id, t);
    } else if t in Apply(s, l).sessions {
      Frame(s, l, t);
    }
  }

  /** An insertion takes the session out of both groups and adds at most its port; no other step adds a port. */
  lemma PortsStep(s: State, l: Label, id: Id)
    requires HandshakeInv(s) && Enabled(s, l)
    ensures PortsOf(Apply(s, l), id) <= PortsOf(s, id) ||
            (l.Registrar? && l.r == InsertConn && l.sid in InFlightOf(s, id) &&
             l.sid !in PendingOf(Apply(s, l), id) &&
             PortsOf(Apply(s, l), id) <= PortsOf(s, id) + {s.sessions[l.sid].port})
  {
    ConnsFrame(s, l);
    if l.Registrar? && l.r == InsertConn {
      assert SessionOk(s.sessions[l.sid]);
    }
  }

  /** Only passing the limit check can raise the load. */
  lemma LoadStep(s: State, l: Label, id: Id)
    requires HandshakeInv(s) && Enabled(s, l) && !PassesLimit(s, l, id)
    ensures Load(Apply(s, l), id) <= Load(s, id)
  {
    var s' := Apply(s, l);
    forall t | t in InFlightOf(s', id)
      ensures t in InFlightOf(s, id)
    {
      Entering(s, l, id, t);
    }
    PortsStep(s, l, id);
    if PortsOf(s', id) <= PortsOf(s, id) {
      SubsetSize(PortsOf(s', id), PortsOf(s, id));
      SubsetSize(InFlightOf(s', id), InFlightOf(s, id));
    } else {
      assert l.sid !in InFlightOf(s', id);
      SubsetSize(PortsOf(s', id), PortsOf(s, id) + {s.sessions[l.sid].port});
      SubsetSize(InFlightOf(s', id), InFlightOf(s, id) - {l.sid});
    }
  }

  /** Only passing the lock check can raise the open load. */
  lemma OpenLoadStep(s: State, l: Label, id: Id)
    requires HandshakeInv(s) && Enabled(s, l) && !PassesLock(s, l, id)
    ensures OpenLoad(Apply(s, l), id) <= OpenLoad(s, id)
  {
    var s' := Apply(s, l);
    forall t | t in PendingOf(s', id)
      ensures t in PendingOf(s, id)
    {
      Entering(s, l, id, t);
    }
    PortsStep(s, l, id);
    if PortsOf(s', id) <= PortsOf(s, id) {
      SubsetSize(PortsOf(s', id), PortsOf(s, id));
      SubsetSize(PendingOf(s', id), PendingOf(s, id));
    } else {
      assert l.sid in PendingOf(s, id);
      SubsetSize(PortsOf(s', id), PortsOf(s, id) + {s.sessions[l.sid].port});
      SubsetSize(PendingOf(s', id), PendingOf(s, id) - {l.sid});
    }
  }

  // ---------- What a request is answered ----------

  /** The ports registered for the instance. */
  function Registrations(s: State, id: Id): set<Port> {
    set p | p in s.conns && s.conns[p].instanceID == id
  }

  /** The limit check, in terms of the two settings: with a limit of its own the instance refuses a request if and only
      if at least so many ports are registered for it; without one the configured limit, if positive, decides in the
      same way; without either nobody is refused. */
  lemma LimitCheckIff(s: State, sid: Sid)
    requires Enabled(s, Handler(sid, CheckLimit))
    ensures var t, r := s.sessions[sid], Apply(s, Handler(sid, CheckLimit));
            var own, n := s.insts[t.inst].maxClients, |Registrations(s, t.inst)|;
            && r == s.(sessions := s.sessions[sid := r.sessions[sid]])
            && r.sessions[sid] == t.(pc := r.sessions[sid].pc) && r.sessions[sid].pc in {Admitted, Done}
            && (own > 0 ==> (r.sessions[sid].pc == Done <==> n >= own))
            && (own <= 0 && s.cfgMax > 0 ==> (r.sessions[sid].pc == Done <==> n >= s.cfgMax))
            && (own <= 0 && s.cfgMax <= 0 ==> r.sessions[sid].pc == Admitted)
  {
    assert PortsOf(s, s.sessions[sid].inst) == Registrations(s, s.sessions[sid].inst);
  }

  /** The other checks: a request comes in only to an instance that exists and runs; a locked one refuses it; and one
      that was stopped or deleted meanwhile has no address any more. */
  lemma OtherChecksIff(s: State, sid: Sid, id: Id, ip: string)
    ensures Enabled(s, Arrive(sid, id, ip)) <==>
            sid !in s.sessions && id in s.insts && s.insts[id].live && s.insts[id].running
    ensures Enabled(s, Handler(sid, CheckLock)) ==>
              var t, r := s.sessions[sid], Apply(s, Handler(sid, CheckLock)).sessions[sid];
              r.pc in {Unlocked, Done} && (r.pc == Done <==> s.insts[t.inst].locked)
    ensures Enabled(s, Handler(sid, Resolve)) ==>
              var t, r := s.sessions[sid], Apply(s, Handler(sid, Resolve)).sessions[sid];
              r.pc in {Resolved, Done} &&
              (r.pc == Resolved <==> t.inst in s.insts && s.insts[t.inst].live && s.insts[t.inst].running)
  {}

  /** The state before step k of a run. */
  function Before(s: State, run: seq<Label>, k: nat): State
    requires Legal(s, run) && k <= |run|
    decreases |run|
  {
    if k == 0 then s else Before(Apply(s, run[0]), run[1..], k - 1)
  }

  lemma {:induction false} BeforeEnd(s: State, run: seq<Label>)
    requires Legal(s, run)
    ensures Before(s, run, |run|) == After(s, run)
    decreases |run|
  {
    if run == [] {
    } else {
      BeforeEnd(Apply(s, run[0]), run[1..]);
    }
  }

  lemma {:induction false} BeforePrefix(s: State, run: seq<Label>, l: Label, k: nat)
    requires Legal(s, run) && Enabled(After(s, run), l) && k <= |run|
    ensures Legal(s, run + [l]) && Before(s, run + [l], k) == Before(s, run, k)
    decreases |run|
  {
    Extend(s, run, l);
    if k == 0 {
    } else {
      assert (run + [l])[0] == run[0] && (run + [l])[1..] == run[1..] + [l];
      BeforePrefix(Apply(s, run[0]), run[1..], l, k - 1);
    }
  }

  /** How far a request has come: it has arrived, passed the lock check, the limit check, and got an address. */
  function Stage(t: Session): nat {
    match t.pc
    case Found => 1
    case Unlocked => 2
    case Admitted => 3
    case Done => if t.reg == NotStarted then 1 else 4
    case _ => 4
  }

  /** The step with which a request reaches a stage. */
  function Reaching(stage: nat, t: Session, sid: Sid): Label {
    if stage == 1 then Arrive(sid, t.inst, t.clientIP)
    else Handler(sid, if stage == 2 then CheckLock else if stage == 3 then CheckLimit else Resolve)
  }

  /** What must be so in the state in which it is taken. */
  predicate Grounds(s: State, stage: nat, id: Id) {
    id in s.insts &&
    var i := s.insts[id];
    if stage == 1 || stage == 4 then i.live && i.running
    else if stage == 2 then !i.locked
    else if i.maxClients > 0 then |Registrations(s, id)| < i.maxClients
    else s.cfgMax <= 0 || |Registrations(s, id)| < s.cfgMax
  }

  predicate Vouched(s: State, run: seq<Label>, sid: Sid, t: Session, stage: nat, k: nat)
    requires Legal(s, run)
  {
    k < |run| && run[k] == Reaching(stage, t, sid) && Grounds(Before(s, run, k), stage, t.inst)
  }

  /** One step: the session stays at its stage, or comes to the next one for a good reason. */
  lemma StageStep(s: State, l: Label, sid: Sid)
    requires Enabled(s, l) && !IsRestart(l) && sid in Apply(s, l).sessions
    requires sid in s.sessions ==> SessionOk(s.sessions[sid])
    ensures var t := Apply(s, l).sessions[sid];
            if sid in s.sessions then
              t.inst == s.sessions[sid].inst && t.clientIP == s.sessions[sid].clientIP &&
              (Stage(t) <= Stage(s.sessions[sid]) || Reached(s, l, sid, t, Stage(s.sessions[sid]) + 1))
            else Reached(s, l, sid, t, 1)
  {
    if sid in s.sessions {
      if OwnStep(l, sid) {
        OwnNext(s, l, sid);
        if l == Handler(sid, CheckLimit) {
          LimitCheckIff(s, sid);
        }
      } else {
        Frame(s, l, sid);
      }
    }
  }

  predicate Reached(s: State, l: Label, sid: Sid, t: Session, stage: nat) {
    Stage(t) == stage && l == Reaching(stage, t, sid) && Grounds(s, stage, t.inst)
  }

  /** The first stages, each reached for a good reason, one after the other. */
  ghost predicate AllVouched(s: State, run: seq<Label>, sid: Sid, t: Session, ks: seq<nat>)
    requires Legal(s, run)
  {
    && (forall i, j :: 0 <= i < j < |ks| ==> ks[i] < ks[j])
    && (forall i :: 0 <= i < |ks| ==> Vouched(s, run, sid, t, i + 1, ks[i]))
  }

  lemma {:induction false} StagesVouched(s: State, run: seq<Label>, sid: Sid) returns (ks: seq<nat>)
    requires HandshakeInv(s) && Legal(s, run) && NoRestart(run) && sid !in s.sessions && sid in After(s, run).sessions
    ensures var t := After(s, run).sessions[sid]; |ks| >= Stage(t) && AllVouched(s, run, sid, t, ks)
    decreases |run|
  {
    var front, l := run[..|run| - 1], run[|run| - 1];
    LastStep(s, run);
    var s1 := After(s, front);
    HandshakeRun(s, front);
    StageStep(s1, l, sid);
    var t := Apply(s1, l).sessions[sid];
    if sid in s1.sessions {
      var was := s1.sessions[sid];
      ks := StagesVouched(s, front, sid);
      StillAllVouched(s, front, l, sid, was, t, ks);
      if Stage(t) > |ks| {
        JustReached(s, front, l, sid, t, |ks| + 1);
        OneMoreVouched(s, run, sid, t, ks, |front|);
        ks := ks + [|front|];
      }
    } else {
      JustReached(s, front, l, sid, t, 1);
      ks := [|front|];
    }
  }

  lemma OneMoreVouched(s: State, run: seq<Label>, sid: Sid, t: Session, ks: seq<nat>, k: nat)
    requires Legal(s, run) && AllVouched(s, run, sid, t, ks) && Vouched(s, run, sid, t, |ks| + 1, k)
    requires forall i :: 0 <= i < |ks| ==> ks[i] < k
    ensures AllVouched(s, run, sid, t, ks + [k])
  {}

  lemma StillAllVouched(s: State, front: seq<Label>, l: Label, sid: Sid, was: Session, t: Session, ks: seq<nat>)
    requires Legal(s, front) && Enabled(After(s, front), l) && Legal(s, front + [l])
    requires AllVouched(s, front, sid, was, ks) && t.inst == was.inst && t.clientIP == was.clientIP
    ensures AllVouched(s, front + [l], sid, t, ks) && forall i :: 0 <= i < |ks| ==> ks[i] < |front|
  {
    forall i | 0 <= i < |ks|
      ensures Vouched(s, front + [l], sid, t, i + 1, ks[i]) && ks[i] < |front|
    {
      StillVouched(s, front, l, sid, was, t, i + 1, ks[i]);
    }
  }

  /** A run as all but its last step, and that. */
  lemma LastStep(s: State, run: seq<Label>)
    requires Legal(s, run) && NoRestart(run) && run != []
    ensures var front, l := run[..|run| - 1], run[|run| - 1];
            && run == front + [l] && Legal(s, front) && NoRestart(front) && !IsRestart(l)
            && Enabled(After(s, front), l) && After(s, run) == Apply(After(s, front), l)
  {
    var front, l := run[..|run| - 1], run[|run| - 1];
    assert run == front + [l] && [l][1..] == [] && [l][0] == l;
    Sequence(s, front, [l]);
    NoRestartFront(front, [l]);
  }

  lemma {:induction false} NoRestartFront(first: seq<Label>, rest: seq<Label>)
    requires NoRestart(first + rest)
    ensures NoRestart(first) && NoRestart(rest)
  {
    if first == [] {
      assert first + rest == rest;
    } else {
      assert (first + rest)[0] == first[0] && (first + rest)[1..] == first[1..] + rest;
      NoRestartFront(first[1..], rest);
    }
  }

  lemma StillVouched(s: State, front: seq<Label>, l: Label, sid: Sid, was: Session, t: Session, stage: nat, k: nat)
    requires Legal(s, front) && Enabled(After(s, front), l) && Legal(s, front + [l])
    requires Vouched(s, front, sid, was, stage, k) && t.inst == was.inst && t.clientIP == was.clientIP
    ensures Vouched(s, front + [l], sid, t, stage, k) && k < |front|
  {
    BeforePrefix(s, front, l, k);
  }

  lemma JustReached(s: State, front: seq<Label>, l: Label, sid: Sid, t: Session, stage: nat)
    requires Legal(s, front) && Enabled(After(s, front), l) && Legal(s, front + [l])
    requires Reached(After(s, front), l, sid, t, stage)
    ensures Vouched(s, front + [l], sid, t, stage, |front|)
  {
    BeforeEnd(s, front);
    BeforePrefix(s, front, l, |front|);
  }

  /** No request is upgraded unchecked: whenever a request that came in during a run has got past its checks, there were
      four moments, in this order: it came in while the instance existed and ran; the instance was not locked; with a
      limit of its own, fewer ports than that were registered for it, and without one, fewer than the configured
      limit, if that is positive; and the instance ran. */
  lemma UpgradedWasChecked(s: State, run: seq<Label>, sid: Sid) returns (a: nat, b: nat, c: nat, d: nat)
    requires Reachable(s) && Legal(s, run) && NoRestart(run) && sid !in s.sessions && sid in After(s, run).sessions
    requires After(s, run).sessions[sid].reg != NotStarted
    ensures a < b < c < d < |run|
    ensures var t := After(s, run).sessions[sid];
            && run[a] == Arrive(sid, t.inst, t.clientIP) && run[b] == Handler(sid, CheckLock)
            && run[c] == Handler(sid, CheckLimit) && run[d] == Handler(sid, Resolve)
            && t.inst in Before(s, run, a).insts && t.inst in Before(s, run, b).insts
            && t.inst in Before(s, run, c).insts && t.inst in Before(s, run, d).insts
    ensures var id := After(s, run).sessions[sid].inst;
            var came, lock := Before(s, run, a).insts[id], Before(s, run, b).insts[id];
            var limit, addr := Before(s, run, c).insts[id], Before(s, run, d).insts[id];
            var n, max := |Registrations(Before(s, run, c), id)|, Before(s, run, c).cfgMax;
            && came.live && came.running && !lock.locked && addr.live && addr.running
            && (limit.maxClients > 0 ==> n < limit.maxClients) && (limit.maxClients <= 0 && max > 0 ==> n < max)
  {
    ReachableHandshake(s);
    HandshakeRun(s, run);
    var t := After(s, run).sessions[sid];
    assert SessionOk(t);
    var ks := StagesVouched(s, run, sid);
    a, b, c, d := ks[0], ks[1], ks[2], ks[3];
    assert Vouched(s, run, sid, t, 0 + 1, a) && Vouched(s, run, sid, t, 1 + 1, b);
    assert Vouched(s, run, sid, t, 2 + 1, c) && Vouched(s, run, sid, t, 3 + 1, d);
  }

  // ---------- Main results ----------

  /** In every state of the run the instance's own limit is max, or it has none and the configured one is. */
  predicate LimitIs(s: State, run: seq<Label>, id: Id, max: int)
    requires Legal(s, run)
    decreases |run|
  {
    (id in s.insts ==> s.insts[id].maxClients == max || (s.insts[id].maxClients <= 0 && s.cfgMax == max)) &&
    (run == [] || LimitIs(Apply(s, run[0]), run[1..], id, max))
  }

  /** In every state of the run at most k sessions are between the limit check and their registration. */
  predicate AtMostInFlight(s: State, run: seq<Label>, id: Id, k: nat)
    requires Legal(s, run)
    decreases |run|
  {
    |InFlightOf(s, id)| <= k &&
    (run == [] || AtMostInFlight(Apply(s, run[0]), run[1..], id, k))
  }

  /** With a constant limit max and at most k sessions in flight at any time, registered plus in flight never
      exceeds max - 1 + k. */
  lemma {:induction false} AdmissionBound(s: State, run: seq<Label>, id: Id, max: int, k: nat)
    requires HandshakeInv(s) && Legal(s, run)
    requires max > 0 && LimitIs(s, run, id, max) && AtMostInFlight(s, run, id, k)
    requires Load(s, id) <= max - 1 + k
    ensures Load(After(s, run), id) <= max - 1 + k
    decreases |run|
  {
    if run == [] {
    } else {
      var s' := Apply(s, run[0]);
      HandshakeStep(s, run[0]);
      if PassesLimit(s, run[0], id) {
        assert |PortsOf(s, id)| < max;
        assert PortsOf(s', id) == PortsOf(s, id);
      } else {
        LoadStep(s, run[0], id);
      }
      AdmissionBound(s', run[1..], id, max, k);
    }
  }

  /** One at a time, the limit holds in every state of every run from the start. */
  lemma OneAtATime(s0: State, run: seq<Label>, id: Id, max: int)
    requires Init(s0) && Legal(s0, run)
    requires max > 0 && LimitIs(s0, run, id, max) && AtMostInFlight(s0, run, id, 1)
    ensures Load(After(s0, run), id) <= max
  {
    assert PortsOf(s0, id) == {} && InFlightOf(s0, id) == {};
    AdmissionBound(s0, run, id, max, 1);
  }

  /** The instance is locked in every state of the run but the last. */
  predicate LockedThroughout(s: State, run: seq<Label>, id: Id)
    requires Legal(s, run)
    decreases |run|
  {
    run == [] || (id in s.insts && s.insts[id].locked && LockedThroughout(Apply(s, run[0]), run[1..], id))
  }

  /** While an instance is locked, registered plus past the lock check never increases. */
  lemma {:induction false} LockFreezes(s: State, run: seq<Label>, id: Id)
    requires HandshakeInv(s) && Legal(s, run) && LockedThroughout(s, run, id)
    ensures OpenLoad(After(s, run), id) <= OpenLoad(s, id)
    decreases |run|
  {
    if run == [] {
    } else {
      HandshakeStep(s, run[0]);
      OpenLoadStep(s, run[0], id);
      LockFreezes(Apply(s, run[0]), run[1..], id);
    }
  }

  /** One more request that has passed the limit check. */
  lemma OneInFlight(s: State, id: Id, sid: Sid, t: Session, r: State)
    requires sid !in s.sessions && t.inst == id && InFlight(t)
    requires r.conns == s.conns && r.sessions == s.sessions[sid := t]
    ensures PortsOf(r, id) == PortsOf(s, id) && Load(r, id) == Load(s, id) + 1
  {
    var before, after := InFlightOf(s, id), InFlightOf(r, id);
    forall x
      ensures x in after <==> x in before || x == sid
    {
      if x != sid && x in s.sessions {
        assert r.sessions[x] == s.sessions[x];
      }
    }
    assert after == before + {sid};
  }

  /** The bound is tight: while there is room for one, k requests that come together all pass the limit check. */
  lemma {:induction false} Overshoot(s: State, id: Id, k: nat) returns (run: seq<Label>)
    requires Running(s, id) && !s.insts[id].locked
    requires |PortsOf(s, id)| < if s.insts[id].maxClients > 0 then s.insts[id].maxClients else s.cfgMax
    ensures Legal(s, run)
    ensures PortsOf(After(s, run), id) == PortsOf(s, id)
    ensures Load(After(s, run), id) == Load(s, id) + k
    decreases k
  {
    if k == 0 {
      run := [];
    } else {
      var sid := Unused(s.sessions.Keys);
      var one := RequestAdmitted(s, id, sid);
      var s1 := After(s, one);
      OneInFlight(s, id, sid, s1.sessions[sid], s1);
      assert s1.insts == s.insts && s1.cfgMax == s.cfgMax;
      var rest := Overshoot(s1, id, k - 1);
      Sequence(s, one, rest);
      run := one + rest;
    }
  }
}
