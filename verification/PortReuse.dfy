/**
 What the 1:1 mapping of ports to sessions hangs on.  The operating system keeps a source port from being given out
 while its TCP connection is open; the program closes the connection when the relay ends and deletes the entry under
 the port a little later.  Here every dial gets any port the operating system may give it.
 */
module PortReuse {
  import opened Protocol
  import opened Requests
  import opened Handshake

  /** What the operating system guarantees: no open TCP connection to OpenVPN has the port. */
  predicate OsFresh(s: State, p: Port) {
    forall t :: t in s.sessions && s.sessions[t].port == p ==> !s.sessions[t].pc.Dialed? && s.sessions[t].pc != Bridging
  }

  predicate IsDial(l: Label) {
    l.Handler? && l.h.Dial?
  }

  /** The steps of Protocol, but for what is known of the port of a dial. */
  predicate OsCan(s: State, l: Label) {
    if IsDial(l) then
      l.sid in s.sessions && s.sessions[l.sid].pc == Upgraded && (l.h.port == 0 || (l.h.ok && OsFresh(s, l.h.port)))
    else Enabled(s, l)
  }

  function OsApply(s: State, l: Label): State
    requires OsCan(s, l)
  {
    if IsDial(l) then
      s.(sessions := s.sessions[l.sid := s.sessions[l.sid].(pc := Dialed(l.h.ok), port := l.h.port)])
    else Apply(s, l)
  }

  predicate OsLegal(s: State, run: seq<Label>)
    decreases |run|
  {
    run == [] || (OsCan(s, run[0]) && OsLegal(OsApply(s, run[0]), run[1..]))
  }

  function OsAfter(s: State, run: seq<Label>): State
    requires OsLegal(s, run)
    decreases |run|
  {
    if run == [] then s else OsAfter(OsApply(s, run[0]), run[1..])
  }

  ghost predicate OsReachable(s: State) {
    exists s0, run :: Init(s0) && OsLegal(s0, run) && s == OsAfter(s0, run)
  }

  /** A run of Protocol is one of these, and gives the same state. */
  lemma {:induction false} LegalIsOs(s: State, run: seq<Label>)
    requires Legal(s, run)
    ensures OsLegal(s, run) && OsAfter(s, run) == After(s, run)
    decreases |run|
  {
    if run == [] {
    } else {
      DialIsOs(s, run[0]);
      LegalIsOs(Apply(s, run[0]), run[1..]);
    }
  }

  lemma DialIsOs(s: State, l: Label)
    requires Enabled(s, l)
    ensures OsCan(s, l) && OsApply(s, l) == Apply(s, l)
  {}

  // ---------- What these runs keep ----------

  predicate SessionsOk(s: State) {
    forall t :: t in s.sessions ==> SessionOk(s.sessions[t])
  }

  lemma OsFrame(s: State, l: Label, t: Sid)
    requires OsCan(s, l) && t in OsApply(s, l).sessions && (t in s.sessions ==> SessionOk(s.sessions[t]))
    ensures SessionOk(OsApply(s, l).sessions[t])
    ensures t !in s.sessions ==> OsApply(s, l).sessions[t].port == 0
    ensures t in s.sessions && !OwnStep(l, t) ==>
              OsApply(s, l).sessions[t] == s.sessions[t].(wsOpen := OsApply(s, l).sessions[t].wsOpen)
    ensures t in s.sessions && l != Handler(t, Dial(true, OsApply(s, l).sessions[t].port)) ==>
              OsApply(s, l).sessions[t].port in {s.sessions[t].port, 0}
  {
    if !IsDial(l) {
      Frame(s, l, t);
      SessionOkStep(s, l, t);
      if OwnStep(l, t) {
        OwnNext(s, l, t);
      }
    }
  }

  lemma SessionsOkStep(s: State, l: Label)
    requires SessionsOk(s) && OsCan(s, l)
    ensures SessionsOk(OsApply(s, l))
  {
    forall t | t in OsApply(s, l).sessions
      ensures SessionOk(OsApply(s, l).sessions[t])
    {
      OsFrame(s, l, t);
    }
  }

  lemma {:induction false} OsSessionsOk(s: State, run: seq<Label>)
    requires SessionsOk(s) && OsLegal(s, run)
    ensures SessionsOk(OsAfter(s, run))
    decreases |run|
  {
    if run == [] {
    } else {
      SessionsOkStep(s, run[0]);
      OsSessionsOk(OsApply(s, run[0]), run[1..]);
    }
  }

  // ---------- A port no undeleted entry stands for ----------

  /** Its TCP connection is open. */
  predicate Open(t: Session) {
    t.pc.Dialed? || t.pc == Bridging
  }

  /** While b's connection is open its port is its own, and b is listed once it is registered. */
  predicate Holds(s: State, b: Sid, p: Port) {
    b in s.sessions && s.sessions[b].port == p
    && s.sessions[b].pc !in {Found, Unlocked, Admitted, Resolved, Upgraded}
    && (Open(s.sessions[b]) ==>
        Listed(s, b) && forall t :: t in s.sessions && t != b && s.sessions[t].port == p ==> s.sessions[t].pc == Done)
  }

  lemma OwnHolds(s: State, l: Label, b: Sid, p: Port)
    requires SessionsOk(s) && Holds(s, b, p) && OsCan(s, l) && OwnStep(l, b)
    ensures b in OsApply(s, l).sessions && OsApply(s, l).sessions[b].port == p
    ensures OsApply(s, l).sessions[b].pc !in {Found, Unlocked, Admitted, Resolved, Upgraded}
    ensures Open(OsApply(s, l).sessions[b]) ==> Open(s.sessions[b]) && Listed(OsApply(s, l), b)
  {
    OwnNext(s, l, b);
    RegisteredFrame(s, l, b);
    ConnsFrame(s, l);
  }

  /** Another's step leaves the entry under an open port alone. */
  lemma OtherHolds(s: State, l: Label, b: Sid, p: Port)
    requires SessionsOk(s) && Holds(s, b, p) && p != 0 && OsCan(s, l) && !OwnStep(l, b) && !IsRestart(l)
    requires Open(s.sessions[b])
    ensures b in OsApply(s, l).sessions && Listed(OsApply(s, l), b)
  {
    if IsDial(l) {
      assert OsApply(s, l).conns == s.conns && OsApply(s, l).sessions[b] == s.sessions[b];
    } else {
      Survives(s, l, b);
      Frame(s, l, b);
      ConnsFrame(s, l);
      if (l.Handler? || l.Registrar?) && s.sessions[l.sid].port == p {
        assert SessionOk(s.sessions[l.sid]);
      }
    }
  }

  /** No other session comes to have the port. */
  lemma StaysAlone(s: State, l: Label, b: Sid, p: Port, t: Sid)
    requires SessionsOk(s) && Holds(s, b, p) && p != 0 && OsCan(s, l) && !IsRestart(l) && Open(s.sessions[b])
    requires t in OsApply(s, l).sessions && t != b && OsApply(s, l).sessions[t].port == p
    ensures OsApply(s, l).sessions[t].pc == Done
  {
    OsFrame(s, l, t);
    assert !OsFresh(s, p);
    if OwnStep(l, t) {
      assert SessionOk(s.sessions[t]);
    }
  }

  lemma HoldsStep(s: State, l: Label, b: Sid, p: Port)
    requires SessionsOk(s) && Holds(s, b, p) && p != 0 && OsCan(s, l) && !IsRestart(l)
    ensures Holds(OsApply(s, l), b, p)
  {
    if OwnStep(l, b) {
      OwnHolds(s, l, b, p);
    } else {
      if Open(s.sessions[b]) {
        OtherHolds(s, l, b, p);
      }
      OtherKeeps(s, l, b);
    }
    if Open(OsApply(s, l).sessions[b]) {
      forall t | t in OsApply(s, l).sessions && t != b && OsApply(s, l).sessions[t].port == p
        ensures OsApply(s, l).sessions[t].pc == Done
      {
        StaysAlone(s, l, b, p, t);
      }
    }
  }

  lemma OtherKeeps(s: State, l: Label, b: Sid)
    requires SessionsOk(s) && b in s.sessions && OsCan(s, l) && !OwnStep(l, b) && !IsRestart(l)
    ensures b in OsApply(s, l).sessions
    ensures OsApply(s, l).sessions[b] == s.sessions[b].(wsOpen := OsApply(s, l).sessions[b].wsOpen)
  {
    if !IsDial(l) {
      Survives(s, l, b);
      Frame(s, l, b);
    }
  }

  lemma {:induction false} HoldsRun(s: State, run: seq<Label>, b: Sid, p: Port)
    requires SessionsOk(s) && Holds(s, b, p) && p != 0 && OsLegal(s, run) && NoRestart(run)
    ensures Holds(OsAfter(s, run), b, p)
    decreases |run|
  {
    if run == [] {
    } else {
      HoldsStep(s, run[0], b, p);
      SessionsOkStep(s, run[0]);
      HoldsRun(OsApply(s, run[0]), run[1..], b, p);
    }
  }

  // ---------- The run in which one session deletes another's entry ----------

  /** A session that ends its relay, or waits to delete. */
  predicate Ending(t: Session) {
    SessionOk(t) && t.port != 0 && t.pc in {Stopped, Removing}
  }

  /** Its next step when it does not delete yet. */
  lemma EndingStep(s: State, a: Sid)
    requires a in s.sessions && Ending(s.sessions[a]) && s.sessions[a].pc == Stopped
    ensures var l := NextStep(s.sessions[a], a);
            && Enabled(s, l) && !IsRestart(l)
            && Apply(s, l).sessions == s.sessions[a := Apply(s, l).sessions[a]]
            && Ending(Apply(s, l).sessions[a]) && Apply(s, l).sessions[a].port == s.sessions[a].port
            && Rank(Apply(s, l).sessions[a]) < Rank(s.sessions[a])
  {}

  /** Its own steps bring it to the deletion. */
  lemma {:induction false} ToRemoving(s: State, a: Sid) returns (run: seq<Label>)
    requires a in s.sessions && Ending(s.sessions[a])
    ensures Legal(s, run) && NoRestart(run)
    ensures a in After(s, run).sessions && After(s, run).sessions[a].pc == Removing
    ensures After(s, run).sessions[a].port == s.sessions[a].port
    ensures After(s, run).sessions == s.sessions[a := After(s, run).sessions[a]]
    decreases Rank(s.sessions[a])
  {
    if s.sessions[a].pc == Removing {
      run := [];
      assert s.sessions == s.sessions[a := s.sessions[a]];
    } else {
      var l := NextStep(s.sessions[a], a);
      EndingStep(s, a);
      var rest := ToRemoving(Apply(s, l), a);
      run := [l] + rest;
      assert run[0] == l && run[1..] == rest;
    }
  }

  /** Session b, dialled to p, hands its port over and is registered; then session a deletes the entry under p. */
  lemma RemovesOther(s: State, a: Sid, b: Sid, p: Port) returns (run: seq<Label>)
    requires a != b && a in s.sessions && s.sessions[a].pc == Removing && s.sessions[a].port == p != 0
    requires b in s.sessions && SessionOk(s.sessions[b]) && s.sessions[b].pc == Dialed(true) && s.sessions[b].port == p
    ensures Legal(s, run) && NoRestart(run)
    ensures b in After(s, run).sessions && Registered(After(s, run).sessions[b]) && After(s, run).sessions[b].pc == Bridging
    ensures After(s, run).sessions[b].port == p && p !in After(s, run).conns
  {
    var l1, l2, l3, l4 := Handler(b, SendPort), Registrar(b, ReceivePort), Registrar(b, InsertConn), Handler(a, Remove);
    Extend(s, [], l1);
    assert [] + [l1] == [l1];
    var s1 := Apply(s, l1);
    Extend(s, [l1], l2);
    assert [l1] + [l2] == [l1, l2];
    Extend(s, [l1, l2], l3);
    assert [l1, l2] + [l3] == [l1, l2, l3];
    Extend(s, [l1, l2, l3], l4);
    assert [l1, l2, l3] + [l4] == [l1, l2, l3, l4];
    run := [l1, l2, l3, l4];
    var s3 := Apply(Apply(s1, l2), l3);
    assert After(s, run) == Apply(s3, l4) && s3.sessions[a] == s.sessions[a] && Registered(s3.sessions[b]);
    assert Apply(s3, l4).sessions[b] == s3.sessions[b] && s3.sessions[b].port == p && s3.sessions[b].pc == Bridging;
    assert Apply(s3, l4).conns == s3.conns - {p};
    NoRestartFour(l1, l2, l3, l4);
  }

  lemma NoRestartFour(l1: Label, l2: Label, l3: Label, l4: Label)
    requires !IsRestart(l1) && !IsRestart(l2) && !IsRestart(l3) && !IsRestart(l4)
    ensures NoRestart([l1, l2, l3, l4])
  {
    NoRestartTwo(l1, l2);
    NoRestartTwo(l3, l4);
    NoRestartBoth([l1, l2], [l3, l4]);
    assert [l1, l2] + [l3, l4] == [l1, l2, l3, l4];
  }

  lemma NoRestartTwo(l1: Label, l2: Label)
    requires !IsRestart(l1) && !IsRestart(l2)
    ensures NoRestart([l1, l2])
  {
    assert [l1, l2][1..] == [l2] && [l2][1..] == [];
  }

  // ---------- Exactly when it is safe ----------

  /** Session b's dial gets port p. */
  function DialedTo(s: State, b: Sid, p: Port): State
    requires b in s.sessions
  {
    s.(sessions := s.sessions[b := s.sessions[b].(pc := Dialed(true), port := p)])
  }

  /** In every later state of the process session b, registered and relaying, has its own entry in conns, whatever
      ports later dials get. */
  ghost predicate KeepsEntry(s: State, b: Sid) {
    forall run :: OsLegal(s, run) && NoRestart(run) ==>
      b in OsAfter(s, run).sessions && (OsAfter(s, run).sessions[b].pc == Bridging ==> Listed(OsAfter(s, run), b))
  }

  lemma FreshKeeps(s: State, b: Sid, p: Port)
    requires SessionsOk(s) && b in s.sessions && s.sessions[b].pc == Upgraded && p != 0 && FreshPort(s, p)
    ensures KeepsEntry(DialedTo(s, b, p), b)
  {
    var d := DialedTo(s, b, p);
    forall t | t in d.sessions
      ensures SessionOk(d.sessions[t])
    {
      assert SessionOk(s.sessions[t]);
    }
    assert Holds(d, b, p);
    forall run | OsLegal(d, run) && NoRestart(run)
      ensures b in OsAfter(d, run).sessions && (OsAfter(d, run).sessions[b].pc == Bridging ==> Listed(OsAfter(d, run), b))
    {
      HoldsRun(d, run, b, p);
    }
  }

  lemma ReusedLoses(s: State, a: Sid, b: Sid, p: Port)
    requires SessionsOk(s) && b in s.sessions && s.sessions[b].pc == Upgraded && p != 0 && OsFresh(s, p)
    requires a in s.sessions && s.sessions[a].port == p && s.sessions[a].pc != Done
    ensures !KeepsEntry(DialedTo(s, b, p), b)
  {
    var s1 := DialedTo(s, b, p);
    assert SessionOk(s.sessions[a]) && SessionOk(s.sessions[b]);
    var first := ToRemoving(s1, a);
    var s2 := After(s1, first);
    assert s2.sessions[b] == s1.sessions[b];
    var second := RemovesOther(s2, a, b, p);
    Sequence(s1, first, second);
    NoRestartBoth(first, second);
    LegalIsOs(s1, first + second);
    assert !Listed(OsAfter(s1, first + second), b);
  }

  /** Let every dial get any port the operating system calls free.  A session keeps its entry, whenever it is
      registered and relaying, in every run from its dial on, if and only if no session that has not deleted its entry
      held its port at the dial.  Otherwise there is a run in which that session's deletion takes away the new entry,
      so that bans and kicks no longer find the new session. */
  lemma ReuseSafeIff(s: State, b: Sid, p: Port)
    requires OsReachable(s) && OsCan(s, Handler(b, Dial(true, p))) && p != 0
    ensures KeepsEntry(OsApply(s, Handler(b, Dial(true, p))), b) <==> FreshPort(s, p)
  {
    var s0, run :| Init(s0) && OsLegal(s0, run) && s == OsAfter(s0, run);
    OsSessionsOk(s0, run);
    if FreshPort(s, p) {
      FreshKeeps(s, b, p);
    } else {
      var a :| a in s.sessions && s.sessions[a].port == p && s.sessions[a].pc != Done;
      ReusedLoses(s, a, b, p);
    }
  }
}
