/** Runs that take one request through: what is possible, as a counterpart of what the invariants exclude. */
module Requests {
  import opened Text
  import opened Protocol

  function Unused(used: set<nat>): (n: nat)
    ensures n !in used
  {
    UnusedFrom(used, 0, {})
  }

  /** The least number from n on outside used, given that used holds all numbers below n. */
  function UnusedFrom(used: set<nat>, n: nat, below: set<nat>): (r: nat)
    requires below <= used && (forall i :: i in below <==> 0 <= i < n)
    ensures r !in used
    decreases |used - below|
  {
    if n !in used then n
    else
      assert used - (below + {n}) == (used - below) - {n};
      UnusedFrom(used, n + 1, below + {n})
  }

  lemma Extend(s: State, run: seq<Label>, l: Label)
    requires Legal(s, run) && Enabled(After(s, run), l)
    ensures Legal(s, run + [l]) && After(s, run + [l]) == Apply(After(s, run), l)
  {
    Sequence(s, run, [l]);
    assert [l][1..] == [];
  }

  /** The administrator's part: afterwards the instance runs, is unlocked and has room for one more. */
  lemma RoomMade(s: State, id: Id) returns (run: seq<Label>)
    requires Live(s, id)
    ensures Legal(s, run) && Inside(run)
    ensures var r := After(s, run);
            Running(r, id) && !r.insts[id].locked && EffectiveMax(r, id) > |PortsOf(r, id)| &&
            r.sessions == s.sessions && r.ccd == s.ccd
  {
    var start, unlock, room := Admin(Start(id)), Admin(SetLocked(id, false)), Admin(SetMaxClients(id, |PortsOf(s, id)| + 1));
    run := [start];
    Extend(s, [], start);
    Extend(s, run, unlock);
    InsideBoth(run, [unlock]);
    run := run + [unlock];
    Extend(s, run, room);
    InsideBoth(run, [room]);
    run := run + [room];
    assert PortsOf(After(s, run), id) == PortsOf(s, id);
  }

  /** A WebSocket request on such an instance passes the checks. */
  lemma RequestAdmitted(s: State, id: Id, sid: Sid) returns (run: seq<Label>)
    requires Running(s, id) && !s.insts[id].locked && EffectiveMax(s, id) > |PortsOf(s, id)|
    requires sid !in s.sessions
    ensures Legal(s, run)
    ensures var r := After(s, run);
            sid in r.sessions && r == s.(sessions := s.sessions[sid := r.sessions[sid]]) &&
            r.sessions[sid] == Session(id, "", Resolved, NotStarted, 0, None, None, false)
  {
    Extend(s, [], Arrive(sid, id, ""));
    run := [Arrive(sid, id, "")];
    Extend(s, run, Handler(sid, CheckLock));
    run := run + [Handler(sid, CheckLock)];
    assert PortsOf(After(s, run), id) == PortsOf(s, id);
    Extend(s, run, Handler(sid, CheckLimit));
    run := run + [Handler(sid, CheckLimit)];
    Extend(s, run, Handler(sid, Resolve));
    run := run + [Handler(sid, Resolve)];
  }

  /** ... and reaches its relay loops. */
  lemma RequestBridged(s: State, id: Id, sid: Sid) returns (run: seq<Label>)
    requires Running(s, id) && !s.insts[id].locked && EffectiveMax(s, id) > |PortsOf(s, id)|
    requires sid !in s.sessions
    ensures Legal(s, run)
    ensures var r := After(s, run);
            sid in r.sessions && r.sessions[sid].pc == Bridging && r.sessions[sid].inst == id && Running(r, id) && r.ccd == s.ccd
  {
    run := RequestAdmitted(s, id, sid);
    Extend(s, run, Handler(sid, Upgrade(true)));
    run := run + [Handler(sid, Upgrade(true))];
    var r := After(s, run);
    var port := Unused((set t | t in r.sessions :: r.sessions[t].port) + {0});
    Extend(s, run, Handler(sid, Dial(true, port)));
    run := run + [Handler(sid, Dial(true, port))];
    Extend(s, run, Handler(sid, SendPort));
    run := run + [Handler(sid, SendPort)];
  }
}
