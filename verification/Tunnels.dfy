/** One direction of a tunnel, end to end: a step system in which either relay may stop at any time, and the relay
    loops, from the request head on, as runs of it. */
module Tunnels {
  import opened Text
  import opened Relay
  import opened Connect

  /** The relay that reads: waiting, holding a chunk it read but did not send, or stopped. */
  datatype Reader = Waiting | Holding(chunk: seq<byte>) | ReaderStopped

  /** The relay that writes: waiting, writing the rest of a frame, or stopped. */
  datatype Writer = Ready | Writing(rest: seq<byte>) | WriterStopped

  /** One direction of a tunnel.  sent: what the near end wrote so far; taken: how much of it was read; frames: the
      frames under way; delivered: what the far end got. */
  datatype Tunnel = Tunnel(sent: seq<byte>, taken: nat, reader: Reader, frames: seq<seq<byte>>, writer: Writer, delivered: seq<byte>)

  datatype Step =
    | Produce(bytes: seq<byte>)      // the near end writes more
    | ReadChunk(n: nat)
    | SendFrame
    | StopReader                     // a read or write failed, or the session ends; a held chunk is lost
    | ReceiveFrame
    | WriteSome(n: nat)
    | StopWriter

  predicate Can(t: Tunnel, s: Step) {
    match s
    case Produce(_) => true
    case ReadChunk(n) => t.reader == Waiting && 0 < n <= BUFFER_SIZE && t.taken + n <= |t.sent|
    case SendFrame => t.reader.Holding?
    case StopReader => true
    case ReceiveFrame => t.writer == Ready && t.frames != []
    case WriteSome(n) => t.writer.Writing? && 0 < n <= |t.writer.rest|
    case StopWriter => true
  }

  function Next(t: Tunnel, s: Step): Tunnel
    requires Can(t, s)
  {
    match s
    case Produce(bytes) => t.(sent := t.sent + bytes)
    case ReadChunk(n) => t.(taken := t.taken + n, reader := Holding(t.sent[t.taken..t.taken + n]))
    case SendFrame => t.(frames := t.frames + [t.reader.chunk], reader := Waiting)
    case StopReader => t.(reader := ReaderStopped)
    case ReceiveFrame => t.(frames := t.frames[1..], writer := if t.frames[0] == [] then Ready else Writing(t.frames[0]))
    case WriteSome(n) =>
      var rest := t.writer.rest[n..];
      t.(delivered := t.delivered + t.writer.rest[..n], writer := if rest == [] then Ready else Writing(rest))
    case StopWriter => t.(writer := WriterStopped)
  }

  predicate Feasible(t: Tunnel, steps: seq<Step>)
    decreases |steps|
  {
    steps == [] || (Can(t, steps[0]) && Feasible(Next(t, steps[0]), steps[1..]))
  }

  function Run(t: Tunnel, steps: seq<Step>): Tunnel
    requires Feasible(t, steps)
    decreases |steps|
  {
    if steps == [] then t else Run(Next(t, steps[0]), steps[1..])
  }

  function Rest(w: Writer): seq<byte> {
    if w.Writing? then w.rest else []
  }

  function Chunk(r: Reader): seq<byte> {
    if r.Holding? then r.chunk else []
  }

  /** Delivered, being written and under way. */
  function Ahead(t: Tunnel): seq<byte> {
    t.delivered + Rest(t.writer) + Bytes(t.frames)
  }

  /** What every step keeps.  While the writer lives, delivered, being written and under way together are a prefix
      of what was sent; while the reader lives too, nothing that was read is missing.  A stopped writer delivers
      nothing more. */
  predicate TunnelInv(t: Tunnel) {
    && t.taken <= |t.sent|
    && t.delivered <= t.sent
    && (t.writer != WriterStopped ==> Ahead(t) <= t.sent)
    && (t.writer != WriterStopped && t.reader != ReaderStopped ==> Ahead(t) + Chunk(t.reader) == t.sent[..t.taken])
  }

  lemma AheadSame(t: Tunnel, s: Step)
    requires Can(t, s) && (s.ReceiveFrame? || s.WriteSome?)
    ensures Ahead(Next(t, s)) == Ahead(t) && Next(t, s).delivered <= Ahead(t)
  {
    match s
    case ReceiveFrame =>
      assert Bytes(t.frames) == t.frames[0] + Bytes(t.frames[1..]);
    case WriteSome(n) =>
      assert t.writer.rest == t.writer.rest[..n] + t.writer.rest[n..];
  }

  lemma SendSame(t: Tunnel)
    requires Can(t, SendFrame)
    ensures Ahead(Next(t, SendFrame)) == Ahead(t) + Chunk(t.reader)
  {
    BytesAppend(t.frames, t.reader.chunk);
  }

  lemma TunnelStep(t: Tunnel, s: Step)
    requires TunnelInv(t) && Can(t, s)
    ensures TunnelInv(Next(t, s))
  {
    match s
    case Produce(bytes) =>
      assert (t.sent + bytes)[..t.taken] == t.sent[..t.taken];
    case ReadChunk(n) =>
      assert t.sent[..t.taken] + t.sent[t.taken..t.taken + n] == t.sent[..t.taken + n];
    case SendFrame =>
      SendSame(t);
    case ReceiveFrame =>
      AheadSame(t, s);
    case WriteSome(n) =>
      AheadSame(t, s);
    case _ =>
  }

  /** Any number of steps. */
  lemma {:induction false} TunnelRun(t: Tunnel, steps: seq<Step>)
    requires TunnelInv(t) && Feasible(t, steps)
    ensures TunnelInv(Run(t, steps))
    ensures t.sent <= Run(t, steps).sent && t.delivered <= Run(t, steps).delivered
    decreases |steps|
  {
    if steps == [] {
    } else {
      TunnelStep(t, steps[0]);
      TunnelRun(Next(t, steps[0]), steps[1..]);
    }
  }

  /** Before anything was read. */
  function Start(sent: seq<byte>): Tunnel {
    Tunnel(sent, 0, Waiting, [], Ready, [])
  }

  /** End-to-end safety: whatever the chunk sizes, wherever either relay stops, the far end has always received a
      prefix of what the near end sent, and neither ever shrinks.  Nothing is lost while neither relay stopped: once
      the tunnel is idle, the far end has everything that was read. */
  lemma EndToEnd(sent: seq<byte>, steps: seq<Step>, more: seq<Step>)
    requires Feasible(Start(sent), steps) && Feasible(Run(Start(sent), steps), more)
    ensures var t := Run(Start(sent), steps);
            && t.taken <= |t.sent| && t.delivered <= t.sent
            && t.sent <= Run(t, more).sent && t.delivered <= Run(t, more).delivered
            && (t.reader == Waiting && t.writer == Ready && t.frames == [] ==> t.delivered == t.sent[..t.taken])
  {
    TunnelRun(Start(sent), steps);
    TunnelRun(Run(Start(sent), steps), more);
  }

  // ---------- The loops are runs of the tunnel ----------

  lemma Cons(t: Tunnel, s: Step, rest: seq<Step>)
    requires Can(t, s) && Feasible(Next(t, s), rest)
    ensures Feasible(t, [s] + rest) && Run(t, [s] + rest) == Run(Next(t, s), rest)
  {
    assert ([s] + rest)[0] == s && ([s] + rest)[1..] == rest;
  }

  lemma {:induction false} Joined(t: Tunnel, first: seq<Step>, rest: seq<Step>)
    requires Feasible(t, first) && Feasible(Run(t, first), rest)
    ensures Feasible(t, first + rest) && Run(t, first + rest) == Run(Run(t, first), rest)
    decreases |first|
  {
    if first == [] {
      assert first + rest == rest;
    } else {
      Joined(Next(t, first[0]), first[1..], rest);
      Cons(t, first[0], first[1..] + rest);
      assert [first[0]] + (first[1..] + rest) == first + rest;
    }
  }

  /** One chunk, read and sent as a frame. */
  function WithFrame(t: Tunnel, f: seq<byte>): Tunnel {
    t.(taken := t.taken + |f|, frames := t.frames + [f])
  }

  lemma OneFrame(t: Tunnel, f: seq<byte>)
    requires t.reader == Waiting && 0 < |f| <= BUFFER_SIZE && t.taken + |f| <= |t.sent|
    requires t.sent[t.taken..t.taken + |f|] == f
    ensures Can(t, ReadChunk(|f|)) && Can(Next(t, ReadChunk(|f|)), SendFrame)
    ensures Next(Next(t, ReadChunk(|f|)), SendFrame) == WithFrame(t, f)
  {}

  /** The loop from the connection to the WebSocket: reads and sends the frames, and loses the last chunk. */
  lemma {:induction false} ReaderRuns(t: Tunnel, frames: seq<seq<byte>>, lost: nat) returns (steps: seq<Step>)
    requires t.reader == Waiting && GoodFrames(frames) && lost <= BUFFER_SIZE
    requires t.taken + |Bytes(frames)| + lost <= |t.sent|
    requires t.sent[t.taken..t.taken + |Bytes(frames)|] == Bytes(frames)
    ensures Feasible(t, steps)
    ensures Run(t, steps) ==
            t.(taken := t.taken + |Bytes(frames)| + lost, frames := t.frames + frames, reader := ReaderStopped)
    decreases |frames|
  {
    if frames == [] {
      assert t.frames + [] == t.frames;
      steps := [StopReader];
      var u := if lost > 0 then Next(t, ReadChunk(lost)) else t;
      Cons(u, StopReader, []);
      assert [StopReader] + [] == steps;
      if lost > 0 {
        Cons(t, ReadChunk(lost), steps);
        steps := [ReadChunk(lost)] + steps;
      }
    } else {
      var f := frames[0];
      FramesAt(t.sent, t.taken, frames);
      OneFrame(t, f);
      var rest := ReaderRuns(WithFrame(t, f), frames[1..], lost);
      Cons(Next(t, ReadChunk(|f|)), SendFrame, rest);
      Cons(t, ReadChunk(|f|), [SendFrame] + rest);
      steps := [ReadChunk(|f|)] + ([SendFrame] + rest);
      Assoc(t.frames, [f], frames[1..]);
      assert [f] + frames[1..] == frames;
    }
  }

  /** Where the first frame and the others stand in the stream. */
  lemma FramesAt(sent: seq<byte>, at: nat, frames: seq<seq<byte>>)
    requires frames != [] && at + |Bytes(frames)| <= |sent| && sent[at..at + |Bytes(frames)|] == Bytes(frames)
    ensures |Bytes(frames)| == |frames[0]| + |Bytes(frames[1..])|
    ensures sent[at..at + |frames[0]|] == frames[0]
    ensures sent[at + |frames[0]|..at + |frames[0]| + |Bytes(frames[1..])|] == Bytes(frames[1..])
  {
    var all, n := Bytes(frames), |frames[0]|;
    assert all[..n] == frames[0] && all[n..] == Bytes(frames[1..]);
    assert sent[at..at + |all|][..n] == sent[at..at + n] && sent[at..at + |all|][n..] == sent[at + n..at + |all|];
  }

  /** The loop from the WebSocket to the connection: k frames, as long as there is room. */
  lemma {:induction false} WriterRuns(t: Tunnel, k: nat, room: nat) returns (steps: seq<Step>)
    requires t.writer == Ready && k <= |t.frames|
    ensures Feasible(t, steps)
    ensures var all := Bytes(t.frames[..k]);
            Run(t, steps) == t.(delivered := t.delivered + all[..Min(|all|, room)],
                                frames := t.frames[Drained(t.frames[..k], room)..], writer := WriterStopped)
    decreases k
  {
    if k == 0 {
      steps := [StopWriter];
      NoFrames(t);
      Cons(t, StopWriter, []);
      assert [StopWriter] + [] == steps;
    } else {
      var f, others := t.frames[0], t.frames[1..][..k - 1];
      FrontFrames(t.frames, k);
      if |f| <= room {
        var rest := WriterRuns(Wrote(t, f), k - 1, room - |f|);
        WroteSteps(t, f, rest);
        steps := WholeSteps(f) + rest;
        RoomLeft(t.delivered, f, Bytes(others), room);
        Behind(t.frames, Drained(others, room - |f|));
      } else {
        PartOfFrame(t, f, Bytes(others), room);
        steps := PartSteps(room);
      }
    }
  }

  lemma NoFrames(t: Tunnel)
    ensures t.frames[..0] == [] && t.frames[0..] == t.frames && t.delivered + [] == t.delivered
  {}

  lemma Behind(frames: seq<seq<byte>>, n: nat)
    requires n < |frames|
    ensures frames[1..][n..] == frames[1 + n..]
  {}

  /** A frame written in full. */
  function WholeSteps(f: seq<byte>): seq<Step> {
    if f == [] then [ReceiveFrame] else [ReceiveFrame] + [WriteSome(|f|)]
  }

  lemma WroteSteps(t: Tunnel, f: seq<byte>, rest: seq<Step>)
    requires t.writer == Ready && t.frames != [] && t.frames[0] == f && Feasible(Wrote(t, f), rest)
    ensures Feasible(t, WholeSteps(f) + rest) && Run(t, WholeSteps(f) + rest) == Run(Wrote(t, f), rest)
  {
    if f == [] {
      assert t.delivered + [] == t.delivered;
      Cons(t, ReceiveFrame, rest);
    } else {
      WholeFrame(t, f);
      Cons(Next(t, ReceiveFrame), WriteSome(|f|), rest);
      Cons(t, ReceiveFrame, [WriteSome(|f|)] + rest);
      Assoc([ReceiveFrame], [WriteSome(|f|)], rest);
    }
  }

  function Wrote(t: Tunnel, f: seq<byte>): Tunnel
    requires t.frames != []
  {
    t.(frames := t.frames[1..], delivered := t.delivered + f)
  }

  lemma WholeFrame(t: Tunnel, f: seq<byte>)
    requires t.writer == Ready && t.frames != [] && t.frames[0] == f && f != []
    ensures Can(t, ReceiveFrame) && Can(Next(t, ReceiveFrame), WriteSome(|f|))
    ensures Next(Next(t, ReceiveFrame), WriteSome(|f|)) == Wrote(t, f)
  {
    assert f[..|f|] == f && f[|f|..] == [];
  }

  lemma RoomLeft(delivered: seq<byte>, f: seq<byte>, others: seq<byte>, room: nat)
    requires |f| <= room
    ensures delivered + f + others[..Min(|others|, room - |f|)] == delivered + (f + others)[..Min(|f + others|, room)]
  {
    var m := Min(|others|, room - |f|);
    assert (f + others)[..|f| + m] == f + others[..m];
    Assoc(delivered, f, others[..m]);
  }

  function PartSteps(room: nat): seq<Step> {
    if room == 0 then [ReceiveFrame, StopWriter] else [ReceiveFrame, WriteSome(room), StopWriter]
  }

  lemma PartOfFrame(t: Tunnel, f: seq<byte>, others: seq<byte>, room: nat)
    requires t.writer == Ready && t.frames != [] && t.frames[0] == f && room < |f|
    ensures Feasible(t, PartSteps(room))
    ensures Run(t, PartSteps(room)) ==
            t.(delivered := t.delivered + (f + others)[..room], frames := t.frames[1..], writer := WriterStopped)
  {
    var u := Next(t, ReceiveFrame);
    assert (f + others)[..room] == f[..room];
    if room == 0 {
      assert t.delivered + f[..0] == t.delivered;
      Two(t, ReceiveFrame, StopWriter);
    } else {
      Two(u, WriteSome(room), StopWriter);
      Cons(t, ReceiveFrame, [WriteSome(room), StopWriter]);
      assert [ReceiveFrame] + [WriteSome(room), StopWriter] == PartSteps(room);
    }
  }

  lemma Two(t: Tunnel, s: Step, next: Step)
    requires Can(t, s) && Can(Next(t, s), next)
    ensures Feasible(t, [s, next]) && Run(t, [s, next]) == Next(Next(t, s), next)
  {
    Cons(Next(t, s), next, []);
    assert [next] + [] == [next];
    Cons(t, s, [next]);
    assert [s] + [next] == [s, next];
  }

  lemma PumpRuns(s: Source, budget: nat) returns (steps: seq<Step>)
    ensures Feasible(Start(Pending(s)), steps)
    ensures var p := Pump(s, budget);
            Run(Start(Pending(s)), steps) ==
            Tunnel(Pending(s), |Bytes(p.frames)| + |p.lost|, ReaderStopped, p.frames, Ready, [])
  {
    var p := Pump(s, budget);
    PumpConserves(s, budget);
    PumpFrames(s, budget);
    assert Pending(s)[0..|Bytes(p.frames)|] == Bytes(p.frames);
    steps := ReaderRuns(Start(Pending(s)), p.frames, |p.lost|);
    assert [] + p.frames == p.frames;
  }

  /** What the far end is given when k of the frames get through and there is room for so many bytes. */
  function GivenFar(frames: seq<seq<byte>>, k: nat, room: nat): seq<byte>
    requires k <= |frames|
  {
    var all := Bytes(frames[..k]);
    all[..Min(|all|, room)]
  }

  /** The tunnel after both loops: what the first has read and sent or lost, what the second has delivered, the frames
      it did not take, and both ends stopped. */
  function Ended(s: Source, budget: nat, k: nat, room: nat): Tunnel
    requires k <= |Pump(s, budget).frames|
  {
    var p := Pump(s, budget);
    Tunnel(Pending(s), |Bytes(p.frames)| + |p.lost|, ReaderStopped, p.frames[Drained(p.frames[..k], room)..],
           WriterStopped, GivenFar(p.frames, k, room))
  }

  /** Both loops, the second on the first k frames of the first, are a run of the tunnel, to where they end. */
  lemma LoopsAreSteps(s: Source, budget: nat, k: nat, room: nat) returns (steps: seq<Step>)
    requires k <= |Pump(s, budget).frames|
    ensures Feasible(Start(Pending(s)), steps)
    ensures Run(Start(Pending(s)), steps) == Ended(s, budget, k, room)
    ensures GivenFar(Pump(s, budget).frames, k, room) <= Pending(s)
  {
    var p, t := Pump(s, budget), Start(Pending(s));
    var first := PumpRuns(s, budget);
    var second := WriterRuns(Run(t, first), k, room);
    Joined(t, first, second);
    steps := first + second;
    var given := GivenFar(p.frames, k, room);
    assert [] + given == given;
    TunnelRun(t, steps);
  }

  /** With enough of everything the far end is given all that the near end yields. */
  lemma AllGiven(s: Source, budget: nat, k: nat, room: nat)
    requires budget >= |s.rest| + |s.arrivals| && k == |Pump(s, budget).frames| && room >= |Pending(s)|
    ensures GivenFar(Pump(s, budget).frames, k, room) == s.rest + Yielded(s.stream, s.arrivals, BUFFER_SIZE)
  {
    var p := Pump(s, budget);
    PumpEnough(s, budget);
    PumpComplete(s, budget);
    PumpConserves(s, budget);
    assert |Pending(s)| == |Bytes(p.frames)| + |p.lost| + |Pending(p.left)|;
    assert p.frames[..k] == p.frames && Bytes(p.frames)[..|Bytes(p.frames)|] == Bytes(p.frames);
  }

  /** What the two loops come to, the first with a number of writes that succeed, the second with the frames that get
      through: the far end is given the bytes of those frames as far as there is room, a prefix of what was to be read;
      with enough writes, frames and room all that reading yields; and a run of the tunnel comes to the same end. */
  ghost predicate Relayed(s: Source, budget: nat, k: nat, room: nat, given: seq<byte>) {
    var p := Pump(s, budget);
    var n := Min(k, |p.frames|);
    && given == GivenFar(p.frames, n, room) <= Pending(s)
    && (budget >= |s.rest| + |s.arrivals| && k >= |s.rest| + |s.arrivals| && room >= |Pending(s)| ==>
        given == s.rest + Yielded(s.stream, s.arrivals, BUFFER_SIZE))
    && exists steps :: Feasible(Start(Pending(s)), steps) && Run(Start(Pending(s)), steps) == Ended(s, budget, n, room)
  }

  lemma LoopsRelay(s: Source, budget: nat, k: nat, room: nat)
    ensures var frames := Pump(s, budget).frames; Relayed(s, budget, k, room, GivenFar(frames, Min(k, |frames|), room))
  {
    var n := Min(k, |Pump(s, budget).frames|);
    var steps := LoopsAreSteps(s, budget, n, room);
    if budget >= |s.rest| + |s.arrivals| && k >= |s.rest| + |s.arrivals| && room >= |Pending(s)| {
      PumpEnough(s, budget);
      AllGiven(s, budget, n, room);
    }
  }

  /** The relay of one direction, from the request on: the hand-over, the loop into the WebSocket, and the loop out of
      it on the other side, which the first k of the frames reach.  It happens exactly when the request head comes in
      full, and then with the near end's stream behind the head. */
  method Tunnelled(near: Conn, far: Conn, budget: nat, k: nat) returns (ok: bool, ghost given: seq<byte>)
    requires near != far
    modifies near`stream, near`arrivals, far`delivered, far`room
    ensures ok <==> Complete(Yielded(old(near.stream), old(near.arrivals), BUFIO_SIZE))
    ensures far.delivered == old(far.delivered) + given && far.room == old(far.room) - |given|
    ensures !ok ==> given == []
    ensures ok ==> HeadLength(old(near.stream)) > 0
    ensures ok ==>
              var s := HandedOver(old(near.stream), old(near.arrivals));
              && Pending(s) == old(near.stream)[HeadLength(old(near.stream))..]
              && near.stream == Pump(s, budget).left.stream && near.arrivals == Pump(s, budget).left.arrivals
              && Relayed(s, budget, k, old(far.room), given)
  {
    given := [];
    var pconn;
    pconn, ok := HandOver(near);
    assert far.delivered + [] == far.delivered;
    if !ok {
      return;
    }
    LoopsRelay(pconn.View(), budget, k, far.room);
    given := RelayLoops(pconn, far, budget, k);
  }

  /** Both loops. */
  method RelayLoops(near: PrefixConn, far: Conn, budget: nat, k: nat) returns (ghost given: seq<byte>)
    requires near.Valid() && near.conn != far
    modifies near`off, near.conn`stream, near.conn`arrivals, far`delivered, far`room
    ensures near.Valid() && near.View() == Pump(old(near.View()), budget).left
    ensures var frames := Pump(old(near.View()), budget).frames; given == GivenFar(frames, Min(k, |frames|), old(far.room))
    ensures far.delivered == old(far.delivered) + given && far.room == old(far.room) - |given|
  {
    var ws := new WebSocket(budget, []);
    assert ws.sent + Pump(near.View(), budget).frames == Pump(near.View(), budget).frames;
    ghost var lost := ConnToWS(near, ws);
    var n := Min(k, |ws.sent|);
    var farWS := new WebSocket(0, ws.sent[..n]);
    given := GivenFar(ws.sent, n, far.room);
    ghost var frames;
    var failed;
    frames, failed := WSToConn(farWS, far);
  }
}
