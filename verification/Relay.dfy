/**
 The byte relays.  A connection delivers its stream in chunks the environment chooses and may fail at any read
 or write; a WebSocket carries frames.  The loops reuse one buffer.
 */
module Relay {
  import opened Text

  type byte = b: int | 0 <= b < 256 witness 0

  const BUFFER_SIZE := 32 * 1024
  const BUFIO_SIZE := 4096

  function Min(a: nat, b: nat): nat {
    if a <= b then a else b
  }

  /** The bytes of the frames in order, first frame first. */
  function Bytes(frames: seq<seq<byte>>): seq<byte> {
    if frames == [] then [] else frames[0] + Bytes(frames[1..])
  }

  lemma {:induction false} BytesConcat(a: seq<seq<byte>>, b: seq<seq<byte>>)
    ensures Bytes(a + b) == Bytes(a) + Bytes(b)
  {
    if a == [] {
      assert a + b == b;
    } else {
      assert (a + b)[1..] == a[1..] + b;
      BytesConcat(a[1..], b);
      Assoc(a[0], Bytes(a[1..]), Bytes(b));
    }
  }

  lemma BytesOne(f: seq<byte>)
    ensures Bytes([f]) == f
  {
    assert [f][1..] == [];
  }

  lemma BytesAppend(frames: seq<seq<byte>>, f: seq<byte>)
    ensures Bytes(frames + [f]) == Bytes(frames) + f
  {
    BytesConcat(frames, [f]);
    BytesOne(f);
  }

  // ---------- Connections ----------

  /** What the next read of a connection gives: at most max bytes, and whether it also reports an error or EOF. */
  datatype Arrival = Arrival(max: nat, fails: bool)

  /** How many bytes a read gives, of those available, into a buffer of the given length. */
  function Got(arrivals: seq<Arrival>, available: nat, length: nat): nat {
    if arrivals == [] then 0 else Min(Min(arrivals[0].max, available), length)
  }

  predicate GoesOn(arrivals: seq<Arrival>) {
    arrivals != [] && !arrivals[0].fails
  }

  function Later(arrivals: seq<Arrival>): seq<Arrival> {
    if arrivals == [] then [] else arrivals[1..]
  }

  /** What reading gives in all, up to and including the first read that fails. */
  function Yielded(stream: seq<byte>, arrivals: seq<Arrival>, length: nat): seq<byte>
    decreases |arrivals|
  {
    var n := Got(arrivals, |stream|, length);
    stream[..n] + if GoesOn(arrivals) then Yielded(stream[n..], Later(arrivals), length) else []
  }

  /** The reads behind the first one that fails. */
  function AfterFailure(arrivals: seq<Arrival>): seq<Arrival> {
    if GoesOn(arrivals) then AfterFailure(arrivals[1..]) else Later(arrivals)
  }

  lemma {:induction false} YieldedPrefix(stream: seq<byte>, arrivals: seq<Arrival>, length: nat)
    ensures Yielded(stream, arrivals, length) <= stream
    decreases |arrivals|
  {
    var n := Got(arrivals, |stream|, length);
    assert stream == stream[..n] + stream[n..];
    if !GoesOn(arrivals) {
    } else {
      YieldedPrefix(stream[n..], Later(arrivals), length);
    }
  }

  /** A TCP connection.  stream: the bytes the peer sends that were not read yet; arrivals: how reads will go (none
      left: they fail); delivered: what was written to the peer; room: the bytes that can still be written. */
  class Conn {
    var stream: seq<byte>
    var arrivals: seq<Arrival>
    var delivered: seq<byte>
    var room: nat

    constructor (stream: seq<byte>, arrivals: seq<Arrival>, room: nat)
      ensures this.stream == stream && this.arrivals == arrivals && delivered == [] && this.room == room
    {
      this.stream, this.arrivals, delivered, this.room := stream, arrivals, [], room;
    }

    method Read(b: array<byte>) returns (n: nat, ok: bool)
      modifies this`stream, this`arrivals, b
      ensures n == Got(old(arrivals), |old(stream)|, b.Length) && ok == GoesOn(old(arrivals))
      ensures b[..n] == old(stream)[..n] && stream == old(stream)[n..] && arrivals == Later(old(arrivals))
    {
      if arrivals == [] {
        return 0, false;
      }
      var a := arrivals[0];
      arrivals := arrivals[1..];
      n := Min(Min(a.max, |stream|), b.Length);
      forall i | 0 <= i < n {
        b[i] := stream[i];
      }
      stream := stream[n..];
      ok := !a.fails;
    }

    /** Writes all of msg, or as much as there is room for and reports an error. */
    method Write(msg: seq<byte>) returns (ok: bool)
      modifies this`delivered, this`room
      ensures delivered == old(delivered) + msg[..Min(|msg|, old(room))]
      ensures room == old(room) - Min(|msg|, old(room)) && ok == (|msg| <= old(room))
    {
      var n := Min(|msg|, room);
      delivered := delivered + msg[..n];
      room := room - n;
      ok := n == |msg|;
    }
  }

  // ---------- prefixConn ----------

  /** A connection with bytes put back in front of it. */
  datatype Source = Source(rest: seq<byte>, stream: seq<byte>, arrivals: seq<Arrival>)

  /** The bytes reads may still give. */
  function Pending(s: Source): seq<byte> {
    s.rest + s.stream
  }

  /** How many bytes a read gives: from the buffer alone while it holds any, then from the connection. */
  function Taken(s: Source, length: nat): (n: nat)
    ensures n <= |Pending(s)| && n <= length
  {
    if s.rest != [] then Min(|s.rest|, length) else Got(s.arrivals, |s.stream|, length)
  }

  predicate ReadOk(s: Source) {
    s.rest != [] || GoesOn(s.arrivals)
  }

  function AfterRead(s: Source, length: nat): Source {
    if s.rest != [] then s.(rest := s.rest[Taken(s, length)..])
    else s.(stream := s.stream[Taken(s, length)..], arrivals := Later(s.arrivals))
  }

  lemma PendingAfter(s: Source, length: nat)
    ensures Pending(s) == Pending(s)[..Taken(s, length)] + Pending(AfterRead(s, length))
    ensures s.rest != [] ==> Pending(s)[..Taken(s, length)] == s.rest[..Taken(s, length)]
    ensures s.rest == [] ==> Pending(s)[..Taken(s, length)] == s.stream[..Taken(s, length)]
  {
    assert s.rest == [] ==> Pending(s) == s.stream && Pending(AfterRead(s, length)) == s.stream[Taken(s, length)..];
  }

  /** prefixConn.  An empty buffer is a plain connection. */
  class PrefixConn {
    const conn: Conn
    const buf: seq<byte>
    var off: nat

    ghost predicate Valid()
      reads this
    {
      off <= |buf|
    }

    ghost function View(): Source
      requires Valid()
      reads this, conn
    {
      Source(buf[off..], conn.stream, conn.arrivals)
    }

    constructor (conn: Conn, buf: seq<byte>)
      ensures Valid() && this.conn == conn && this.buf == buf && off == 0
      ensures View() == Source(buf, conn.stream, conn.arrivals)
    {
      this.conn, this.buf, off := conn, buf, 0;
    }

    /** Read: the buffer first, then the connection. */
    method Read(b: array<byte>) returns (n: nat, ok: bool)
      requires Valid()
      modifies this`off, conn`stream, conn`arrivals, b
      ensures Valid()
      ensures n == Taken(old(View()), b.Length) && ok == ReadOk(old(View()))
      ensures b[..n] == Pending(old(View()))[..n] && View() == AfterRead(old(View()), b.Length)
    {
      PendingAfter(View(), b.Length);
      if off < |buf| {
        n := Min(|buf| - off, b.Length);
        forall i | 0 <= i < n {
          b[i] := buf[off + i];
        }
        off := off + n;
        ok := true;
      } else {
        n, ok := conn.Read(b);
      }
    }
  }

  /** Reads with buffers of any sizes, one after the other: what they leave, and what they give together. */
  function AfterReads(s: Source, sizes: seq<nat>): Source
    decreases |sizes|
  {
    if sizes == [] then s else AfterReads(AfterRead(s, sizes[0]), sizes[1..])
  }

  function Given(s: Source, sizes: seq<nat>): seq<byte>
    decreases |sizes|
  {
    if sizes == [] then []
    else Pending(s)[..Taken(s, sizes[0])] + Given(AfterRead(s, sizes[0]), sizes[1..])
  }

  function Sum(sizes: seq<nat>): nat {
    if sizes == [] then 0 else sizes[0] + Sum(sizes[1..])
  }

  lemma {:induction false} SizesConserve(s: Source, sizes: seq<nat>)
    ensures Pending(s) == Given(s, sizes) + Pending(AfterReads(s, sizes)) && |Given(s, sizes)| <= Sum(sizes)
    decreases |sizes|
  {
    if sizes == [] {
      assert [] + Pending(s) == Pending(s);
    } else {
      var next, g := AfterRead(s, sizes[0]), Pending(s)[..Taken(s, sizes[0])];
      SizesConserve(next, sizes[1..]);
      PendingAfter(s, sizes[0]);
      Assoc(g, Given(next, sizes[1..]), Pending(AfterReads(next, sizes[1..])));
    }
  }

  lemma LeftOver(rest: seq<byte>, size: nat, sum: nat)
    ensures var left := rest[Min(|rest|, size)..];
            left[Min(|left|, sum)..] == rest[Min(|rest|, size + sum)..]
  {
    var n := Min(|rest|, size);
    DropDrop(rest, n, Min(|rest| - n, sum));
  }

  lemma OneLeaves(s: Source, size: nat)
    ensures AfterRead(s, size).rest == s.rest[Min(|s.rest|, size)..] && |AfterRead(s, size).stream| <= |s.stream|
    ensures s.rest != [] ==> AfterRead(s, size).stream == s.stream && AfterRead(s, size).arrivals == s.arrivals
  {
    assert s.rest[0..] == s.rest;
  }

  lemma {:induction false} SizesLeave(s: Source, sizes: seq<nat>)
    ensures AfterReads(s, sizes).rest == s.rest[Min(|s.rest|, Sum(sizes))..]
    ensures |AfterReads(s, sizes).stream| <= |s.stream|
    ensures AfterReads(s, sizes).rest != [] ==>
              AfterReads(s, sizes).stream == s.stream && AfterReads(s, sizes).arrivals == s.arrivals
    decreases |sizes|
  {
    if sizes == [] {
      assert s.rest[0..] == s.rest;
    } else {
      var next := AfterRead(s, sizes[0]);
      OneLeaves(s, sizes[0]);
      LeftOver(s.rest, sizes[0], Sum(sizes[1..]));
      SizesLeave(next, sizes[1..]);
    }
  }

  /** For any sequence of read sizes: no byte is lost, doubled or moved; the buffer is given in full before the
      connection is touched; and while it lasts the reads give all that was asked for. */
  lemma AnySizes(s: Source, sizes: seq<nat>)
    ensures Pending(s) == Given(s, sizes) + Pending(AfterReads(s, sizes))
    ensures var m := Min(|s.rest|, Sum(sizes));
            && AfterReads(s, sizes).rest == s.rest[m..]
            && m <= |Given(s, sizes)| && Given(s, sizes)[..m] == s.rest[..m]
    ensures Sum(sizes) < |s.rest| ==>
              Given(s, sizes) == s.rest[..Sum(sizes)] && AfterReads(s, sizes) == s.(rest := s.rest[Sum(sizes)..])
  {
    SizesConserve(s, sizes);
    SizesLeave(s, sizes);
    SizesFront(s, AfterReads(s, sizes), Given(s, sizes), Sum(sizes));
  }

  lemma SizesFront(s: Source, after: Source, given: seq<byte>, sum: nat)
    requires Pending(s) == given + Pending(after) && |given| <= sum
    requires after.rest == s.rest[Min(|s.rest|, sum)..]
    requires after.rest != [] ==> after.stream == s.stream
    requires |after.stream| <= |s.stream|
    ensures Min(|s.rest|, sum) <= |given| && given[..Min(|s.rest|, sum)] == s.rest[..Min(|s.rest|, sum)]
    ensures sum < |s.rest| ==> given == s.rest[..sum]
  {
    var m := Min(|s.rest|, sum);
    assert |Pending(s)| == |given| + |Pending(after)|;
    assert m <= |given|;
    assert given == Pending(s)[..|given|];
    assert given[..m] == Pending(s)[..m] == s.rest[..m];
  }

  // ---------- WebSockets and the relay loops ----------

  /** One end of a WebSocket.  sent: the frames written; budget: how many more writes succeed; inbox: the frames
      that will be read before reading fails. */
  class WebSocket {
    var sent: seq<seq<byte>>
    var budget: nat
    var inbox: seq<seq<byte>>

    constructor (budget: nat, inbox: seq<seq<byte>>)
      ensures sent == [] && this.budget == budget && this.inbox == inbox
    {
      sent, this.budget, this.inbox := [], budget, inbox;
    }

    /** WriteMessage(BinaryMessage, b[:n]) */
    method WriteMessage(b: array<byte>, n: nat) returns (ok: bool)
      requires n <= b.Length
      modifies this`sent, this`budget
      ensures ok == (old(budget) > 0)
      ensures sent == old(sent) + (if ok then [b[..n]] else []) && budget == old(budget) - (if ok then 1 else 0)
    {
      if budget == 0 {
        return false;
      }
      budget := budget - 1;
      sent := sent + [b[..n]];
      return true;
    }

    method ReadMessage() returns (msg: seq<byte>, ok: bool)
      modifies this`inbox
      ensures ok == (old(inbox) != [])
      ensures ok ==> msg == old(inbox)[0] && inbox == old(inbox)[1..]
      ensures !ok ==> inbox == []
    {
      if inbox == [] {
        return [], false;
      }
      msg := inbox[0];
      inbox := inbox[1..];
      return msg, true;
    }
  }

  /** What the loop from a connection to a WebSocket comes to: the frames sent, the chunk a failed write swallowed,
      what is left to read, and how many more writes would succeed. */
  datatype Pumped = Pumped(frames: seq<seq<byte>>, lost: seq<byte>, left: Source, budget: nat)

  function Behind(frames: seq<seq<byte>>, p: Pumped): Pumped {
    p.(frames := frames + p.frames)
  }

  /** A chunk as a frame; nothing is sent for an empty one. */
  function Frame(chunk: seq<byte>): seq<seq<byte>> {
    if chunk == [] then [] else [chunk]
  }

  function Pump(s: Source, budget: nat): Pumped
    decreases |s.rest| + |s.arrivals|
  {
    var chunk, next := Pending(s)[..Taken(s, BUFFER_SIZE)], AfterRead(s, BUFFER_SIZE);
    if chunk != [] && budget == 0 then Pumped([], chunk, next, 0)
    else
      var left := budget - |Frame(chunk)|;
      if ReadOk(s) then Behind(Frame(chunk), Pump(next, left)) else Pumped(Frame(chunk), [], next, left)
  }

  /** One round of the loop. */
  lemma PumpRound(p: Pumped, frames: seq<seq<byte>>, s: Source, budget: nat, chunk: seq<byte>, next: Source)
    requires p == Behind(frames, Pump(s, budget))
    requires chunk == Pending(s)[..Taken(s, BUFFER_SIZE)] && next == AfterRead(s, BUFFER_SIZE)
    ensures chunk != [] && budget == 0 ==> p == Pumped(frames, chunk, next, 0)
    ensures chunk == [] || budget > 0 ==>
              p == if ReadOk(s) then Behind(frames + Frame(chunk), Pump(next, budget - |Frame(chunk)|))
                   else Pumped(frames + Frame(chunk), [], next, budget - |Frame(chunk)|)
    ensures ReadOk(s) ==> |next.rest| + |next.arrivals| < |s.rest| + |s.arrivals|
  {
    assert frames + [] == frames;
    if (chunk == [] || budget > 0) && ReadOk(s) {
      Assoc(frames, Frame(chunk), Pump(next, budget - |Frame(chunk)|).frames);
    }
  }

  /** The body of the loop below.  lost: the chunk whose write failed. */
  method PumpOnce(conn: PrefixConn, ws: WebSocket, buf: array<byte>) returns (more: bool, ghost lost: seq<byte>)
    requires conn.Valid() && buf.Length == BUFFER_SIZE
    modifies conn`off, conn.conn`stream, conn.conn`arrivals, ws`sent, ws`budget, buf
    ensures conn.Valid() && conn.View() == AfterRead(old(conn.View()), BUFFER_SIZE)
    ensures var s := old(conn.View());
            var chunk := Pending(s)[..Taken(s, BUFFER_SIZE)];
            && lost == (if chunk != [] && old(ws.budget) == 0 then chunk else [])
            && more == (lost == [] && ReadOk(s))
            && ws.sent == old(ws.sent) + (if lost == [] then Frame(chunk) else [])
            && ws.budget == if lost == [] then old(ws.budget) - |Frame(chunk)| else 0
  {
    var n, ok := conn.Read(buf);
    if n > 0 {
      var written := ws.WriteMessage(buf, n);
      if !written {
        return false, buf[..n];
      }
    }
    return ok, [];
  }

  /** The loop from a connection to a WebSocket.  lost: the chunk a failed write swallowed. */
  method ConnToWS(conn: PrefixConn, ws: WebSocket) returns (ghost lost: seq<byte>)
    requires conn.Valid()
    modifies conn`off, conn.conn`stream, conn.conn`arrivals, ws`sent, ws`budget
    ensures conn.Valid()
    ensures var p := Pump(old(conn.View()), old(ws.budget));
            ws.sent == old(ws.sent) + p.frames && ws.budget == p.budget && conn.View() == p.left && lost == p.lost
  {
    var buf := new byte[BUFFER_SIZE];
    ghost var p := Pump(conn.View(), ws.budget);
    ghost var frames: seq<seq<byte>> := [];
    lost := [];
    var more := true;
    assert [] + p.frames == p.frames && ws.sent + [] == ws.sent;
    while more
      invariant conn.Valid() && fresh(buf)
      invariant ws.sent == old(ws.sent) + frames
      invariant more ==> lost == [] && p == Behind(frames, Pump(conn.View(), ws.budget))
      invariant !more ==> p == Pumped(frames, lost, conn.View(), ws.budget)
      decreases more, |conn.View().rest| + |conn.View().arrivals|
    {
      ghost var s, budget := conn.View(), ws.budget;
      ghost var chunk := Pending(s)[..Taken(s, BUFFER_SIZE)];
      PumpRound(p, frames, s, budget, chunk, AfterRead(s, BUFFER_SIZE));
      more, lost := PumpOnce(conn, ws, buf);
      Assoc(old(ws.sent), frames, Frame(chunk));
      frames := if lost == [] then frames + Frame(chunk) else frames;
    }
  }

  /** How many frames the loop from the WebSocket to the connection takes: one more than fit, if not all do. */
  function Drained(frames: seq<seq<byte>>, room: nat): (n: nat)
    ensures n <= |frames|
  {
    if frames == [] then 0 else if |frames[0]| > room then 1 else 1 + Drained(frames[1..], room - |frames[0]|)
  }

  lemma FrontFrames(frames: seq<seq<byte>>, k: nat)
    requires 0 < k <= |frames|
    ensures frames[..k][0] == frames[0] && frames[..k][1..] == frames[1..][..k - 1]
    ensures Bytes(frames[..k]) == frames[0] + Bytes(frames[1..][..k - 1])
  {}

  lemma {:induction false} TakenFrames(inbox: seq<seq<byte>>, n: nat, room: nat)
    requires n <= |inbox| && (n < |inbox| ==> |Bytes(inbox[..n])| > room)
    requires |Bytes(inbox[..n])| > room ==> n > 0 && |Bytes(inbox[..n - 1])| <= room
    ensures n == Drained(inbox, room)
  {
    if inbox == [] {
    } else {
      assert inbox[..0] == [] && n > 0;
      var f, rest := inbox[0], inbox[1..];
      FrontFrames(inbox, n);
      if n == 1 {
        assert inbox[..1] == [f];
        BytesOne(f);
        if |f| <= room {
          assert rest == [];
        }
      } else {
        FrontFrames(inbox, n - 1);
        TakenFrames(rest, n - 1, room - |f|);
      }
    }
  }

  lemma FramesTaken(frames: seq<seq<byte>>, others: seq<seq<byte>>, room: nat)
    requires |Bytes(frames)| <= room ==> others == []
    requires |Bytes(frames)| > room ==> frames != [] && |Bytes(frames[..|frames| - 1])| <= room
    ensures |frames| == Drained(frames + others, room)
  {
    var all, n := frames + others, |frames|;
    assert all[..n] == frames && (n > 0 ==> all[..n - 1] == frames[..n - 1]);
    TakenFrames(all, n, room);
  }

  /** The loop from a WebSocket to a connection: the bytes of the frames, in order, as long as there is room.
      frames: those taken; when a write failed the last one may have been written only in part. */
  method WSToConn(ws: WebSocket, conn: Conn) returns (ghost frames: seq<seq<byte>>, failed: bool)
    modifies ws`inbox, conn`delivered, conn`room
    ensures var all := Bytes(old(ws.inbox));
            && conn.delivered == old(conn.delivered) + all[..Min(|all|, old(conn.room))]
            && conn.room == old(conn.room) - Min(|all|, old(conn.room)) && failed == (|all| > old(conn.room))
    ensures old(ws.inbox) == frames + ws.inbox && (!failed ==> ws.inbox == [])
    ensures failed ==> frames != [] && |Bytes(frames[..|frames| - 1])| <= old(conn.room) < |Bytes(frames)|
    ensures |frames| == Drained(old(ws.inbox), old(conn.room))
  {
    frames := [];
    ghost var all, room := Bytes(ws.inbox), conn.room;
    while true
      invariant old(ws.inbox) == frames + ws.inbox && all == Bytes(frames) + Bytes(ws.inbox)
      invariant conn.delivered == old(conn.delivered) + Bytes(frames) && conn.room == room - |Bytes(frames)|
      decreases |ws.inbox|
    {
      var msg, ok := ws.ReadMessage();
      if !ok {
        assert all[..|all|] == all && Bytes(frames) + [] == Bytes(frames);
        FramesTaken(frames, ws.inbox, room);
        return frames, false;
      }
      ghost var before, left := frames, conn.room;
      BytesAppend(frames, msg);
      assert (frames + [msg])[..|frames|] == frames;
      frames := frames + [msg];
      Assoc(Bytes(before), msg, Bytes(ws.inbox));
      Assoc(old(conn.delivered), Bytes(before), msg[..Min(|msg|, left)]);
      var written := conn.Write(msg);
      if !written {
        assert all[..room] == Bytes(before) + msg[..left];
        FramesTaken(frames, ws.inbox, room);
        return frames, true;
      }
      assert msg[..|msg|] == msg;
    }
  }

  // ---------- What the loops come to ----------

  lemma FrameBytes(chunk: seq<byte>)
    ensures Bytes(Frame(chunk)) == chunk
  {
    if chunk == [] {
    } else {
      BytesOne(chunk);
    }
  }

  lemma FrameLast(chunk: seq<byte>, left: seq<byte>)
    ensures chunk + left == Bytes(Frame(chunk)) + [] + left == Bytes([]) + chunk + left
  {
    FrameBytes(chunk);
    assert chunk + [] == chunk && [] + chunk == chunk;
  }

  lemma FrameBehind(chunk: seq<byte>, frames: seq<seq<byte>>, lost: seq<byte>, left: seq<byte>)
    ensures chunk + (Bytes(frames) + lost + left) == Bytes(Frame(chunk) + frames) + lost + left
  {
    FrameBytes(chunk);
    BytesConcat(Frame(chunk), frames);
    Assoc(chunk, Bytes(frames), lost);
    Assoc(chunk, Bytes(frames) + lost, left);
  }

  lemma NothingPumped(next: Source)
    ensures Pending(next) == Bytes([]) + [] + Pending(next)
  {
    assert Bytes([]) + [] + Pending(next) == Pending(next);
  }

  /** One round: the chunk is lost, or a frame of its own, or one before those of q. */
  lemma RoundConserves(p: Pumped, chunk: seq<byte>, next: Source, q: Pumped)
    requires (p.frames == [] && p.lost == chunk && p.left == next) || p == Behind(Frame(chunk), q)
             || (p.frames == Frame(chunk) && p.lost == [] && p.left == next)
    requires Pending(next) == Bytes(q.frames) + q.lost + Pending(q.left)
    ensures Bytes(p.frames) + p.lost + Pending(p.left) == chunk + Pending(next)
  {
    FrameLast(chunk, Pending(next));
    FrameBehind(chunk, q.frames, q.lost, Pending(q.left));
  }

  /** Every byte read is in a frame, in order, or in the one chunk that was lost, or still to be read. */
  lemma {:induction false} PumpConserves(s: Source, budget: nat)
    ensures var p := Pump(s, budget); Pending(s) == Bytes(p.frames) + p.lost + Pending(p.left)
    decreases |s.rest| + |s.arrivals|
  {
    var chunk, next := Pending(s)[..Taken(s, BUFFER_SIZE)], AfterRead(s, BUFFER_SIZE);
    PendingAfter(s, BUFFER_SIZE);
    if (chunk == [] || budget > 0) && ReadOk(s) {
      PumpConserves(next, budget - |Frame(chunk)|);
      RoundConserves(Pump(s, budget), chunk, next, Pump(next, budget - |Frame(chunk)|));
    } else {
      NothingPumped(next);
      RoundConserves(Pump(s, budget), chunk, next, Pumped([], [], next, 0));
    }
  }

  predicate GoodFrames(frames: seq<seq<byte>>) {
    forall k :: 0 <= k < |frames| ==> 0 < |frames[k]| <= BUFFER_SIZE
  }

  lemma GoodMore(chunk: seq<byte>, frames: seq<seq<byte>>)
    requires |chunk| <= BUFFER_SIZE && GoodFrames(frames)
    ensures GoodFrames(Frame(chunk) + frames) && GoodFrames(Frame(chunk))
  {}

  /** Frames are never empty nor longer than the buffer, and at most one chunk is lost, to the write that failed. */
  lemma {:induction false} PumpFrames(s: Source, budget: nat)
    ensures var p := Pump(s, budget);
            && GoodFrames(p.frames) && |p.frames| + p.budget == budget
            && |p.lost| <= BUFFER_SIZE && (p.lost != [] ==> p.budget == 0)
    decreases |s.rest| + |s.arrivals|
  {
    var chunk, next := Pending(s)[..Taken(s, BUFFER_SIZE)], AfterRead(s, BUFFER_SIZE);
    if chunk == [] || budget > 0 {
      if ReadOk(s) {
        PumpFrames(next, budget - |Frame(chunk)|);
        GoodMore(chunk, Pump(next, budget - |Frame(chunk)|).frames);
      } else {
        GoodMore(chunk, []);
      }
    }
  }

  /** Unless a write failed, the loop has stopped at the first failing read of the connection, with the buffer given
      in full, and the frames are the buffer followed by all the connection yielded. */
  lemma {:induction false} PumpComplete(s: Source, budget: nat)
    requires Pump(s, budget).lost == []
    ensures var p := Pump(s, budget);
            && p.left.rest == [] && p.left.arrivals == AfterFailure(s.arrivals)
            && Bytes(p.frames) == s.rest + Yielded(s.stream, s.arrivals, BUFFER_SIZE)
    decreases |s.rest| + |s.arrivals|
  {
    var n := Taken(s, BUFFER_SIZE);
    var chunk, next := Pending(s)[..n], AfterRead(s, BUFFER_SIZE);
    PendingAfter(s, BUFFER_SIZE);
    FrameBytes(chunk);
    YieldedAfter(s);
    if !ReadOk(s) {
    } else {
      var q := Pump(next, budget - |Frame(chunk)|);
      PumpComplete(next, budget - |Frame(chunk)|);
      BytesConcat(Frame(chunk), q.frames);
    }
  }

  /** And no write fails that as many successful ones are granted as there can be rounds. */
  lemma {:induction false} PumpEnough(s: Source, budget: nat)
    requires budget >= |s.rest| + |s.arrivals|
    ensures Pump(s, budget).lost == [] && |Pump(s, budget).frames| <= |s.rest| + |s.arrivals|
    decreases |s.rest| + |s.arrivals|
  {
    var chunk, next := Pending(s)[..Taken(s, BUFFER_SIZE)], AfterRead(s, BUFFER_SIZE);
    if !ReadOk(s) {
    } else {
      PumpEnough(next, budget - |Frame(chunk)|);
    }
  }

  /** All that will be read, split at the first read. */
  lemma YieldedAfter(s: Source)
    ensures var n, next := Taken(s, BUFFER_SIZE), AfterRead(s, BUFFER_SIZE);
            s.rest + Yielded(s.stream, s.arrivals, BUFFER_SIZE) ==
            Pending(s)[..n] + if ReadOk(s) then next.rest + Yielded(next.stream, next.arrivals, BUFFER_SIZE) else []
  {
    var n := Taken(s, BUFFER_SIZE);
    PendingAfter(s, BUFFER_SIZE);
    if s.rest != [] {
      assert s.rest == s.rest[..n] + s.rest[n..];
      Assoc(s.rest[..n], s.rest[n..], Yielded(s.stream, s.arrivals, BUFFER_SIZE));
    }
  }
}
