/** HTTP CONNECT: reading the request head, and handing the connection over to the relay behind it. */
module Connect {
  import opened Text
  import opened Relay

  const LF: byte := 10
  const CR: byte := 13

  /** Where the first line ends: the position after the first line feed, or -1. */
  function LineEnd(s: seq<byte>): (r: int)
    ensures -1 <= r <= |s|
    ensures r == -1 <==> LF !in s
    ensures r >= 0 ==> r > 0 && s[r - 1] == LF && LF !in s[..r - 1]
  {
    if s == [] then -1
    else if s[0] == LF then 1
    else
      var r := LineEnd(s[1..]);
      assert LF in s <==> LF in s[1..];
      if r == -1 then -1
      else
        assert s[..r] == [s[0]] + s[1..][..r - 1];
        r + 1
  }

  /** An empty line, ended by LF or CR LF. */
  predicate EmptyLine(line: seq<byte>) {
    line == [LF] || line == [CR, LF]
  }

  /** The length of the request head: up to and including the first empty line, or -1 while that has not come. */
  function HeadLength(s: seq<byte>): (r: int)
    ensures -1 <= r <= |s|
    decreases |s|
  {
    var e := LineEnd(s);
    if e == -1 then -1
    else if EmptyLine(s[..e]) then e
    else
      var r := HeadLength(s[e..]);
      if r == -1 then -1 else e + r
  }

  lemma {:induction false} LineEndPrefix(s: seq<byte>, more: seq<byte>)
    requires LF in s
    ensures LineEnd(s + more) == LineEnd(s)
  {
    if s[0] == LF {
    } else {
      assert (s + more)[1..] == s[1..] + more;
      LineEndPrefix(s[1..], more);
    }
  }

  lemma SplitFront(s: seq<byte>, more: seq<byte>, e: nat)
    requires e <= |s|
    ensures (s + more)[..e] == s[..e] && (s + more)[e..] == s[e..] + more
  {}

  /** A head that has come in full is not changed by what comes behind it. */
  lemma {:induction false} HeadPrefix(s: seq<byte>, more: seq<byte>)
    requires HeadLength(s) != -1
    ensures HeadLength(s + more) == HeadLength(s) > 0
    decreases |s|
  {
    var e := LineEnd(s);
    LineEndPrefix(s, more);
    assert (s + more)[..e] == s[..e];
    if EmptyLine(s[..e]) {
    } else {
      assert (s + more)[e..] == s[e..] + more;
      HeadPrefix(s[e..], more);
    }
  }

  /** Whole lines, none of them empty. */
  predicate Headless(s: seq<byte>)
    decreases |s|
  {
    s == [] || (LineEnd(s) != -1 && !EmptyLine(s[..LineEnd(s)]) && Headless(s[LineEnd(s)..]))
  }

  /** Behind such lines the head ends where it ends in what comes. */
  lemma {:induction false} HeadBehind(taken: seq<byte>, s: seq<byte>)
    requires Headless(taken)
    ensures HeadLength(taken + s) == if HeadLength(s) == -1 then -1 else |taken| + HeadLength(s)
    decreases |taken|
  {
    if taken == [] {
      assert taken + s == s;
    } else {
      var e := LineEnd(taken);
      LineEndPrefix(taken, s);
      SplitFront(taken, s, e);
      HeadBehind(taken[e..], s);
    }
  }

  lemma OneLineHeadless(line: seq<byte>)
    requires LineEnd(line) == |line| && !EmptyLine(line)
    ensures Headless(line)
  {
    assert line[..|line|] == line && line[|line|..] == [];
  }

  lemma {:induction false} HeadlessMore(taken: seq<byte>, line: seq<byte>)
    requires Headless(taken) && LineEnd(line) == |line| && !EmptyLine(line)
    ensures Headless(taken + line)
    decreases |taken|
  {
    if taken == [] {
      assert taken + line == line;
      OneLineHeadless(line);
    } else {
      var e := LineEnd(taken);
      LineEndPrefix(taken, line);
      SplitFront(taken, line, e);
      HeadlessMore(taken[e..], line);
    }
  }

  lemma LineOf(coming: seq<byte>, line: seq<byte>)
    requires |line| <= |coming| && LineEnd(coming) == |line| && line == coming[..|line|]
    ensures LineEnd(line) == |line| > 0
  {
    LineEndTake(coming);
  }

  lemma {:induction false} LineEndTake(s: seq<byte>)
    requires LF in s
    ensures LineEnd(s[..LineEnd(s)]) == LineEnd(s)
  {
    if s[0] == LF {
    } else {
      LineEndTake(s[1..]);
      assert s[..LineEnd(s)][1..] == s[1..][..LineEnd(s[1..])];
    }
  }

  lemma HeadEnds(taken: seq<byte>, line: seq<byte>, buffered: seq<byte>)
    requires Headless(taken) && LineEnd(line) == |line| && EmptyLine(line)
    ensures HeadLength(taken + line + buffered) == |taken + line|
  {
    assert line[..|line|] == line;
    HeadPrefix(line, buffered);
    HeadBehind(taken, line + buffered);
    Assoc(taken, line, buffered);
  }

  /** One more line. */
  lemma LineAdded(taken: seq<byte>, line: seq<byte>, buffered: seq<byte>)
    requires Headless(taken) && LineEnd(line) == |line|
    ensures EmptyLine(line) ==> HeadLength(taken + line + buffered) == |taken + line|
    ensures !EmptyLine(line) ==> Headless(taken + line)
  {
    if EmptyLine(line) {
      HeadEnds(taken, line, buffered);
    } else {
      HeadlessMore(taken, line);
    }
  }

  /** A line taken out of the buffer, in front of whatever is behind it. */
  lemma LineTaken(taken: seq<byte>, buffered: seq<byte>, more: seq<byte>, stream: seq<byte>)
    requires LF in buffered
    ensures var e := LineEnd(buffered);
            && LineEnd(buffered + more) == e && (buffered + more)[..e] == buffered[..e]
            && (buffered + more)[e..] == buffered[e..] + more && (buffered + stream)[e..] == buffered[e..] + stream
            && taken + buffered[..e] + buffered[e..] == taken + buffered
  {
    var e := LineEnd(buffered);
    LineEndPrefix(buffered, more);
    SplitFront(buffered, more, e);
    SplitFront(buffered, stream, e);
    assert buffered == buffered[..e] + buffered[e..];
    Assoc(taken, buffered[..e], buffered[e..]);
  }

  lemma NoLine(taken: seq<byte>, buffered: seq<byte>)
    requires LF !in buffered
    ensures LF !in buffered + [] && taken + [] == taken
  {}

  /** What a bufio.Reader does to a connection until it has the head in full or a read fails: rest is all it has read
      so far. */
  function ReadToHead(s: Source, failed: bool): Source
    decreases |s.arrivals|, !failed
  {
    if HeadLength(s.rest) != -1 || failed then s
    else
      var n := Got(s.arrivals, |s.stream|, BUFIO_SIZE);
      ReadToHead(Source(s.rest + s.stream[..n], s.stream[n..], Later(s.arrivals)), !GoesOn(s.arrivals))
  }

  /** The connection as the relay gets it: what was read beyond the head in front of what was not read. */
  function HandedOver(stream: seq<byte>, arrivals: seq<Arrival>): Source {
    var r := ReadToHead(Source([], stream, arrivals), false);
    if HeadLength(r.rest) == -1 then r else r.(rest := r.rest[HeadLength(r.rest)..])
  }

  // ---------- bufio.Reader ----------

  /** bufio.Reader on a connection: the bytes read from it and not consumed yet, and whether a read has failed. */
  class BufReader {
    const conn: Conn
    var buffered: seq<byte>
    var failed: bool
    ghost var taken: seq<byte>         // the lines given out

    constructor (conn: Conn)
      ensures this.conn == conn && buffered == [] && !failed && taken == []
      ensures Pending() == conn.stream && Coming() == Yielded(conn.stream, conn.arrivals, BUFIO_SIZE)
      ensures Goal() == ReadToHead(Source([], conn.stream, conn.arrivals), false)
    {
      this.conn, buffered, failed, taken := conn, [], false, [];
    }

    /** The bytes not consumed yet. */
    function Pending(): seq<byte>
      reads this, conn
    {
      buffered + conn.stream
    }

    /** Those of them that come before a read fails. */
    ghost function Coming(): seq<byte>
      reads this, conn
    {
      buffered + if failed then [] else Yielded(conn.stream, conn.arrivals, BUFIO_SIZE)
    }

    /** All that was read, in front of what was not. */
    ghost function Read(): Source
      reads this, conn
    {
      Source(taken + buffered, conn.stream, conn.arrivals)
    }

    /** Where reading the head ends. */
    ghost function Goal(): Source
      reads this, conn
    {
      ReadToHead(Read(), failed)
    }

    /** Whole lines of the head were given out, and reading it goes where it should. */
    ghost predicate OnCourse(goal: Source)
      reads this, conn
    {
      Headless(taken) && Goal() == goal
    }

    /** Exactly the head was given out. */
    ghost predicate PastHead(goal: Source)
      reads this, conn
    {
      Read() == goal && HeadLength(goal.rest) == |taken|
    }

    /** Reads once more from the connection. */
    method Fill(chunk: array<byte>)
      requires !failed && chunk.Length == BUFIO_SIZE && HeadLength(taken + buffered) == -1
      modifies this`buffered, this`failed, conn`stream, conn`arrivals, chunk
      ensures Pending() == old(Pending()) && Coming() == old(Coming()) && Goal() == old(Goal())
      ensures !failed ==> |conn.arrivals| < |old(conn.arrivals)|
      ensures |conn.arrivals| <= |old(conn.arrivals)|
    {
      ghost var was, stream, arrivals := buffered, conn.stream, conn.arrivals;
      var n, more := conn.Read(chunk);
      buffered := buffered + chunk[..n];
      failed := !more;
      assert stream == stream[..n] + stream[n..];
      Assoc(taken, was, stream[..n]);
      Assoc(was, stream[..n], stream[n..]);
      Assoc(was, stream[..n], if more then Yielded(stream[n..], Later(arrivals), BUFIO_SIZE) else []);
    }

    /** Takes the first line out of the buffer. */
    method TakeLine() returns (line: seq<byte>)
      requires LF in buffered
      modifies this`buffered, this`taken
      ensures LineEnd(old(Coming())) == |line| <= |old(Coming())| && |line| <= |old(Pending())|
      ensures line == old(Coming())[..|line|]
      ensures Coming() == old(Coming())[|line|..] && Pending() == old(Pending())[|line|..]
      ensures taken == old(taken) + line && Read() == old(Read())
    {
      var e := LineEnd(buffered);
      LineTaken(taken, buffered, if failed then [] else Yielded(conn.stream, conn.arrivals, BUFIO_SIZE), conn.stream);
      line := buffered[..e];
      buffered, taken := buffered[e..], taken + line;
    }

    /** Reads until a line is there or a read fails. */
    method FillToLine()
      requires Headless(taken)
      modifies this`buffered, this`failed, conn`stream, conn`arrivals
      ensures Pending() == old(Pending()) && Coming() == old(Coming()) && Goal() == old(Goal())
      ensures LF !in buffered ==> failed
    {
      var chunk := new byte[BUFIO_SIZE];
      while LF !in buffered && !failed
        invariant Pending() == old(Pending()) && Coming() == old(Coming()) && Goal() == old(Goal())
        decreases !failed, |conn.arrivals|
      {
        HeadBehind(taken, buffered);
        Fill(chunk);
      }
    }

    /** Fails if and only if no line feed comes before a read fails. */
    method ReadLine() returns (line: seq<byte>, ok: bool)
      requires Headless(taken)
      modifies this, conn`stream, conn`arrivals
      ensures ok <==> LF in old(Coming())
      ensures |line| <= |old(Coming())| && |line| <= |old(Pending())|
      ensures ok ==> LineEnd(old(Coming())) == |line| && line == old(Coming())[..|line|]
      ensures ok ==> Coming() == old(Coming())[|line|..] && Pending() == old(Pending())[|line|..]
      ensures !ok ==> line == []
      ensures taken == old(taken) + line && Goal() == old(Goal())
      ensures !ok ==> LF !in buffered && failed
    {
      FillToLine();
      if LF !in buffered {
        NoLine(taken, buffered);
        return [], false;
      }
      line := TakeLine();
      return line, true;
    }

    /** The next line of the head. */
    method NextLine(ghost goal: Source) returns (line: seq<byte>, ok: bool)
      requires OnCourse(goal)
      modifies this, conn`stream, conn`arrivals
      ensures taken == old(taken) + line
      ensures !ok ==> HeadLength(goal.rest) == -1
      ensures ok ==> LineEnd(line) == |line| && |Coming()| < |old(Coming())|
      ensures ok && !EmptyLine(line) ==> OnCourse(goal)
      ensures ok && EmptyLine(line) ==> PastHead(goal)
    {
      ghost var coming := Coming();
      line, ok := ReadLine();
      if ok {
        LineOf(coming, line);
        LineAdded(old(taken), line, buffered);
      } else {
        assert old(taken) + [] == old(taken);
        HeadBehind(taken, buffered);
      }
    }
  }

  // ---------- handleConnect ----------

  /** The request head comes in full, and does not begin with an empty line. */
  predicate Complete(s: seq<byte>) {
    HeadLength(s) != -1 && HeadLength(s) != LineEnd(s)
  }

  /** The header lines behind the request line: fails if and only if no empty line comes before a read fails. */
  method ReadHeader(br: BufReader, ghost goal: Source) returns (ok: bool)
    requires br.OnCourse(goal)
    modifies br, br.conn`stream, br.conn`arrivals
    ensures if ok then br.PastHead(goal) && |old(br.taken)| < |br.taken| else HeadLength(goal.rest) == -1
    ensures old(br.taken) <= br.taken
  {
    while true
      invariant br.OnCourse(goal) && old(br.taken) <= br.taken
      decreases |br.Coming()|
    {
      var line, more := br.NextLine(goal);
      if !more {
        return false;
      }
      if EmptyLine(line) {
        return true;
      }
    }
  }

  /** http.ReadRequest, as far as lines go: the request line must not be empty. */
  method ReadHead(br: BufReader, ghost goal: Source) returns (ok: bool)
    requires br.OnCourse(goal) && br.taken == []
    modifies br, br.conn`stream, br.conn`arrivals
    ensures ok <==> Complete(goal.rest)
    ensures ok ==> br.PastHead(goal)
  {
    var line, more := br.NextLine(goal);
    if !more {
      return false;
    }
    assert br.taken == line;
    if EmptyLine(line) {
      FirstLine(line, goal.rest);
      return false;
    }
    ok := ReadHeader(br, goal);
    if ok {
      assert line <= br.taken <= goal.rest;
      FirstLine(line, goal.rest);
    }
  }

  lemma FirstLine(line: seq<byte>, all: seq<byte>)
    requires line <= all && LineEnd(line) == |line|
    ensures LineEnd(all) == |line|
  {
    assert all == line + all[|line|..];
    LineEndPrefix(line, all[|line|..]);
  }

  /** Reading up to the head loses nothing, and finds it if and only if it comes before a read fails. */
  lemma {:induction false} HeadRead(s: Source, failed: bool)
    ensures var g := ReadToHead(s, failed);
            var all := s.rest + if failed then [] else Yielded(s.stream, s.arrivals, BUFIO_SIZE);
            Relay.Pending(g) == Relay.Pending(s) && g.rest <= all
            && (HeadLength(g.rest) == -1 ==> g.rest == all)
    decreases |s.arrivals|, !failed
  {
    if failed {
      assert s.rest + [] == s.rest;
    } else if HeadLength(s.rest) != -1 {
    } else {
      var n := Got(s.arrivals, |s.stream|, BUFIO_SIZE);
      var next := Source(s.rest + s.stream[..n], s.stream[n..], Later(s.arrivals));
      HeadRead(next, !GoesOn(s.arrivals));
      OneFill(s.rest, s.stream, n, if GoesOn(s.arrivals) then Yielded(next.stream, next.arrivals, BUFIO_SIZE) else []);
    }
  }

  lemma OneFill(rest: seq<byte>, stream: seq<byte>, n: nat, more: seq<byte>)
    requires n <= |stream|
    ensures rest + stream[..n] + stream[n..] == rest + stream && rest + stream[..n] + more == rest + (stream[..n] + more)
  {
    assert stream == stream[..n] + stream[n..];
    Assoc(rest, stream[..n], stream[n..]);
    Assoc(rest, stream[..n], more);
  }

  /** What is read up to the head has the same head as all that comes before a read fails. */
  lemma SameHead(stream: seq<byte>, arrivals: seq<Arrival>)
    ensures var g, all := ReadToHead(Source([], stream, arrivals), false), Yielded(stream, arrivals, BUFIO_SIZE);
            && (Complete(g.rest) <==> Complete(all)) && Relay.Pending(g) == stream
            && (Complete(all) ==> HeadLength(g.rest) == HeadLength(stream) > 0)
  {
    var g, all := ReadToHead(Source([], stream, arrivals), false), Yielded(stream, arrivals, BUFIO_SIZE);
    HeadRead(Source([], stream, arrivals), false);
    NothingBefore(all, stream);
    YieldedPrefix(stream, arrivals, BUFIO_SIZE);
    PrefixHead(g.rest, all, stream);
  }

  lemma NothingBefore(all: seq<byte>, stream: seq<byte>)
    ensures [] + all == all && [] + stream == stream
  {}

  lemma PrefixHead(rest: seq<byte>, all: seq<byte>, stream: seq<byte>)
    requires rest <= all <= stream && (HeadLength(rest) == -1 ==> rest == all)
    ensures Complete(rest) <==> Complete(all)
    ensures Complete(all) ==> HeadLength(rest) == HeadLength(stream) > 0
  {
    if HeadLength(rest) != -1 {
      HeadStays(rest, all);
      HeadStays(rest, stream);
    }
  }

  lemma HeadStays(s: seq<byte>, all: seq<byte>)
    requires s <= all && HeadLength(s) != -1
    ensures HeadLength(all) == HeadLength(s) > 0 && LineEnd(all) == LineEnd(s)
  {
    HeadPrefix(s, all[|s|..]);
    LineEndPrefix(s, all[|s|..]);
    assert all == s + all[|s|..];
  }

  lemma AtHeadHands(taken: seq<byte>, buffered: seq<byte>, r: Source)
    requires r.rest == taken + buffered
    ensures r.rest[|taken|..] == buffered && Relay.Pending(r)[|taken|..] == buffered + r.stream
  {
    Assoc(taken, buffered, r.stream);
  }

  /** handleConnect up to the relay: reads the request head through a bufio.Reader and hands the connection over
      with what was buffered beyond it.  It succeeds exactly if the head comes in full before a read fails; the
      tunnelled stream then starts exactly after the head, however the bytes arrived. */
  method HandOver(conn: Conn) returns (pconn: PrefixConn, ok: bool)
    modifies conn`stream, conn`arrivals
    ensures pconn.conn == conn && pconn.Valid() && fresh(pconn)
    ensures ok <==> Complete(Yielded(old(conn.stream), old(conn.arrivals), BUFIO_SIZE))
    ensures ok ==> HeadLength(old(conn.stream)) > 0
    ensures ok ==> Relay.Pending(pconn.View()) == old(conn.stream)[HeadLength(old(conn.stream))..]
    ensures ok ==> pconn.View() == HandedOver(old(conn.stream), old(conn.arrivals))
  {
    var br := new BufReader(conn);
    ghost var goal := br.Goal();
    SameHead(conn.stream, conn.arrivals);
    ok := ReadHead(br, goal);
    var buf := [];
    if ok {
      buf := br.buffered;
      AtHeadHands(br.taken, buf, goal);
    }
    pconn := new PrefixConn(conn, buf);
  }

  // ---------- The client's side ----------

  /** A line of a request head as a client writes it; either line end may be used for each. */
  datatype HeadLine = HeadLine(text: seq<byte>, crlf: bool)

  function LineFeed(crlf: bool): seq<byte> {
    if crlf then [13, 10] else [10]
  }

  predicate IsHeadLine(l: HeadLine) {
    l.text != [] && 10 !in l.text && l.text[|l.text| - 1] != 13
  }

  predicate AreHeadLines(lines: seq<HeadLine>) {
    forall k :: 0 <= k < |lines| ==> IsHeadLine(lines[k])
  }

  function PrintLines(lines: seq<HeadLine>): seq<byte> {
    if lines == [] then [] else lines[0].text + LineFeed(lines[0].crlf) + PrintLines(lines[1..])
  }

  /** One printed line: where it ends, and that it is not an empty one. */
  lemma LinePrinted(l: HeadLine)
    requires IsHeadLine(l)
    ensures var line := l.text + LineFeed(l.crlf); LineEnd(line) == |line| && !EmptyLine(line)
  {
    var line := l.text + LineFeed(l.crlf);
    assert |line| >= 2 && line[0] == l.text[0] && line[|line| - 1] == 10;
    LineOnlyEnd(line);
    if |line| == 2 {
      assert line[0] == l.text[|l.text| - 1] != 13;
    }
  }

  lemma {:induction false} LineOnlyEnd(line: seq<byte>)
    requires line != [] && line[|line| - 1] == LF && LF !in line[..|line| - 1]
    ensures LineEnd(line) == |line|
  {
    if |line| == 1 {
    } else {
      assert line[0] == line[..|line| - 1][0];
      assert line[1..][..|line| - 2] == line[..|line| - 1][1..];
      LineOnlyEnd(line[1..]);
    }
  }

  lemma {:induction false} LinesHeadless(lines: seq<HeadLine>)
    requires AreHeadLines(lines)
    ensures Headless(PrintLines(lines))
    ensures lines != [] ==> LineEnd(PrintLines(lines)) == |lines[0].text| + |LineFeed(lines[0].crlf)|
    decreases |lines|
  {
    if lines == [] {
    } else {
      var line, rest := lines[0].text + LineFeed(lines[0].crlf), PrintLines(lines[1..]);
      LinePrinted(lines[0]);
      LinesHeadless(lines[1..]);
      LineEndPrefix(line, rest);
      SplitFront(line, rest, |line|);
      assert line[..|line|] == line && line[|line|..] == [] && [] + rest == rest;
    }
  }

  lemma BlankLine(crlf: bool, body: seq<byte>)
    ensures HeadLength(LineFeed(crlf) + body) == |LineFeed(crlf)|
  {
    var s, n := LineFeed(crlf) + body, |LineFeed(crlf)|;
    assert s[..n] == LineFeed(crlf);
    if crlf {
      assert s[0] == 13 && s[1..][0] == 10;
      assert LineEnd(s[1..]) == 1;
    } else {
      assert s[0] == 10;
    }
    assert LineEnd(s) == n;
  }

  /** A request head as a client writes it: one or more lines that are not empty, each with either line end, then an
      empty line with either line end, is found to be exactly that, whatever body follows; without the empty line no
      head is found. */
  lemma HeadPrinted(lines: seq<HeadLine>, crlf: bool, body: seq<byte>)
    requires lines != [] && AreHeadLines(lines)
    ensures HeadLength(PrintLines(lines) + (LineFeed(crlf) + body)) == |PrintLines(lines)| + |LineFeed(crlf)|
    ensures Complete(PrintLines(lines) + (LineFeed(crlf) + body))
    ensures 10 !in body ==> HeadLength(PrintLines(lines) + body) == -1
  {
    LinesHeadless(lines);
    BlankLine(crlf, body);
    HeadBehind(PrintLines(lines), LineFeed(crlf) + body);
    LineEndPrefix(PrintLines(lines), LineFeed(crlf) + body);
    HeadBehind(PrintLines(lines), body);
  }

  /** A request that begins with an empty line is refused, and so is one with no line at all. */
  lemma EmptyFirstLine(crlf: bool, body: seq<byte>)
    ensures !Complete(LineFeed(crlf) + body) && !Complete([])
  {
    BlankLine(crlf, body);
    LineOnlyEnd(LineFeed(crlf));
    LineEndPrefix(LineFeed(crlf), body);
  }

  lemma WholeHead(s: seq<byte>, lines: seq<HeadLine>, crlf: bool, body: seq<byte>)
    requires lines != [] && AreHeadLines(lines) && s == PrintLines(lines) + (LineFeed(crlf) + body)
    ensures Complete(s) && HeadLength(s) == |PrintLines(lines)| + |LineFeed(crlf)|
  {
    HeadPrinted(lines, crlf, body);
  }

  lemma NoHeadYet(come: seq<byte>, stream: seq<byte>)
    requires come <= stream && |come| < HeadLength(stream)
    ensures !Complete(come)
  {
    if HeadLength(come) != -1 {
      HeadStays(come, stream);
    }
  }

  /** The part of such a request that has come. */
  lemma HeadCome(stream: seq<byte>, come: seq<byte>, lines: seq<HeadLine>, crlf: bool, body: seq<byte>)
    requires lines != [] && AreHeadLines(lines) && stream == PrintLines(lines) + (LineFeed(crlf) + body) && come <= stream
    ensures Complete(come) <==> |come| >= |PrintLines(lines)| + |LineFeed(crlf)|
  {
    var head, blank := PrintLines(lines), LineFeed(crlf);
    if |come| >= |head| + |blank| {
      PartCome(come, head, blank, body);
      WholeHead(come, lines, crlf, come[|head| + |blank|..]);
    } else {
      WholeHead(stream, lines, crlf, body);
      NoHeadYet(come, stream);
    }
  }

  lemma PartCome(come: seq<byte>, a: seq<byte>, b: seq<byte>, body: seq<byte>)
    requires come <= a + (b + body) && |come| >= |a| + |b|
    ensures come == a + (b + come[|a| + |b|..])
  {}

  lemma RequestPrinted(stream: seq<byte>, arrivals: seq<Arrival>, lines: seq<HeadLine>, crlf: bool, body: seq<byte>)
    requires lines != [] && AreHeadLines(lines) && stream == PrintLines(lines) + (LineFeed(crlf) + body)
    ensures Complete(Yielded(stream, arrivals, BUFIO_SIZE)) <==>
            |Yielded(stream, arrivals, BUFIO_SIZE)| >= |PrintLines(lines)| + |LineFeed(crlf)|
    ensures 0 < HeadLength(stream) && stream[HeadLength(stream)..] == body
  {
    YieldedPrefix(stream, arrivals, BUFIO_SIZE);
    HeadCome(stream, Yielded(stream, arrivals, BUFIO_SIZE), lines, crlf, body);
    HeadPrinted(lines, crlf, body);
    BodyBehind(PrintLines(lines), LineFeed(crlf), body);
  }

  /** The hand-over of such a request: it succeeds if and only if the head arrives before a read fails, however it is
      cut up, and then exactly the body is left for the tunnel. */
  method HandOverRequest(conn: Conn, ghost lines: seq<HeadLine>, ghost crlf: bool, ghost body: seq<byte>)
    returns (pconn: PrefixConn, ok: bool)
    requires lines != [] && AreHeadLines(lines) && conn.stream == PrintLines(lines) + (LineFeed(crlf) + body)
    modifies conn`stream, conn`arrivals
    ensures pconn.conn == conn && pconn.Valid() && fresh(pconn)
    ensures ok <==> |Yielded(old(conn.stream), old(conn.arrivals), BUFIO_SIZE)| >= |PrintLines(lines)| + |LineFeed(crlf)|
    ensures ok ==> Relay.Pending(pconn.View()) == body
  {
    RequestPrinted(conn.stream, conn.arrivals, lines, crlf, body);
    pconn, ok := HandOver(conn);
  }

  lemma BodyBehind(a: seq<byte>, b: seq<byte>, body: seq<byte>)
    ensures (a + (b + body))[|a| + |b|..] == body
  {}
}
