/** Reading the client list from OpenVPN's management interface ("status 2"). */
module Status {
  import opened Text
  import opened Vpn

  // ---------- bufio.Scanner, splitting into lines ----------

  function DropCR(line: string): string {
    if HasSuffix(line, "\r") then line[..|line| - 1] else line
  }

  /** The first line of what is left, without its line end. */
  function Line(s: string): string
    requires s != ""
  {
    var i := Find(s, "\n");
    DropCR(if i < 0 then s else s[..i])
  }

  /** What is left behind it. */
  function Behind(s: string): (r: string)
    requires s != ""
    ensures |r| < |s|
  {
    var i := Find(s, "\n");
    if i < 0 then "" else s[i + 1..]
  }

  class Scanner {
    var rest: string
    var text: string

    constructor (received: string)
      ensures rest == received && text == ""
    {
      rest, text := received, "";
    }

    method Scan() returns (more: bool)
      modifies this
      ensures more == (old(rest) != "")
      ensures more ==> text == Line(old(rest)) && rest == Behind(old(rest))
      ensures !more ==> text == "" && rest == ""
    {
      if rest == "" {
        text := "";
        return false;
      }
      var i := Find(rest, "\n");
      var token := rest;
      if i >= 0 {
        token, rest := rest[..i], rest[i + 1..];
      } else {
        rest := "";
      }
      text := DropCR(token);
      more := true;
    }
  }

  // ---------- GetClients ----------

  function Counter(field: string): int {
    var r := ScanInt(field);
    if r.Some? then r.value else 0
  }

  function Time(field: string): Option<int> {
    var ts := Counter(field);
    if field != "" && ts > 0 then Some(ts) else None
  }

  /** What one line adds to the list. */
  function Entry(line: string): seq<VPNClient> {
    var parts := Split(line, ',');
    if !HasPrefix(line, "CLIENT_LIST,") || |parts| < 8 || parts[1] == "Common Name" then []
    else
      [VPNClient(parts[1], parts[2], parts[3], if |parts| > 8 then Time(parts[8]) else None,
                 Counter(parts[5]), Counter(parts[6]), "")]
  }

  /** The clients in what the server sends behind its greeting line. */
  function Clients(s: string): seq<VPNClient>
    decreases |s|
  {
    if s == "" || Line(s) == "END" then [] else Entry(Line(s)) + Clients(Behind(s))
  }

  /** Instance.GetClients on a connection over which the server sends the given text. */
  method GetClients(received: string) returns (clients: seq<VPNClient>)
    ensures clients == if received == "" then [] else Clients(Behind(received))
  {
    var scanner := new Scanner(received);
    var more := scanner.Scan();
    ghost var ahead := if received == "" then "" else Behind(received);
    ghost var all := Clients(ahead);
    clients := [];
    more := scanner.Scan();
    while more
      invariant more == (ahead != "")
      invariant more ==> scanner.text == Line(ahead) && scanner.rest == Behind(ahead)
      invariant !more ==> scanner.rest == ""
      invariant clients + Clients(ahead) == all
      decreases |ahead|
    {
      if scanner.text == "END" {
        break;
      }
      Step(clients, ahead, all);
      clients := Append(clients, scanner.text);
      ahead := Behind(ahead);
      more := scanner.Scan();
    }
    assert clients + [] == clients;
  }

  lemma Step(before: seq<VPNClient>, ahead: string, all: seq<VPNClient>)
    requires ahead != "" && Line(ahead) != "END" && before + Clients(ahead) == all
    ensures (before + Entry(Line(ahead))) + Clients(Behind(ahead)) == all
  {
    Assoc(before, Entry(Line(ahead)), Clients(Behind(ahead)));
  }

  /** The body of the loop for a line other than END. */
  method Append(given: seq<VPNClient>, line: string) returns (clients: seq<VPNClient>)
    ensures clients == given + Entry(line)
  {
    clients := given;
    if !HasPrefix(line, "CLIENT_LIST,") {
      return;
    }
    var parts := Split(line, ',');
    if |parts| < 8 || parts[1] == "Common Name" {
      return;
    }
    var c := VPNClient(parts[1], parts[2], parts[3], None, 0, 0, "");
    c := Receive(c, parts);
    clients := clients + [c];
  }

  /** The counters and the time of a client: a number that does not scan leaves its field as it is. */
  method Receive(given: VPNClient, parts: seq<string>) returns (c: VPNClient)
    requires |parts| >= 8
    requires given.bytesRecv == 0 && given.bytesSent == 0 && given.connectedAt == None
    ensures c == given.(bytesRecv := Counter(parts[5]), bytesSent := Counter(parts[6]),
                        connectedAt := if |parts| > 8 then Time(parts[8]) else None)
  {
    c := given;
    var scanned := ScanInt(parts[5]);
    if scanned.Some? {
      c := c.(bytesRecv := scanned.value);
    }
    scanned := ScanInt(parts[6]);
    if scanned.Some? {
      c := c.(bytesSent := scanned.value);
    }
    if |parts| > 8 && parts[8] != "" {
      var ts: int := 0;
      scanned := ScanInt(parts[8]);
      if scanned.Some? {
        ts := scanned.value;
      }
      if ts > 0 {
        c := c.(connectedAt := Some(ts));
      }
    }
  }

  // ---------- The server's side ----------

  /** What the server knows of a connected client.  Older servers end the line before the time. */
  datatype Row = Row(cn: string, realAddr: string, virtAddr: string, virtIPv6: string,
                     recv: nat, sent: nat, since: string, time: Option<nat>, more: seq<string>)

  /** The lines of a status report; either line end may be used for each.  Short: a client line that was cut off. */
  datatype Item = Client(row: Row, crlf: bool) | Short(fields: seq<string>, crlf: bool) | Other(text: string, crlf: bool)

  predicate Field(s: string) {
    ',' !in s && '\n' !in s && '\r' !in s
  }

  function Fields(r: Row): seq<string> {
    ["CLIENT_LIST", r.cn, r.realAddr, r.virtAddr, r.virtIPv6, Dec(r.recv), Dec(r.sent), r.since]
    + if r.time.Some? then [Dec(r.time.value)] + r.more else []
  }

  /** Comma-free and newline-free fields in client lines; other lines are of another kind, and not END. */
  predicate Printable(i: Item) {
    match i
    case Client(r, _) => forall k :: 0 <= k < |Fields(r)| ==> Field(Fields(r)[k])
    case Short(f, _) => |f| <= 6 && forall k :: 0 <= k < |f| ==> Field(f[k])
    case Other(t, _) => '\n' !in t && '\r' !in t && t != "END" && !HasPrefix(t, "CLIENT_LIST,")
  }

  function TextOf(i: Item): string {
    match i
    case Client(r, _) => Join(Fields(r), ',')
    case Short(f, _) => Join(["CLIENT_LIST"] + f, ',')
    case Other(t, _) => t
  }

  function Print(items: seq<Item>): string {
    if items == [] then ""
    else TextOf(items[0]) + (if items[0].crlf then "\r\n" else "\n") + Print(items[1..])
  }

  /** A counter the client program can hold. */
  function Held(n: nat): int {
    if n <= MAX_INT64 then n else 0
  }

  /** How a client should be listed. */
  function Shown(r: Row): VPNClient {
    VPNClient(r.cn, r.realAddr, r.virtAddr, if r.time.Some? && 0 < r.time.value <= MAX_INT64 then Some(r.time.value) else None,
              Held(r.recv), Held(r.sent), "")
  }

  /** The clients of a report, in order; one whose common name is that of the column title is taken for the title. */
  function Report(items: seq<Item>): seq<VPNClient> {
    if items == [] then []
    else
      (if items[0].Client? && items[0].row.cn != "Common Name" then [Shown(items[0].row)] else [])
      + Report(items[1..])
  }

  /** A printed number comes through the parser unchanged if and only if the program can hold it, and as a time if it
      is positive besides. */
  lemma CounterOfDec(n: nat)
    ensures Counter(Dec(n)) == n <==> n <= MAX_INT64
    ensures Time(Dec(n)) == Some(n) <==> 0 < n <= MAX_INT64
    ensures Counter(Dec(n)) == Held(n) && Time(Dec(n)) == if 0 < n <= MAX_INT64 then Some(n) else None
  {
    ScanOfDec(n);
  }

  /** A field that does not begin like a number leaves the counter at zero and the time unset. */
  lemma CounterOfText(s: string)
    requires s == "" || (!IsDigit(s[0]) && !IsScanSpace(s[0]) && s[0] !in "+-")
    ensures Counter(s) == 0 && Time(s) == None
  {
    ScanNothing(s);
  }

  lemma LineStarts(f: seq<string>)
    requires |f| > 1 && f[0] == "CLIENT_LIST"
    ensures HasPrefix(Join(f, ','), "CLIENT_LIST,") && Join(f, ',') != "END"
  {
    var line := Join(f, ',');
    assert line == "CLIENT_LIST," + Join(f[1..], ',');
    assert |line| >= 12 && line[..12] == "CLIENT_LIST,";
  }

  lemma FieldsAt(r: Row)
    ensures var f := Fields(r);
            && |f| >= 8 && f[0] == "CLIENT_LIST" && f[1] == r.cn && f[2] == r.realAddr && f[3] == r.virtAddr
            && f[5] == Dec(r.recv) && f[6] == Dec(r.sent)
            && (|f| > 8 <==> r.time.Some?) && (r.time.Some? ==> f[8] == Dec(r.time.value))
  {}

  /** A client line is read as its client. */
  lemma EntryOfRow(r: Row)
    requires forall k :: 0 <= k < |Fields(r)| ==> Field(Fields(r)[k])
    ensures Entry(Join(Fields(r), ',')) == if r.cn == "Common Name" then [] else [Shown(r)]
    ensures Join(Fields(r), ',') != "END"
  {
    FieldsAt(r);
    LineStarts(Fields(r));
    SplitJoin(Fields(r), ',');
    CounterOfDec(r.recv);
    CounterOfDec(r.sent);
    if r.time.Some? {
      CounterOfDec(r.time.value);
    }
  }

  lemma ShortFields(f: seq<string>)
    requires forall k :: 0 <= k < |f| ==> Field(f[k])
    ensures forall k :: 0 <= k < |["CLIENT_LIST"] + f| ==> Field((["CLIENT_LIST"] + f)[k])
  {
    forall k | 0 <= k < |["CLIENT_LIST"] + f|
      ensures Field((["CLIENT_LIST"] + f)[k])
    {
      assert k > 0 ==> (["CLIENT_LIST"] + f)[k] == f[k - 1];
    }
  }

  lemma FieldsJoined(parts: seq<string>)
    requires forall k :: 0 <= k < |parts| ==> Field(parts[k])
    ensures '\n' !in Join(parts, ',') && '\r' !in Join(parts, ',')
    ensures parts != [] ==> Split(Join(parts, ','), ',') == parts
  {
    JoinAvoids(parts, ',', '\n');
    JoinAvoids(parts, ',', '\r');
    if parts != [] {
      SplitJoin(parts, ',');
    }
  }

  /** A client line with fewer than eight fields is passed over. */
  lemma EntryOfShort(f: seq<string>)
    requires |f| <= 6 && forall k :: 0 <= k < |f| ==> Field(f[k])
    ensures Entry(Join(["CLIENT_LIST"] + f, ',')) == [] && Join(["CLIENT_LIST"] + f, ',') != "END"
    ensures '\n' !in Join(["CLIENT_LIST"] + f, ',') && '\r' !in Join(["CLIENT_LIST"] + f, ',')
  {
    ShortFields(f);
    FieldsJoined(["CLIENT_LIST"] + f);
    ShortNotEnd(["CLIENT_LIST"] + f);
  }

  lemma ShortNotEnd(parts: seq<string>)
    requires parts != [] && parts[0] == "CLIENT_LIST"
    ensures Join(parts, ',') != "END"
  {
    assert |Join(parts, ',')| >= 11;
  }

  lemma FindNewline(t: string, rest: string)
    requires '\n' !in t
    ensures Find(t + "\n" + rest, "\n") == |t|
  {
    var s := t + "\n" + rest;
    assert At(s, "\n", |t|);
    forall i: nat | i < |t|
      ensures !At(s, "\n", i)
    {
      NotAt(s, "\n", i, 0);
    }
  }

  lemma LineBehind(u: string, rest: string)
    requires '\n' !in u
    ensures u + "\n" + rest != "" && Line(u + "\n" + rest) == DropCR(u) && Behind(u + "\n" + rest) == rest
  {
    var s := u + "\n" + rest;
    FindNewline(u, rest);
    assert s[..|u|] == u && s[|u| + 1..] == rest;
  }

  lemma DropsCR(t: string)
    ensures DropCR(t + "\r") == t
    ensures '\r' !in t ==> DropCR(t) == t
  {
    var u := t + "\r";
    assert u[|u| - 1..] == "\r" && u[..|u| - 1] == t;
    if t != "" && HasSuffix(t, "\r") {
      assert t[|t| - 1] == t[|t| - 1..][0];
    }
  }

  /** The first line of a printed text, with either line end. */
  lemma FirstLine(t: string, crlf: bool, rest: string)
    requires '\n' !in t && '\r' !in t
    ensures var s := t + (if crlf then "\r\n" else "\n") + rest;
            s != "" && Line(s) == t && Behind(s) == rest
  {
    DropsCR(t);
    if crlf {
      Assoc(t, "\r", "\n");
      assert "\r" + "\n" == "\r\n";
      LineBehind(t + "\r", rest);
    } else {
      LineBehind(t, rest);
    }
  }

  lemma TextAvoids(i: Item)
    requires Printable(i)
    ensures '\n' !in TextOf(i) && '\r' !in TextOf(i)
    ensures TextOf(i) != "END"
    ensures Entry(TextOf(i)) == if i.Client? && i.row.cn != "Common Name" then [Shown(i.row)] else []
  {
    if i.Client? {
      JoinAvoids(Fields(i.row), ',', '\n');
      JoinAvoids(Fields(i.row), ',', '\r');
      EntryOfRow(i.row);
    } else if i.Short? {
      EntryOfShort(i.fields);
    }
  }

  /** Reading one printed line. */
  lemma ReadsOne(i: Item, rest: string)
    requires Printable(i)
    ensures Clients(TextOf(i) + (if i.crlf then "\r\n" else "\n") + rest) ==
            (if i.Client? && i.row.cn != "Common Name" then [Shown(i.row)] else []) + Clients(rest)
  {
    TextAvoids(i);
    FirstLine(TextOf(i), i.crlf, rest);
  }

  /** Reading undoes printing, whatever follows. */
  lemma {:induction false} ReadsPrinted(items: seq<Item>, tail: string)
    requires forall k :: 0 <= k < |items| ==> Printable(items[k])
    ensures Clients(Print(items) + tail) == Report(items) + Clients(tail)
  {
    if items == [] {
      assert "" + tail == tail;
      assert [] + Clients(tail) == Clients(tail);
    } else {
      var i := items[0];
      ReadsPrinted(items[1..], tail);
      ReadsOne(i, Print(items[1..]) + tail);
      Assoc(TextOf(i) + (if i.crlf then "\r\n" else "\n"), Print(items[1..]), tail);
      Assoc(if i.Client? && i.row.cn != "Common Name" then [Shown(i.row)] else [], Report(items[1..]), Clients(tail));
    }
  }

  lemma EndStops(crlf: bool, tail: string)
    ensures Clients("END" + (if crlf then "\r\n" else "\n") + tail) == []
  {
    FirstLine("END", crlf, tail);
  }

  /** The parser inverts the format: from a greeting line, a report and END, whatever comes behind END, GetClients'
      loop makes exactly the clients of the report, in order. */
  lemma StatusRoundTrip(greeting: string, crlf: bool, items: seq<Item>, endCRLF: bool, tail: string)
    requires '\n' !in greeting && '\r' !in greeting
    requires forall k :: 0 <= k < |items| ==> Printable(items[k])
    ensures var report := Print(items) + ("END" + (if endCRLF then "\r\n" else "\n") + tail);
            var received := greeting + (if crlf then "\r\n" else "\n") + report;
            received != "" && Clients(Behind(received)) == Report(items)
  {
    var end := "END" + (if endCRLF then "\r\n" else "\n") + tail;
    FirstLine(greeting, crlf, Print(items) + end);
    ReadsPrinted(items, end);
    EndStops(endCRLF, tail);
    assert Report(items) + [] == Report(items);
  }
}
