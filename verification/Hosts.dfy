/** Hostnames and the dnsmasq hosts file. */
module Hosts {
  import opened Text
  import opened Vpn

  // ---------- sanitizeHostname ----------

  predicate IsLabelChar(c: char) {
    'a' <= c <= 'z' || IsDigit(c) || c == '-'
  }

  predicate LabelChars(s: string) {
    forall k :: 0 <= k < |s| ==> IsLabelChar(s[k])
  }

  /** A DNS label: section 2.3.1 of RFC 1035 as relaxed by section 2.1 of RFC 1123. */
  predicate ValidLabel(s: string) {
    1 <= |s| <= 63 && LabelChars(s) && s[0] != '-' && s[|s| - 1] != '-'
  }

  /** The rune mapping: what one rune becomes, "" when it is dropped. */
  function MapRune(c: char): string {
    if IsLabelChar(c) then [c]
    else if 'A' <= c <= 'Z' then [(c as int + 32) as char]
    else if c == ' ' || c == '\t' || c == '_' then "-"
    else ""
  }

  function MapRunes(s: string): (r: string)
    ensures LabelChars(r)
  {
    if s == "" then "" else MapRune(s[0]) + MapRunes(s[1..])
  }

  function TrimLeft(s: string): (r: string)
    ensures |r| <= |s| && r == s[|s| - |r|..]
    ensures r == "" || r[0] != '-'
  {
    if s != "" && s[0] == '-' then TrimLeft(s[1..]) else s
  }

  function TrimRight(s: string): (r: string)
    ensures r <= s
    ensures r == "" || r[|r| - 1] != '-'
    ensures forall k :: |r| <= k < |s| ==> s[k] == '-'
  {
    if s != "" && s[|s| - 1] == '-' then TrimRight(s[..|s| - 1]) else s
  }

  /** The name with its runes mapped and the hyphens at both ends removed. */
  function Trimmed(name: string): string {
    TrimRight(TrimLeft(MapRunes(name)))
  }

  function Truncated(t: string): string {
    var cut := if |t| > 63 then t[..63] else t;
    if cut == "" then "host" else cut
  }

  function Sanitize(name: string): string {
    Truncated(Trimmed(name))
  }

  lemma {:induction false} MapRunesKeeps(s: string)
    requires LabelChars(s)
    ensures MapRunes(s) == s
  {
    if s == "" {
    } else {
      MapRunesKeeps(s[1..]);
    }
  }

  lemma LabelCharsPart(s: string, i: nat, j: nat)
    requires LabelChars(s) && i <= j <= |s|
    ensures LabelChars(s[i..j])
  {}

  lemma TrimLeftLabel(m: string)
    requires LabelChars(m)
    ensures LabelChars(TrimLeft(m))
  {
    var l := TrimLeft(m);
    LabelCharsPart(m, |m| - |l|, |m|);
    assert m[|m| - |l|..|m|] == m[|m| - |l|..];
  }

  lemma TrimRightLabel(l: string)
    requires LabelChars(l)
    ensures LabelChars(TrimRight(l))
    ensures l != "" && l[0] != '-' && TrimRight(l) != "" ==> TrimRight(l)[0] != '-'
  {
    var t := TrimRight(l);
    LabelCharsPart(l, 0, |t|);
    assert l[0..|t|] == l[..|t|] == t;
  }

  lemma TrimmedShape(name: string)
    ensures LabelChars(Trimmed(name))
    ensures Trimmed(name) != "" ==> Trimmed(name)[0] != '-' && Trimmed(name)[|Trimmed(name)| - 1] != '-'
  {
    var l := TrimLeft(MapRunes(name));
    TrimLeftLabel(MapRunes(name));
    TrimRightLabel(l);
  }

  /** The truncation. */
  lemma TruncatedShape(t: string)
    requires LabelChars(t) && (t != "" ==> t[0] != '-' && t[|t| - 1] != '-')
    ensures LabelChars(Truncated(t)) && 1 <= |Truncated(t)| <= 63 && Truncated(t)[0] != '-'
    ensures ValidLabel(Truncated(t)) <==> |t| <= 63 || t[62] != '-'
  {
    if |t| > 63 {
      LabelCharsPart(t, 0, 63);
      assert t[0..63] == t[..63];
    }
  }

  /** Exactly when one pass is enough: the truncation does not cut right after a hyphen. */
  lemma SanitizeOnce(name: string)
    ensures ValidLabel(Sanitize(name)) <==> |Trimmed(name)| <= 63 || Trimmed(name)[62] != '-'
  {
    TrimmedShape(name);
    TruncatedShape(Trimmed(name));
  }

  lemma TrimKeeps(s: string)
    requires s != "" && s[0] != '-'
    ensures TrimLeft(s) == s
    ensures s[|s| - 1] != '-' ==> TrimRight(s) == s
  {}

  lemma LabelsFixed(s: string)
    requires ValidLabel(s)
    ensures Sanitize(s) == s
  {
    MapRunesKeeps(s);
    TrimKeeps(s);
    assert Truncated(s) == s;
  }

  /** What a pass does to a name that starts right and is short enough: it removes hyphens at the end. */
  lemma SecondPass(once: string)
    requires LabelChars(once) && 1 <= |once| <= 63 && once[0] != '-'
    ensures Sanitize(once) == TrimRight(once) && ValidLabel(Sanitize(once))
  {
    MapRunesKeeps(once);
    TrimKeeps(once);
    assert once[0] != '-';
    assert TrimRight(once) <= once;
  }

  lemma FirstPass(name: string)
    ensures var once := Sanitize(name); LabelChars(once) && 1 <= |once| <= 63 && once[0] != '-'
  {
    TrimmedShape(name);
    TruncatedShape(Trimmed(name));
  }

  /** Two passes always give a valid label, and a third changes nothing. */
  lemma SanitizeTwice(name: string)
    ensures ValidLabel(Sanitize(Sanitize(name)))
    ensures Sanitize(Sanitize(Sanitize(name))) == Sanitize(Sanitize(name))
  {
    FirstPass(name);
    SecondPass(Sanitize(name));
    LabelsFixed(Sanitize(Sanitize(name)));
  }

  /** One pass is idempotent on exactly the names it turns into valid labels. */
  lemma IdempotentIff(name: string)
    ensures Sanitize(Sanitize(name)) == Sanitize(name) <==> ValidLabel(Sanitize(name))
  {
    SanitizeTwice(name);
    if ValidLabel(Sanitize(name)) {
      LabelsFixed(Sanitize(name));
    }
  }

  /** A name whose truncation cuts right after a hyphen: sixty-two letters, a hyphen and a letter. */
  lemma CutAfterHyphen()
    ensures var name := seq(62, _ => 'a') + "-b";
            !ValidLabel(Sanitize(name)) && Sanitize(Sanitize(name)) != Sanitize(name)
  {
    var name := seq(62, _ => 'a') + "-b";
    MapRunesKeeps(name);
    TrimKeeps(name);
    assert Trimmed(name) == name && name[62] == '-';
    SanitizeOnce(name);
    IdempotentIff(name);
  }

  /** What becomes of each character, by explicit alphabets: lower-case letters, digits and hyphens stay, upper-case
      letters become lower-case, blanks and underscores become hyphens, anything else is dropped. */
  lemma MapRuneTable(c: char, k: nat)
    requires k < 26
    ensures c in LOWER || c in DIGITS || c == '-' ==> MapRune(c) == [c]
    ensures MapRune(UPPER[k]) == [LOWER[k]]
    ensures c in " \t_" ==> MapRune(c) == "-"
    ensures c !in LOWER && c !in UPPER && c !in DIGITS && c !in " \t_-" ==> MapRune(c) == ""
  {
    LowerIff(c);
    UpperIff(c);
    DigitIff(c);
    CaseAt(k);
  }

  lemma CaseAt(k: nat)
    requires k < 26
    ensures 'A' <= UPPER[k] <= 'Z' && LOWER[k] as int == UPPER[k] as int + 32
  {}

  lemma {:induction false} MapRunesConcat(a: string, b: string)
    ensures MapRunes(a + b) == MapRunes(a) + MapRunes(b)
  {
    if a == "" {
      assert a + b == b;
    } else {
      assert (a + b)[0] == a[0] && (a + b)[1..] == a[1..] + b;
      MapRunesConcat(a[1..], b);
      Assoc(MapRune(a[0]), MapRunes(a[1..]), MapRunes(b));
    }
  }

  /** Without the hyphens at its two ends m goes from i to j. */
  predicate Between(m: string, i: nat, j: nat) {
    && i <= j <= |m|
    && (forall k :: 0 <= k < |m| && (k < i || j <= k) ==> m[k] == '-')
    && (i < j ==> m[i] != '-' && m[j - 1] != '-')
  }

  lemma {:induction false} TrimLeftIs(s: string) returns (i: nat)
    ensures i <= |s| && TrimLeft(s) == s[i..]
    ensures (forall k :: 0 <= k < i ==> s[k] == '-') && (i < |s| ==> s[i] != '-')
  {
    if s == "" || s[0] != '-' {
      i := 0;
    } else {
      var n := TrimLeftIs(s[1..]);
      i := n + 1;
      forall k | 0 <= k < i
        ensures s[k] == '-'
      {
        assert k > 0 ==> s[k] == s[1..][k - 1];
      }
    }
  }

  lemma {:induction false} TrimRightIs(s: string) returns (n: nat)
    ensures n <= |s| && TrimRight(s) == s[..n]
    ensures (forall k :: n <= k < |s| ==> s[k] == '-') && (n > 0 ==> s[n - 1] != '-')
  {
    if s == "" || s[|s| - 1] != '-' {
      n := |s|;
    } else {
      n := TrimRightIs(s[..|s| - 1]);
      assert s[..|s| - 1][..n] == s[..n];
    }
  }

  /** What trimming leaves, by where it stands. */
  lemma TrimIs(m: string) returns (i: nat, j: nat)
    ensures Between(m, i, j) && TrimRight(TrimLeft(m)) == m[i..j]
  {
    i := TrimLeftIs(m);
    j := TailIs(m, TrimLeft(m), i);
  }

  lemma TailIs(m: string, l: string, i: nat) returns (j: nat)
    requires i <= |m| && l == m[i..] && (forall k :: 0 <= k < i ==> m[k] == '-') && (i < |m| ==> m[i] != '-')
    ensures Between(m, i, j) && TrimRight(l) == m[i..j]
  {
    var n := TrimRightIs(l);
    j := i + n;
    PartIs(m, i, n);
  }

  lemma PartIs(m: string, i: nat, n: nat)
    requires i + n <= |m|
    requires (forall k :: 0 <= k < i ==> m[k] == '-') && (i < |m| ==> m[i] != '-')
    requires (forall k :: n <= k < |m[i..]| ==> m[i..][k] == '-') && (n > 0 ==> m[i..][n - 1] != '-')
    ensures Between(m, i, i + n) && m[i..][..n] == m[i..i + n]
  {
    forall k | i + n <= k < |m|
      ensures m[k] == '-'
    {
      assert m[k] == m[i..][k - i];
    }
  }

  lemma TruncatedIs(t: string)
    ensures Truncated(t) == if t == "" then "host" else if |t| <= 63 then t else t[..63]
  {}

  /** What sanitizing does to the mapped name: the hyphens at both ends go, the first 63 characters of the rest stay, and
      where nothing is left the name is host. */
  lemma SanitizeIs(name: string) returns (i: nat, j: nat)
    ensures Between(MapRunes(name), i, j)
    ensures var t := MapRunes(name)[i..j];
            Sanitize(name) == if t == "" then "host" else if |t| <= 63 then t else t[..63]
  {
    i, j := TrimIs(MapRunes(name));
    TruncatedIs(MapRunes(name)[i..j]);
  }

  /** What may be stored as a hostname: the pass made when the file is written turns it into a valid label. */
  predicate Storable(hostname: string) {
    ValidLabel(Sanitize(hostname))
  }

  // ---------- writeDNSHosts ----------

  /** A client gets a line when it has a hostname and a virtual address. */
  predicate HasLine(hostnames: map<Cn, string>, c: VPNClient) {
    c.commonName in hostnames && c.virtualIP != ""
  }

  function HostsLine(ip: string, name: string): string {
    ip + " " + name + ".vpn.local " + name
  }

  /** What a client contributes to the file. */
  function LineOf(hostnames: map<Cn, string>, c: VPNClient): string {
    if HasLine(hostnames, c) then HostsLine(c.virtualIP, Sanitize(hostnames[c.commonName])) + "\n" else ""
  }

  function HostsText(hostnames: map<Cn, string>, clients: seq<VPNClient>): string {
    if clients == [] then "" else LineOf(hostnames, clients[0]) + HostsText(hostnames, clients[1..])
  }

  lemma LinesFrom(hostnames: map<Cn, string>, clients: seq<VPNClient>, i: nat, before: string)
    requires i < |clients|
    ensures (before + LineOf(hostnames, clients[i])) + HostsText(hostnames, clients[i + 1..]) ==
            before + HostsText(hostnames, clients[i..])
  {
    DropDrop(clients, i, 1);
    Assoc(before, LineOf(hostnames, clients[i]), HostsText(hostnames, clients[i + 1..]));
  }

  /** One round of the loop. */
  method WriteLine(hostnames: map<Cn, string>, c: VPNClient, before: string) returns (text: string)
    ensures text == before + LineOf(hostnames, c)
  {
    text := before;
    if c.commonName in hostnames && c.virtualIP != "" {
      var safe := Sanitize(hostnames[c.commonName]);
      text := text + (c.virtualIP + " " + safe + ".vpn.local " + safe + "\n");
    }
  }

  /** writeDNSHosts, up to the write itself. */
  method WriteDNSHosts(hostnames: map<Cn, string>, clients: seq<VPNClient>) returns (text: string)
    ensures text == HostsText(hostnames, clients)
  {
    text := "";
    for i := 0 to |clients|
      invariant text + HostsText(hostnames, clients[i..]) == HostsText(hostnames, clients)
    {
      LinesFrom(hostnames, clients, i, text);
      text := WriteLine(hostnames, clients[i], text);
    }
  }

  /** A hosts file entry: an address and its names. */
  datatype HostsEntry = HostsEntry(ip: string, names: seq<string>)

  /** The entries the file is meant to hold. */
  function Wanted(hostnames: map<Cn, string>, clients: seq<VPNClient>): seq<HostsEntry> {
    if clients == [] then []
    else
      var c := clients[0];
      (if HasLine(hostnames, c)
       then [HostsEntry(c.virtualIP, [Sanitize(hostnames[c.commonName]) + ".vpn.local", Sanitize(hostnames[c.commonName])])]
       else []) + Wanted(hostnames, clients[1..])
  }

  function Untab(s: string): string {
    seq(|s|, i requires 0 <= i < |s| => if s[i] == '\t' then ' ' else s[i])
  }

  /** The words of a line, separated by spaces and tabs. */
  function Words(line: string): seq<string> {
    NonEmpty(Split(Untab(line), ' '))
  }

  function NonEmpty(parts: seq<string>): seq<string> {
    if parts == [] then [] else (if parts[0] == "" then [] else [parts[0]]) + NonEmpty(parts[1..])
  }

  /** How a hosts file is read: a line of words each, the first being the address. */
  function ParseLines(lines: seq<string>): seq<HostsEntry> {
    if lines == [] then []
    else
      var words := Words(lines[0]);
      (if words == [] then [] else [HostsEntry(words[0], words[1..])]) + ParseLines(lines[1..])
  }

  function ParseHosts(text: string): seq<HostsEntry> {
    ParseLines(Split(text, '\n'))
  }

  predicate BlankFree(s: string) {
    ' ' !in s && '\t' !in s && '\n' !in s
  }

  lemma LineWords(ip: string, name: string)
    requires ip != "" && BlankFree(ip) && name != "" && BlankFree(name)
    ensures Words(HostsLine(ip, name)) == [ip, name + ".vpn.local", name]
    ensures '\n' !in HostsLine(ip, name)
  {
    var parts := [ip, name + ".vpn.local", name];
    assert parts[1..] == [name + ".vpn.local", name] && parts[1..][1..] == [name];
    calc {
      Join(parts, ' ');
      ip + [' '] + Join(parts[1..], ' ');
      ip + [' '] + (name + ".vpn.local" + [' '] + name);
      HostsLine(ip, name);
    }
    assert Untab(HostsLine(ip, name)) == HostsLine(ip, name);
    SplitJoin(parts, ' ');
    NonEmptyKeeps(parts);
  }

  lemma {:induction false} NonEmptyKeeps(parts: seq<string>)
    requires "" !in parts
    ensures NonEmpty(parts) == parts
  {
    if parts == [] {
    } else {
      NonEmptyKeeps(parts[1..]);
    }
  }

  lemma LabelBlankFree(name: string)
    requires ValidLabel(name)
    ensures BlankFree(name)
  {
    assert !IsLabelChar(' ') && !IsLabelChar('\t') && !IsLabelChar('\n');
  }

  /** The hosts file reads back as exactly the entries it was written for, in order, and each name in it is a
      valid label. */
  lemma {:induction false} HostsRoundTrip(hostnames: map<Cn, string>, clients: seq<VPNClient>)
    requires forall cn :: cn in hostnames ==> Storable(hostnames[cn])
    requires forall c :: c in clients ==> BlankFree(c.virtualIP)
    ensures ParseHosts(HostsText(hostnames, clients)) == Wanted(hostnames, clients)
    ensures forall e :: e in Wanted(hostnames, clients) ==>
              |e.names| == 2 && ValidLabel(e.names[1]) && e.names[0] == e.names[1] + ".vpn.local"
  {
    if clients == [] {
      assert Split("", '\n') == [""];
      assert [""][1..] == [];
      assert Untab("") == "" && Split("", ' ') == [""] && NonEmpty([""]) == [];
    } else {
      var c, rest := clients[0], clients[1..];
      HostsRoundTrip(hostnames, rest);
      if HasLine(hostnames, c) {
        var name := Sanitize(hostnames[c.commonName]);
        LabelBlankFree(name);
        LineWords(c.virtualIP, name);
        var line, tail := HostsLine(c.virtualIP, name), HostsText(hostnames, rest);
        assert HostsText(hostnames, clients) == (line + "\n") + tail == line + ['\n'] + tail;
        SplitPrefix(line, tail, '\n');
        assert ([line] + Split(tail, '\n'))[1..] == Split(tail, '\n');
      } else {
        assert HostsText(hostnames, clients) == HostsText(hostnames, rest);
      }
    }
  }

  /** The hostnames as they are written. */
  function Safe(hostnames: map<Cn, string>): map<Cn, string> {
    map cn | cn in hostnames :: Sanitize(hostnames[cn])
  }

  /** The client has a hostname and an address. */
  predicate Resolvable(safe: map<Cn, string>, c: VPNClient) {
    c.virtualIP != "" && c.commonName in safe
  }

  /** The entry a client should have. */
  function EntryFor(safe: map<Cn, string>, c: VPNClient): HostsEntry
    requires c.commonName in safe
  {
    HostsEntry(c.virtualIP, [safe[c.commonName] + ".vpn.local", safe[c.commonName]])
  }

  predicate Ascending(ks: seq<nat>) {
    forall i, j :: 0 <= i < j < |ks| ==> ks[i] < ks[j]
  }

  /** The entry is that of client number k. */
  predicate EntryAt(safe: map<Cn, string>, clients: seq<VPNClient>, e: HostsEntry, k: nat) {
    k < |clients| && Resolvable(safe, clients[k]) && e == EntryFor(safe, clients[k])
  }

  ghost predicate Covered(safe: map<Cn, string>, clients: seq<VPNClient>, ks: seq<nat>) {
    forall k :: 0 <= k < |clients| && Resolvable(safe, clients[k]) ==> k in ks
  }

  /** The i-th entry is that of client number ks[i]; every client with a hostname and an address has one. */
  ghost predicate EntriesOf(safe: map<Cn, string>, clients: seq<VPNClient>, entries: seq<HostsEntry>, ks: seq<nat>) {
    && |ks| == |entries| && Ascending(ks) && Covered(safe, clients, ks)
    && forall i :: 0 <= i < |ks| ==> EntryAt(safe, clients, entries[i], ks[i])
  }

  function Shift(ks: seq<nat>): seq<nat> {
    seq(|ks|, i requires 0 <= i < |ks| => ks[i] + 1)
  }

  lemma ShiftKeeps(ks: seq<nat>)
    ensures |Shift(ks)| == |ks| && forall i :: 0 <= i < |ks| ==> Shift(ks)[i] == ks[i] + 1
    ensures forall k: nat :: k in ks ==> k + 1 in Shift(ks)
  {
    forall k: nat | k in ks
      ensures k + 1 in Shift(ks)
    {
      var i :| 0 <= i < |ks| && ks[i] == k;
      assert Shift(ks)[i] == k + 1;
    }
  }

  lemma EntryBehind(safe: map<Cn, string>, clients: seq<VPNClient>, e: HostsEntry, k: nat)
    requires clients != []
    ensures EntryAt(safe, clients, e, k + 1) <==> EntryAt(safe, clients[1..], e, k)
  {}

  lemma CoveredBehind(safe: map<Cn, string>, clients: seq<VPNClient>, ks: seq<nat>, more: seq<nat>)
    requires clients != [] && Covered(safe, clients[1..], ks)
    requires (forall k: nat :: k in ks ==> k + 1 in more) && (Resolvable(safe, clients[0]) ==> 0 in more)
    ensures Covered(safe, clients, more)
  {
    forall k | 0 <= k < |clients| && Resolvable(safe, clients[k])
      ensures k in more
    {
      if k > 0 {
        assert clients[1..][k - 1] == clients[k];
      }
    }
  }

  /** The entries of all but the first client. */
  lemma EntriesBehind(safe: map<Cn, string>, clients: seq<VPNClient>, entries: seq<HostsEntry>, ks: seq<nat>)
    requires clients != [] && EntriesOf(safe, clients[1..], entries, ks)
    requires !Resolvable(safe, clients[0])
    ensures EntriesOf(safe, clients, entries, Shift(ks))
  {
    ShiftKeeps(ks);
    CoveredBehind(safe, clients, ks, Shift(ks));
    forall i | 0 <= i < |ks|
      ensures EntryAt(safe, clients, entries[i], Shift(ks)[i])
    {
      EntryBehind(safe, clients, entries[i], ks[i]);
    }
  }

  lemma AscendingFromZero(ks: seq<nat>)
    requires Ascending(ks)
    ensures Ascending([0] + Shift(ks))
  {
    ShiftKeeps(ks);
    forall i, j | 0 <= i < j < |[0] + Shift(ks)|
      ensures ([0] + Shift(ks))[i] < ([0] + Shift(ks))[j]
    {
      assert ([0] + Shift(ks))[j] == ks[j - 1] + 1;
      assert i > 0 ==> ([0] + Shift(ks))[i] == ks[i - 1] + 1;
    }
  }

  lemma EntriesWith(safe: map<Cn, string>, clients: seq<VPNClient>, entries: seq<HostsEntry>, ks: seq<nat>)
    requires clients != [] && EntriesOf(safe, clients[1..], entries, ks)
    requires Resolvable(safe, clients[0])
    ensures EntriesOf(safe, clients, [EntryFor(safe, clients[0])] + entries, [0] + Shift(ks))
  {
    var e := EntryFor(safe, clients[0]);
    ShiftKeeps(ks);
    AscendingFromZero(ks);
    assert ([0] + Shift(ks))[0] == 0;
    CoveredBehind(safe, clients, ks, [0] + Shift(ks));
    forall i | 0 <= i < |[0] + Shift(ks)|
      ensures EntryAt(safe, clients, ([e] + entries)[i], ([0] + Shift(ks))[i])
    {
      EntryWith(safe, clients, entries, ks, i);
    }
  }

  lemma EntryWith(safe: map<Cn, string>, clients: seq<VPNClient>, entries: seq<HostsEntry>, ks: seq<nat>, i: nat)
    requires clients != [] && Resolvable(safe, clients[0]) && |ks| == |entries| && i <= |ks|
    requires i > 0 ==> EntryAt(safe, clients[1..], entries[i - 1], ks[i - 1])
    ensures EntryAt(safe, clients, ([EntryFor(safe, clients[0])] + entries)[i], ([0] + Shift(ks))[i])
  {
    if i > 0 {
      EntryBehind(safe, clients, entries[i - 1], ks[i - 1]);
    }
  }

  /** The entry of one client. */
  lemma OneWanted(hostnames: map<Cn, string>, clients: seq<VPNClient>)
    requires clients != []
    ensures var c, safe := clients[0], Safe(hostnames);
            Wanted(hostnames, clients) ==
            (if Resolvable(safe, c) then [EntryFor(safe, c)] else []) + Wanted(hostnames, clients[1..])
  {}

  lemma {:induction false} WantedEntries(hostnames: map<Cn, string>, clients: seq<VPNClient>) returns (ks: seq<nat>)
    ensures EntriesOf(Safe(hostnames), clients, Wanted(hostnames, clients), ks)
  {
    if clients == [] {
      ks := [];
    } else {
      var safe, rest := Safe(hostnames), Wanted(hostnames, clients[1..]);
      ks := WantedEntries(hostnames, clients[1..]);
      OneWanted(hostnames, clients);
      ks := MoreEntries(safe, clients, rest, ks);
    }
  }

  lemma MoreEntries(safe: map<Cn, string>, clients: seq<VPNClient>, entries: seq<HostsEntry>, ks: seq<nat>)
    returns (more: seq<nat>)
    requires clients != [] && EntriesOf(safe, clients[1..], entries, ks)
    ensures var first := if Resolvable(safe, clients[0]) then [EntryFor(safe, clients[0])] else [];
            EntriesOf(safe, clients, first + entries, more)
  {
    if Resolvable(safe, clients[0]) {
      EntriesWith(safe, clients, entries, ks);
      more := [0] + Shift(ks);
    } else {
      EntriesBehind(safe, clients, entries, ks);
      assert [] + entries == entries;
      more := Shift(ks);
    }
  }

  lemma ResolvesIff(safe: map<Cn, string>, clients: seq<VPNClient>, entries: seq<HostsEntry>, ks: seq<nat>,
                    ip: string, name: string)
    requires EntriesOf(safe, clients, entries, ks)
    ensures HostsEntry(ip, [name + ".vpn.local", name]) in entries <==>
            ip != "" && exists k :: 0 <= k < |clients| && clients[k].virtualIP == ip && clients[k].commonName in safe
                                    && safe[clients[k].commonName] == name
  {
    var e := HostsEntry(ip, [name + ".vpn.local", name]);
    if e in entries {
      var i :| 0 <= i < |entries| && entries[i] == e;
      assert EntryAt(safe, clients, entries[i], ks[i]);
      assert EntryFor(safe, clients[ks[i]]).names[1] == e.names[1] == name;
    }
    if ip != "" {
      if k :| 0 <= k < |clients| && clients[k].virtualIP == ip && clients[k].commonName in safe
              && safe[clients[k].commonName] == name {
        assert Resolvable(safe, clients[k]);
        var i :| 0 <= i < |ks| && ks[i] == k;
        assert EntryAt(safe, clients, entries[i], ks[i]) && entries[i] == e;
      }
    }
  }

  lemma IndicesOf(safe: map<Cn, string>, clients: seq<VPNClient>, entries: seq<HostsEntry>, ks: seq<nat>)
    requires EntriesOf(safe, clients, entries, ks)
    ensures forall k: nat :: k in ks <==> k < |clients| && Resolvable(safe, clients[k])
  {
    forall k: nat | k in ks
      ensures k < |clients| && Resolvable(safe, clients[k])
    {
      var i :| 0 <= i < |ks| && ks[i] == k;
      assert EntryAt(safe, clients, entries[i], ks[i]);
    }
  }

  /** The hosts file, read back: its entries are those of the clients that have a hostname and an address, one each and
      in their order; so an address resolves to a name if and only if a listed client has that address and a stored
      hostname that sanitizes to the name. */
  lemma HostsExact(hostnames: map<Cn, string>, clients: seq<VPNClient>) returns (ks: seq<nat>)
    requires forall cn :: cn in hostnames ==> Storable(hostnames[cn])
    requires forall c :: c in clients ==> BlankFree(c.virtualIP)
    ensures var entries := ParseHosts(HostsText(hostnames, clients));
            var safe := map cn | cn in hostnames :: Sanitize(hostnames[cn]);
            && |ks| == |entries| && (forall i, j :: 0 <= i < j < |ks| ==> ks[i] < ks[j])
            && (forall k: nat :: k in ks <==>
                  k < |clients| && clients[k].virtualIP != "" && clients[k].commonName in hostnames)
            && (forall i :: 0 <= i < |ks| ==>
                  ks[i] < |clients| && clients[ks[i]].commonName in safe &&
                  var c := clients[ks[i]];
                  entries[i] == HostsEntry(c.virtualIP, [safe[c.commonName] + ".vpn.local", safe[c.commonName]]))
            && (forall ip, name ::
                  HostsEntry(ip, [name + ".vpn.local", name]) in entries <==>
                  ip != "" && exists k :: 0 <= k < |clients| && clients[k].virtualIP == ip
                                          && clients[k].commonName in safe && safe[clients[k].commonName] == name)
  {
    HostsRoundTrip(hostnames, clients);
    ks := WantedEntries(hostnames, clients);
    var safe, entries := Safe(hostnames), Wanted(hostnames, clients);
    IndicesOf(safe, clients, entries, ks);
    AllResolve(safe, clients, entries, ks);
  }

  lemma AllResolve(safe: map<Cn, string>, clients: seq<VPNClient>, entries: seq<HostsEntry>, ks: seq<nat>)
    requires EntriesOf(safe, clients, entries, ks)
    ensures forall i :: 0 <= i < |ks| ==>
              ks[i] < |clients| && clients[ks[i]].commonName in safe &&
              var c := clients[ks[i]];
              entries[i] == HostsEntry(c.virtualIP, [safe[c.commonName] + ".vpn.local", safe[c.commonName]])
    ensures forall ip, name ::
              HostsEntry(ip, [name + ".vpn.local", name]) in entries <==>
              ip != "" && exists k :: 0 <= k < |clients| && clients[k].virtualIP == ip
                                      && clients[k].commonName in safe && safe[clients[k].commonName] == name
  {
    forall i | 0 <= i < |ks|
      ensures EntryAt(safe, clients, entries[i], ks[i])
    {}
    forall ip, name
      ensures HostsEntry(ip, [name + ".vpn.local", name]) in entries <==>
              ip != "" && exists k :: 0 <= k < |clients| && clients[k].virtualIP == ip
                                      && clients[k].commonName in safe && safe[clients[k].commonName] == name
    {
      ResolvesIff(safe, clients, entries, ks, ip, name);
    }
  }

  // ---------- Names given to new clients ----------

  const ADJECTIVES := ["amber", "bold", "calm", "dark", "eager", "fast", "glad", "hazy", "icy", "jade", "keen", "lazy",
                       "mild", "neat", "odd", "pale", "quick", "rare", "swift", "tame", "warm", "zany"]
  const NOUNS := ["bear", "crane", "deer", "eagle", "finch", "goat", "hawk", "ibis", "jay", "kite", "lynx", "mink",
                  "newt", "orca", "puma", "quail", "raven", "seal", "teal", "vole", "wolf", "yak"]

  /** Short words of lower-case letters, as in both lists. */
  predicate ShortWord(s: string) {
    1 <= |s| <= 5 && forall k :: 0 <= k < |s| ==> 'a' <= s[k] <= 'z'
  }

  /** The first four characters of a UUID. */
  predicate HexTag(s: string) {
    |s| == 4 && forall k :: 0 <= k < |s| ==> IsDigit(s[k]) || 'a' <= s[k] <= 'f'
  }

  lemma AdjectivesShort()
    ensures forall w :: w in ADJECTIVES ==> ShortWord(w)
  {}

  lemma NounsShort()
    ensures forall w :: w in NOUNS ==> ShortWord(w)
  {
    assert forall k :: 0 <= k < 11 ==> ShortWord(NOUNS[k]);
    assert forall k :: 11 <= k < 22 ==> ShortWord(NOUNS[k]);
  }

  lemma WordsShort()
    ensures forall w :: w in ADJECTIVES ==> ShortWord(w)
    ensures forall w :: w in NOUNS ==> ShortWord(w)
  {
    AdjectivesShort();
    NounsShort();
  }

  lemma FriendlyStorable(a: string, n: string, tag: string)
    requires ShortWord(a) && ShortWord(n) && (tag == "" || (HexTag(tag[1..]) && tag[0] == '-'))
    ensures ValidLabel(a + "-" + n + tag) && Storable(a + "-" + n + tag)
  {
    LabelsFixed(a + "-" + n + tag);
  }

  const ADJECTIVE_LETTERS := "abcdefghijklmnopqrstwz"
  const NOUN_LETTERS := "bcdefghijklmnopqrstvwy"

  /** The words of each list begin with letters that rise. */
  lemma FirstLetters(i: nat)
    requires i < 22
    ensures |ADJECTIVES| == |NOUNS| == |ADJECTIVE_LETTERS| == |NOUN_LETTERS| == 22
    ensures ADJECTIVES[i][..1] == [ADJECTIVE_LETTERS[i]] && NOUNS[i][..1] == [NOUN_LETTERS[i]]
  {}

  lemma LettersRise(i: nat)
    requires i < 21
    ensures ADJECTIVE_LETTERS[i] < ADJECTIVE_LETTERS[i + 1] && NOUN_LETTERS[i] < NOUN_LETTERS[i + 1]
  {}

  lemma {:induction false} LettersRising(i: nat, j: nat)
    requires i < j < 22
    ensures ADJECTIVE_LETTERS[i] < ADJECTIVE_LETTERS[j] && NOUN_LETTERS[i] < NOUN_LETTERS[j]
    decreases j
  {
    LettersRise(j - 1);
    if i == j - 1 {
    } else {
      LettersRising(i, j - 1);
    }
  }

  lemma SameLetter(i: nat, k: nat)
    requires i < 22 && k < 22
    requires ADJECTIVE_LETTERS[i] == ADJECTIVE_LETTERS[k] || NOUN_LETTERS[i] == NOUN_LETTERS[k]
    ensures i == k
  {
    if i < k {
      LettersRising(i, k);
    } else if k < i {
      LettersRising(k, i);
    }
  }

  /** A word from either list can be told by its first letter. */
  lemma SameWord(i: nat, k: nat, adjective: bool)
    requires i < 22 && k < 22
    requires var words := if adjective then ADJECTIVES else NOUNS; |words| == 22 && words[i][..1] == words[k][..1]
    ensures i == k
  {
    FirstLetters(i);
    FirstLetters(k);
    SameLetter(i, k);
  }

  lemma PairSplits(a: string, n: string, b: string, m: string)
    requires a != "" && b != "" && a + "-" + n == b + "-" + m
    ensures a[..1] == b[..1] && (|a| == |b| ==> n == m)
  {
    var s, t := a + "-" + n, b + "-" + m;
    assert s[0] == a[0] && t[0] == b[0];
    assert s[|a| + 1..] == n && t[|b| + 1..] == m;
  }

  /** The 484 pairs of words give 484 different names. */
  lemma NamesDiffer(i: nat, j: nat, k: nat, l: nat)
    requires i < 22 && j < 22 && k < 22 && l < 22
    ensures |ADJECTIVES| == |NOUNS| == 22
    ensures ADJECTIVES[i] + "-" + NOUNS[j] == ADJECTIVES[k] + "-" + NOUNS[l] ==> i == k && j == l
  {
    FirstLetters(i);
    FirstLetters(k);
    if ADJECTIVES[i] + "-" + NOUNS[j] == ADJECTIVES[k] + "-" + NOUNS[l] {
      PairSplits(ADJECTIVES[i], NOUNS[j], ADJECTIVES[k], NOUNS[l]);
      SameWord(i, k, true);
      SameWord(j, l, false);
    }
  }
}
