/**
 The IP blocker: two maps and a file that outside parties may delete, edit or damage.  Each method is one
 atomic step.  The class is proved against the history of its events.
 */
module Blocker {
  import opened Text

  type Ip = string
  type Time = int

  datatype BlockedEntry = BlockedEntry(ip: Ip, blockedAt: Time)

  /** blocked_ips.json.  Unreadable: reading fails for another reason than absence. */
  datatype Store = Missing | Unreadable | Corrupt(text: string) | Parsed(entries: seq<BlockedEntry>)

  /** The map a list of entries stands for: a later entry replaces an earlier one of the same address. */
  function MapOf(entries: seq<BlockedEntry>): map<Ip, Time> {
    if entries == [] then map[]
    else
      var last := entries[|entries| - 1];
      MapOf(entries[..|entries| - 1])[last.ip := last.blockedAt]
  }

  lemma MapOfMore(entries: seq<BlockedEntry>, e: BlockedEntry)
    ensures MapOf(entries + [e]) == MapOf(entries)[e.ip := e.blockedAt]
  {
    assert (entries + [e])[..|entries|] == entries;
  }

  /** The address is in the list, and its last entry has the time. */
  predicate LastEntry(entries: seq<BlockedEntry>, ip: Ip, at: Time) {
    exists k :: 0 <= k < |entries| && entries[k] == BlockedEntry(ip, at) && forall j :: k < j < |entries| ==> entries[j].ip != ip
  }

  /** What a list of entries stands for: each address of an entry, since the time of the last one. */
  lemma {:induction false} MapOfIff(entries: seq<BlockedEntry>, ip: Ip)
    ensures ip in MapOf(entries) <==> exists k :: 0 <= k < |entries| && entries[k].ip == ip
    ensures ip in MapOf(entries) ==> LastEntry(entries, ip, MapOf(entries)[ip])
  {
    if entries == [] {
    } else {
      var init, last := entries[..|entries| - 1], entries[|entries| - 1];
      MapOfIff(init, ip);
      if last.ip == ip {
        assert entries[|entries| - 1] == BlockedEntry(ip, MapOf(entries)[ip]);
      } else {
        if k :| 0 <= k < |entries| && entries[k].ip == ip {
          assert init[k].ip == ip;
        }
        if ip in MapOf(init) {
          var k :| 0 <= k < |init| && init[k] == BlockedEntry(ip, MapOf(init)[ip])
                   && forall j :: k < j < |init| ==> init[j].ip != ip;
          assert entries[k] == init[k] && forall j :: k < j < |entries| - 1 ==> entries[j] == init[j];
        }
      }
    }
  }

  /** Memory and file agree; a missing file means the empty set. */
  predicate Agree(blocked: map<Ip, Time>, store: Store) {
    match store
    case Missing => blocked == map[]
    case Parsed(entries) => MapOf(entries) == blocked
    case _ => false
  }

  /** What syncFromFile makes of memory. */
  function Synced(blocked: map<Ip, Time>, store: Store): map<Ip, Time> {
    match store
    case Missing => map[]
    case Parsed(entries) => MapOf(entries)
    case _ => blocked
  }

  /** Who is blocked after a look at the file: if it parses, exactly the addresses of its entries; if there is none,
      nobody; if it cannot be read or parsed, the same as before. */
  lemma SyncedIff(blocked: map<Ip, Time>, store: Store, ip: Ip)
    ensures store.Parsed? ==> (ip in Synced(blocked, store) <==>
                               exists k :: 0 <= k < |store.entries| && store.entries[k].ip == ip)
    ensures store.Parsed? && ip in Synced(blocked, store) ==>
              LastEntry(store.entries, ip, Synced(blocked, store)[ip])
    ensures store.Missing? ==> ip !in Synced(blocked, store)
    ensures store.Unreadable? || store.Corrupt? ==> Synced(blocked, store) == blocked
  {
    if store.Parsed? {
      MapOfIff(store.entries, ip);
    }
  }

  // ---------- History ----------

  datatype Event =
    | Failure(ip: Ip)
    | Reset(ip: Ip)
    | Block(ip: Ip)
    | Unblock(ip: Ip)
    | Reload                    // a new process: failures start afresh, the list is loaded from the file

  /** The failures of an address since its last reset or block, or since the process started. */
  function Failures(h: seq<Event>, ip: Ip): nat {
    if h == [] then 0
    else
      var e, before := h[|h| - 1], h[..|h| - 1];
      if e == Reload || e == Reset(ip) || e == Block(ip) then 0
      else if e == Failure(ip) then Failures(before, ip) + 1
      else Failures(before, ip)
  }

  /** The event blocks the address: an administrator's block, or a failure that is the tenth, twentieth, ... */
  predicate Blocks(h: seq<Event>, k: nat, ip: Ip)
    requires k < |h|
  {
    h[k] == Block(ip) || (h[k] == Failure(ip) && Failures(h[..k + 1], ip) % 10 == 0)
  }

  /** The event decides whether the address is blocked. */
  predicate Decides(h: seq<Event>, k: nat, ip: Ip)
    requires k < |h|
  {
    Blocks(h, k, ip) || h[k] == Unblock(ip)
  }

  /** The latest deciding event for the address is a block rather than an unblock. */
  ghost predicate LatestBlocks(h: seq<Event>, ip: Ip) {
    exists k :: 0 <= k < |h| && LastDecision(h, k, ip)
  }

  ghost predicate LastDecision(h: seq<Event>, k: nat, ip: Ip)
    requires k < |h|
  {
    Blocks(h, k, ip) && forall j :: k < j < |h| ==> !Decides(h, j, ip)
  }

  /** The same, event by event. */
  predicate BlockedBy(h: seq<Event>, ip: Ip) {
    h != [] &&
    var e, before := h[|h| - 1], h[..|h| - 1];
    BlocksNow(e, ip, Failures(h, ip)) || (BlockedBy(before, ip) && e != Unblock(ip))
  }

  /** The newest event blocks the address, which now has n failures. */
  predicate BlocksNow(e: Event, ip: Ip, n: nat) {
    e == Block(ip) || (e == Failure(ip) && n % 10 == 0)
  }

  /** An earlier event blocks or decides in the longer history as it does in the shorter one. */
  lemma SamePast(h: seq<Event>, k: nat, ip: Ip)
    requires k < |h| - 1
    ensures Blocks(h, k, ip) == Blocks(h[..|h| - 1], k, ip) && Decides(h, k, ip) == Decides(h[..|h| - 1], k, ip)
  {
    assert h[..|h| - 1][..k + 1] == h[..k + 1];
  }

  lemma SamePasts(h: seq<Event>, from: nat, ip: Ip)
    requires h != []
    ensures forall j :: from <= j < |h| - 1 ==>
              Blocks(h, j, ip) == Blocks(h[..|h| - 1], j, ip) && Decides(h, j, ip) == Decides(h[..|h| - 1], j, ip)
  {
    forall j | from <= j < |h| - 1
      ensures Blocks(h, j, ip) == Blocks(h[..|h| - 1], j, ip) && Decides(h, j, ip) == Decides(h[..|h| - 1], j, ip)
    {
      SamePast(h, j, ip);
    }
  }

  /** The latest deciding event after one more event. */
  lemma LatestNext(h: seq<Event>, ip: Ip)
    requires h != []
    ensures var n := |h| - 1;
            LatestBlocks(h, ip) <==> Blocks(h, n, ip) || (LatestBlocks(h[..n], ip) && !Decides(h, n, ip))
  {
    var n := |h| - 1;
    var before := h[..n];
    if Blocks(h, n, ip) {
      assert LastDecision(h, n, ip);
    }
    if LatestBlocks(before, ip) && !Decides(h, n, ip) {
      var k :| 0 <= k < n && LastDecision(before, k, ip);
      SamePasts(h, k, ip);
      assert LastDecision(h, k, ip);
    }
    if LatestBlocks(h, ip) && !Blocks(h, n, ip) {
      var k :| 0 <= k < |h| && LastDecision(h, k, ip);
      forall j | k < j < n
        ensures !Decides(before, j, ip)
      {
        SamePast(h, j, ip);
      }
      SamePast(h, k, ip);
      assert LastDecision(before, k, ip);
    }
  }

  /** What memory is compared with below is what the latest deciding event says. */
  lemma {:induction false} BlockedByIffLatest(h: seq<Event>, ip: Ip)
    ensures BlockedBy(h, ip) <==> LatestBlocks(h, ip)
  {
    if h == [] {
    } else {
      LatestNext(h, ip);
      assert h[..|h| - 1 + 1] == h;
      BlockedByIffLatest(h[..|h| - 1], ip);
    }
  }

  /** A count after one more event. */
  function CountAfter(n: nat, e: Event, ip: Ip): nat {
    if e == Reload || e == Reset(ip) || e == Block(ip) then 0 else if e == Failure(ip) then n + 1 else n
  }

  lemma OneMore(h: seq<Event>, e: Event, ip: Ip)
    ensures Failures(h + [e], ip) == CountAfter(Failures(h, ip), e, ip)
    ensures BlockedBy(h + [e], ip) <==> BlocksNow(e, ip, Failures(h + [e], ip)) || (BlockedBy(h, ip) && e != Unblock(ip))
  {
    assert (h + [e])[..|h|] == h;
  }

  // ---------- What memory holds, against the history ----------

  function CountOf(failures: map<Ip, int>, ip: Ip): int {
    if ip in failures then failures[ip] else 0
  }

  /** The stored count of an address is its number of failures modulo ten, absent when that is zero; so every
      stored count lies between 1 and 9. */
  predicate CountMatches(failures: map<Ip, int>, h: seq<Event>, ip: Ip) {
    CountOf(failures, ip) == Failures(h, ip) % 10 && (ip in failures ==> failures[ip] > 0)
  }

  ghost predicate CountsMatch(failures: map<Ip, int>, h: seq<Event>) {
    forall ip :: CountMatches(failures, h, ip)
  }

  /** Exactly the addresses the history blocks are held as blocked. */
  ghost predicate BlocksMatch(blocked: map<Ip, Time>, h: seq<Event>) {
    forall ip :: ip in blocked <==> BlockedBy(h, ip)
  }

  lemma CountStays(before: map<Ip, int>, after: map<Ip, int>, h: seq<Event>, e: Event, x: Ip)
    requires CountMatches(before, h, x) && CountAfter(Failures(h, x), e, x) == Failures(h, x)
    requires (x in after <==> x in before) && (x in after ==> after[x] == before[x])
    ensures CountMatches(after, h + [e], x)
  {
    OneMore(h, e, x);
  }

  lemma CountFails(failures: map<Ip, int>, h: seq<Event>, ip: Ip)
    requires CountMatches(failures, h, ip)
    ensures var n := CountOf(failures, ip) + 1;
            && 1 <= n <= 10
            && (n >= 10 <==> Failures(h + [Failure(ip)], ip) % 10 == 0)
            && CountMatches(if n >= 10 then failures - {ip} else failures[ip := n], h + [Failure(ip)], ip)
  {
    OneMore(h, Failure(ip), ip);
  }

  lemma CountsFailure(failures: map<Ip, int>, h: seq<Event>, ip: Ip)
    requires CountsMatch(failures, h)
    ensures var n := CountOf(failures, ip) + 1;
            && 1 <= n <= 10
            && (n >= 10 <==> Failures(h + [Failure(ip)], ip) % 10 == 0)
            && CountsMatch(if n >= 10 then failures - {ip} else failures[ip := n], h + [Failure(ip)])
  {
    var n := CountOf(failures, ip) + 1;
    assert CountMatches(failures, h, ip);
    CountFails(failures, h, ip);
    var f := if n >= 10 then failures - {ip} else failures[ip := n];
    forall x
      ensures CountMatches(f, h + [Failure(ip)], x)
    {
      if x != ip {
        assert CountMatches(failures, h, x);
        CountStays(failures, f, h, Failure(ip), x);
      }
    }
  }

  /** A reset or a block drops the count of its address. */
  lemma CountsDropped(failures: map<Ip, int>, h: seq<Event>, e: Event)
    requires CountsMatch(failures, h) && (e.Reset? || e.Block?)
    ensures CountsMatch(failures - {e.ip}, h + [e])
  {
    forall x
      ensures CountMatches(failures - {e.ip}, h + [e], x)
    {
      if x == e.ip {
        OneMore(h, e, x);
      } else {
        assert CountMatches(failures, h, x);
        CountStays(failures, failures - {e.ip}, h, e, x);
      }
    }
  }

  /** An unblock keeps all counts. */
  lemma CountsKept(failures: map<Ip, int>, h: seq<Event>, ip: Ip)
    requires CountsMatch(failures, h)
    ensures CountsMatch(failures, h + [Unblock(ip)])
  {
    forall x
      ensures CountMatches(failures, h + [Unblock(ip)], x)
    {
      assert CountMatches(failures, h, x);
      CountStays(failures, failures, h, Unblock(ip), x);
    }
  }

  lemma CountsReload(h: seq<Event>)
    ensures CountsMatch(map[], h + [Reload])
  {
    forall x
      ensures CountMatches(map[], h + [Reload], x)
    {
      OneMore(h, Reload, x);
    }
  }

  /** The blocked addresses after one more event at time now. */
  function BlockedAfter(blocked: map<Ip, Time>, h: seq<Event>, e: Event, now: Time): map<Ip, Time> {
    match e
    case Block(ip) => blocked[ip := now]
    case Failure(ip) => if Failures(h + [e], ip) % 10 == 0 then blocked[ip := now] else blocked
    case Unblock(ip) => blocked - {ip}
    case _ => blocked
  }

  lemma BlocksNext(blocked: map<Ip, Time>, h: seq<Event>, e: Event, now: Time)
    ensures BlocksMatch(blocked, h) ==> BlocksMatch(BlockedAfter(blocked, h, e, now), h + [e])
  {
    if BlocksMatch(blocked, h) {
      forall x
        ensures x in BlockedAfter(blocked, h, e, now) <==> BlockedBy(h + [e], x)
      {
        OneMore(h, e, x);
      }
    }
  }

  // ---------- The class ----------

  class IpBlocker {
    var blocked: map<Ip, Time>
    var failures: map<Ip, int>
    var store: Store
    ghost var history: seq<Event>

    ghost predicate CountsOk()
      reads this
    {
      CountsMatch(failures, history)
    }

    ghost predicate Refines()
      reads this
    {
      BlocksMatch(blocked, history)
    }

    ghost predicate Agrees()
      reads this
    {
      Agree(blocked, store)
    }

    /** newIPBlocker and load, in the first process: a file that cannot be parsed is left alone. */
    constructor (store: Store)
      ensures blocked == (if store.Parsed? then MapOf(store.entries) else map[])
      ensures failures == map[] && this.store == store && history == []
      ensures CountsOk()
      ensures store == Missing || store == Parsed([]) ==> Refines() && Agrees()
      ensures store.Parsed? ==> Agrees()
    {
      blocked, failures, this.store, history := map[], map[], store, [];
      new;
      Load();
    }

    /** load, at the start of a process. */
    method Load()
      requires blocked == map[]
      modifies this`blocked
      ensures blocked == if store.Parsed? then MapOf(store.entries) else map[]
    {
      if store.Parsed? {
        var entries := store.entries;
        for i := 0 to |entries|
          invariant blocked == MapOf(entries[..i])
        {
          assert entries[..i + 1][..i] == entries[..i];
          blocked := blocked[entries[i].ip := entries[i].blockedAt];
        }
        assert entries[..|entries|] == entries;
      }
    }

    /** The process ends and a new one starts on the same file. */
    method Restart()
      modifies this
      ensures store == old(store) && failures == map[]
      ensures blocked == if store.Parsed? then MapOf(store.entries) else map[]
      ensures history == old(history) + [Reload]
      ensures CountsOk()
      ensures old(Agrees()) ==> Agrees() && blocked == old(blocked)
      ensures old(Agrees() && Refines()) ==> Refines()
    {
      CountsReload(history);
      BlocksNext(blocked, history, Reload, 0);
      history := history + [Reload];
      blocked, failures := map[], map[];
      Load();
    }

    /** save: the map is walked in any order. */
    method Save()
      modifies this`store
      ensures store.Parsed? && Agrees() && |store.entries| == |blocked|
    {
      var entries: seq<BlockedEntry> := [];
      var rest := blocked.Keys;
      while rest != {}
        invariant rest <= blocked.Keys
        invariant MapOf(entries) == blocked - rest && |entries| + |rest| == |blocked|
        decreases rest
      {
        var ip :| ip in rest;
        MapOfMore(entries, BlockedEntry(ip, blocked[ip]));
        OneKeyMore(blocked, rest, ip);
        entries := entries + [BlockedEntry(ip, blocked[ip])];
        rest := rest - {ip};
      }
      store := Parsed(entries);
    }

    /** syncFromFile */
    method SyncFromFile()
      modifies this`blocked, this`store
      ensures blocked == Synced(old(blocked), old(store)) && Agrees()
      ensures old(store).Missing? || old(store).Parsed? ==> store == old(store)
      ensures old(Agrees()) ==> blocked == old(blocked) && store == old(store)
    {
      match store
      case Missing =>
        blocked := map[];
      case Unreadable =>
        Save();
      case Corrupt(_) =>
        Save();
      case Parsed(entries) =>
        var newBlocked: map<Ip, Time> := map[];
        for i := 0 to |entries|
          invariant newBlocked == MapOf(entries[..i])
        {
          assert entries[..i + 1][..i] == entries[..i];
          newBlocked := newBlocked[entries[i].ip := entries[i].blockedAt];
        }
        assert entries[..|entries|] == entries;
        blocked := newBlocked;
    }

    /** isBlocked: from any state it makes memory and file agree, then answers from memory. */
    method IsBlocked(ip: Ip) returns (b: bool)
      modifies this`blocked, this`store
      ensures blocked == Synced(old(blocked), old(store)) && Agrees()
      ensures b <==> ip in blocked
      ensures old(Agrees()) ==> blocked == old(blocked) && store == old(store)
      ensures old(Agrees() && Refines()) ==> (b <==> LatestBlocks(history, ip)) && Refines()
    {
      BlockedByIffLatest(history, ip);
      SyncFromFile();
      b := ip in blocked;
    }

    /** recordFailure: true exactly on every tenth failure. */
    method RecordFailure(ip: Ip, now: Time) returns (autoBlocked: bool)
      requires CountsOk()
      modifies this
      ensures history == old(history) + [Failure(ip)] && CountsOk()
      ensures autoBlocked <==> Failures(history, ip) % 10 == 0
      ensures blocked == if autoBlocked then old(blocked)[ip := now] else old(blocked)
      ensures autoBlocked <==> CountOf(old(failures), ip) == 9
      ensures failures == if autoBlocked then old(failures) - {ip} else old(failures)[ip := CountOf(old(failures), ip) + 1]
      ensures autoBlocked || old(Agrees()) ==> Agrees()
      ensures !autoBlocked ==> store == old(store)
      ensures old(Refines()) ==> Refines()
    {
      CountsFailure(failures, history, ip);
      BlocksNext(blocked, history, Failure(ip), now);
      history := history + [Failure(ip)];
      var n := (if ip in failures then failures[ip] else 0) + 1;
      failures := failures[ip := n];
      if n >= 10 {
        blocked := blocked[ip := now];
        failures := failures - {ip};
        assert old(failures)[ip := n] - {ip} == old(failures) - {ip};
        Save();
        return true;
      }
      return false;
    }

    /** resetFailures */
    method ResetFailures(ip: Ip)
      requires CountsOk()
      modifies this`failures, this`history
      ensures history == old(history) + [Reset(ip)] && CountsOk()
      ensures failures == old(failures) - {ip}
      ensures old(Refines()) ==> Refines()
    {
      CountsDropped(failures, history, Reset(ip));
      BlocksNext(blocked, history, Reset(ip), 0);
      history := history + [Reset(ip)];
      failures := failures - {ip};
    }

    /** block */
    method Block(ip: Ip, now: Time)
      requires CountsOk()
      modifies this
      ensures history == old(history) + [Event.Block(ip)] && CountsOk() && Agrees()
      ensures blocked == old(blocked)[ip := now] && failures == old(failures) - {ip}
      ensures old(Refines()) ==> Refines()
    {
      CountsDropped(failures, history, Event.Block(ip));
      BlocksNext(blocked, history, Event.Block(ip), now);
      history := history + [Event.Block(ip)];
      blocked := blocked[ip := now];
      failures := failures - {ip};
      Save();
    }

    /** unblock: the failure count stays as it is. */
    method Unblock(ip: Ip)
      requires CountsOk()
      modifies this
      ensures history == old(history) + [Event.Unblock(ip)] && CountsOk() && Agrees()
      ensures blocked == old(blocked) - {ip} && failures == old(failures)
      ensures old(Refines()) ==> Refines()
    {
      CountsKept(failures, history, ip);
      BlocksNext(blocked, history, Event.Unblock(ip), 0);
      history := history + [Event.Unblock(ip)];
      blocked := blocked - {ip};
      Save();
    }
  }

  // ---------- Login ----------

  datatype Answer = OK(role: string) | BadRequest | Unauthorized | Forbidden

  /** A login request: the block check comes first, and only a wrong password counts as a failure.
      password: None when the body does not decode. */
  method Login(b: IpBlocker, ip: Ip, password: Option<string>, adminPassword: string, accessPassword: string, now: Time)
    returns (a: Answer)
    requires b.CountsOk()
    modifies b
    ensures b.CountsOk()
    ensures var listed := Synced(old(b.blocked), old(b.store));
            && (a == Forbidden <==> ip in listed)
            && (a == Unauthorized <==> ip !in listed && password.Some? && password.value !in ["", adminPassword, accessPassword])
            && (a.OK? <==> ip !in listed && password.Some? && password.value != "" && password.value in [adminPassword, accessPassword])
    ensures a.OK? ==> a.role == if password.value == adminPassword then "admin" else "user"
    ensures b.history == old(b.history) + (if a == Unauthorized then [Failure(ip)] else if a.OK? then [Reset(ip)] else [])
    ensures b.Agrees()
    ensures old(b.Agrees() && b.Refines()) ==> b.Refines() && (a == Forbidden <==> LatestBlocks(old(b.history), ip))
  {
    var refused := b.IsBlocked(ip);
    if refused {
      return Forbidden;
    }
    if password == None || password.value == "" {
      return BadRequest;
    }
    if password.value == adminPassword || password.value == accessPassword {
      b.ResetFailures(ip);
      return OK(if password.value == adminPassword then "admin" else "user");
    }
    var autoBlocked := b.RecordFailure(ip, now);
    return Unauthorized;
  }

  /** The events of n logins with a wrong password, in a row, from one address, none of which is refused. */
  function WrongPasswords(ip: Ip, n: nat): seq<Event> {
    if n == 0 then [] else WrongPasswords(ip, n - 1) + [Failure(ip)]
  }

  lemma WrongNext(before: seq<Event>, ip: Ip)
    requires !BlockedBy(before, ip) && Failures(before, ip) < 10
    ensures Failures(before + [Failure(ip)], ip) == Failures(before, ip) + 1
    ensures BlockedBy(before + [Failure(ip)], ip) <==> Failures(before, ip) + 1 == 10
  {
    OneMore(before, Failure(ip), ip);
  }

  /** From an address that is neither blocked nor has failures, exactly ten logins with a wrong password in a row are
      answered as such: after fewer the address is not blocked, so the next is not refused, and after ten it is. */
  lemma TenWrong(h: seq<Event>, ip: Ip, n: nat)
    requires !BlockedBy(h, ip) && Failures(h, ip) == 0 && n <= 10
    ensures Failures(h + WrongPasswords(ip, n), ip) == n
    ensures LatestBlocks(h + WrongPasswords(ip, n), ip) <==> n == 10
  {
    WrongRun(h, ip, n);
    BlockedByIffLatest(h + WrongPasswords(ip, n), ip);
  }

  lemma {:induction false} WrongRun(h: seq<Event>, ip: Ip, n: nat)
    requires !BlockedBy(h, ip) && Failures(h, ip) == 0 && n <= 10
    ensures Failures(h + WrongPasswords(ip, n), ip) == n
    ensures BlockedBy(h + WrongPasswords(ip, n), ip) <==> n == 10
  {
    if n == 0 {
      assert h + WrongPasswords(ip, 0) == h;
    } else {
      WrongRun(h, ip, n - 1);
      WrongNext(h + WrongPasswords(ip, n - 1), ip);
      Assoc(h, WrongPasswords(ip, n - 1), [Failure(ip)]);
    }
  }

  function AtMostTen(n: nat): nat {
    if n < 10 then n else 10
  }

  lemma OneWrongMore(h: seq<Event>, ip: Ip, i: nat)
    ensures h + WrongPasswords(ip, AtMostTen(i)) + (if i < 10 then [Failure(ip)] else []) ==
            h + WrongPasswords(ip, AtMostTen(i + 1))
  {
    if i < 10 {
      Assoc(h, WrongPasswords(ip, i), [Failure(ip)]);
    } else {
      assert h + WrongPasswords(ip, 10) + [] == h + WrongPasswords(ip, 10);
    }
  }

  /** One login with a wrong password, after i others. */
  method WrongLogin(b: IpBlocker, ip: Ip, password: string, adminPassword: string, accessPassword: string, now: Time,
                    ghost before: seq<Event>, ghost i: nat)
    returns (a: Answer)
    requires b.CountsOk() && b.Agrees() && b.Refines() && b.history == before + WrongPasswords(ip, AtMostTen(i))
    requires !BlockedBy(before, ip) && Failures(before, ip) == 0
    requires password !in ["", adminPassword, accessPassword]
    modifies b
    ensures b.CountsOk() && b.Agrees() && b.Refines() && b.history == before + WrongPasswords(ip, AtMostTen(i + 1))
    ensures a == if i < 10 then Unauthorized else Forbidden
  {
    TenWrong(before, ip, AtMostTen(i));
    a := Login(b, ip, Some(password), adminPassword, accessPassword, now);
    OneWrongMore(before, ip, i);
  }

  /** Logins with wrong passwords, in a row, from an address that is neither blocked nor has failures: the first ten
      are answered as such, every later one is refused, and the address is blocked from the tenth on. */
  method WrongLogins(b: IpBlocker, ip: Ip, passwords: seq<string>, adminPassword: string, accessPassword: string,
                     now: Time)
    returns (answers: seq<Answer>)
    requires b.CountsOk() && b.Agrees() && b.Refines()
    requires !BlockedBy(b.history, ip) && Failures(b.history, ip) == 0
    requires forall k :: 0 <= k < |passwords| ==> passwords[k] !in ["", adminPassword, accessPassword]
    modifies b
    ensures |answers| == |passwords|
    ensures forall k :: 0 <= k < |answers| ==> answers[k] == if k < 10 then Unauthorized else Forbidden
    ensures b.history == old(b.history) + WrongPasswords(ip, AtMostTen(|passwords|))
    ensures ip in b.blocked <==> |passwords| >= 10
    ensures b.CountsOk() && b.Agrees() && b.Refines()
  {
    answers := [];
    ghost var before := b.history;
    assert before + WrongPasswords(ip, 0) == before;
    for i := 0 to |passwords|
      invariant b.CountsOk() && b.Agrees() && b.Refines() && b.history == before + WrongPasswords(ip, AtMostTen(i))
      invariant |answers| == i
      invariant forall k :: 0 <= k < i ==> answers[k] == if k < 10 then Unauthorized else Forbidden
    {
      var a := WrongLogin(b, ip, passwords[i], adminPassword, accessPassword, now, before, i);
      answers := answers + [a];
    }
    WrongRun(before, ip, AtMostTen(|passwords|));
  }
}
