/**
 The instance registry as values: the manager's records, Docker's containers and what instances.json holds,
 and the effect of every operation on the three.  The class in Management.dfy is proved against these functions.
 */
module Registry {
  import opened Text
  import opened Vpn
  import opened Hosts

  type Id = string
  type ContainerID = nat
  const NO_CONTAINER: ContainerID := 0       // the empty container id

  datatype Status = Running | Stopped

  /** The part of an instance that instances.json keeps. */
  datatype Record = Record(
    id: Id, name: string, subnet: string, createdAt: int,
    containerID: ContainerID, status: Status,
    hostnames: map<Cn, string>, clientTimeouts: map<Cn, int>, maxClients: int, locked: bool)

  type View = map<Id, Record>

  /** saved: the records in instances.json (a missing file holds none). */
  datatype Reg = Reg(view: View, containers: set<ContainerID>, saved: View)

  /** How startContainer goes: which of its Docker calls fails, or the new container. */
  datatype StartOutcome = CreateFails | ConnectFails | StartFails | Started(container: ContainerID)

  datatype Op =
    | Create(id: Id, name: string, now: int, prepared: bool, outcome: StartOutcome)   // prepared: certificates and files
    | Start(id: Id, outcome: StartOutcome)
    | Stop(id: Id)
    | Delete(id: Id)
    | SetLocked(id: Id, locked: bool)
    | SetMaxClients(id: Id, max: int)
    | SetClientTimeout(id: Id, cn: Cn, seconds: int)
    | SetHostname(id: Id, cn: Cn, hostname: string)
    | NameClient(id: Id, cn: Cn, adjective: string, noun: string, tag: string)
    | Restart(clean: bool, up: map<Id, ContainerID>)    // clean: Shutdown ran first; up: the starts that succeed

  // ---------- Subnets ----------

  function SubnetName(i: nat): string {
    "10." + Dec(i) + ".0.0"
  }

  function UsedSubnets(v: View): set<string> {
    set id | id in v :: v[id].subnet
  }

  /** The first unused subnet from i on, or the fallback. */
  function FirstFree(used: set<string>, i: nat): string
    requires 8 <= i <= 255
    decreases 255 - i
  {
    if i == 255 then "10.8.0.0" else if SubnetName(i) !in used then SubnetName(i) else FirstFree(used, i + 1)
  }

  function AllocateSubnet(v: View): string {
    FirstFree(UsedSubnets(v), 8)
  }

  // ---------- Operations ----------

  function Fresh(id: Id, name: string, subnet: string, now: int, c: ContainerID): Record {
    Record(id, name, subnet, now, c, Running, map[], map[], 0, false)
  }

  function Released(cs: set<ContainerID>, c: ContainerID): set<ContainerID> {
    cs - {c}
  }

  /** A record after a restart: a new container, or stopped without one. */
  function Revived(r: Record, up: map<Id, ContainerID>): Record {
    if r.id in up then r.(containerID := up[r.id], status := Running)
    else r.(containerID := NO_CONTAINER, status := Stopped)
  }

  function RestartView(saved: View, up: map<Id, ContainerID>): View {
    map id | id in saved :: Revived(saved[id], up)
  }

  function ContainersOf(v: View): set<ContainerID> {
    (set id | id in v :: v[id].containerID) - {NO_CONTAINER}
  }

  /** Changes one record and saves. */
  function Update(r: Reg, rec: Record, containers: set<ContainerID>): Reg {
    var v := r.view[rec.id := rec];
    Reg(v, containers, v)
  }

  function SetTimeout(timeouts: map<Cn, int>, cn: Cn, seconds: int): map<Cn, int> {
    if seconds <= 0 then timeouts - {cn} else timeouts[cn := seconds]
  }

  function DoCreate(r: Reg, id: Id, name: string, now: int, prepared: bool, outcome: StartOutcome): Reg {
    if prepared && outcome.Started?
    then Update(r, Fresh(id, name, AllocateSubnet(r.view), now, outcome.container), r.containers + {outcome.container})
    else r
  }

  function DoStart(r: Reg, id: Id, outcome: StartOutcome): Reg {
    if id !in r.view || r.view[id].status == Running || !outcome.Started? then r
    else Update(r, r.view[id].(containerID := outcome.container, status := Running), r.containers + {outcome.container})
  }

  function DoStop(r: Reg, id: Id): Reg {
    if id !in r.view then r
    else Update(r, r.view[id].(containerID := NO_CONTAINER, status := Stopped), Released(r.containers, r.view[id].containerID))
  }

  function DoDelete(r: Reg, id: Id): Reg {
    if id !in r.view then r
    else Reg(r.view - {id}, Released(r.containers, r.view[id].containerID), r.view - {id})
  }

  function DoRestart(r: Reg, clean: bool, up: map<Id, ContainerID>): Reg {
    var v := RestartView(r.saved, up);
    var left := if clean then r.containers - ContainersOf(r.view) else r.containers;
    Reg(v, left - ContainersOf(r.saved) + ContainersOf(v), v)
  }

  function DoSetLocked(r: Reg, id: Id, locked: bool): Reg {
    if id !in r.view then r else Update(r, r.view[id].(locked := locked), r.containers)
  }

  function DoSetMaxClients(r: Reg, id: Id, max: int): Reg {
    if id !in r.view then r else Update(r, r.view[id].(maxClients := if max <= 0 then 0 else max), r.containers)
  }

  function DoSetClientTimeout(r: Reg, id: Id, cn: Cn, seconds: int): Reg {
    if id !in r.view then r
    else Update(r, r.view[id].(clientTimeouts := SetTimeout(r.view[id].clientTimeouts, cn, seconds)), r.containers)
  }

  function DoSetHostname(r: Reg, id: Id, cn: Cn, hostname: string): Reg {
    if id !in r.view then r
    else Update(r, r.view[id].(hostnames := r.view[id].hostnames[cn := Sanitize(hostname)]), r.containers)
  }

  function DoNameClient(r: Reg, id: Id, cn: Cn, name: string): Reg {
    if id !in r.view || cn in r.view[id].hostnames then r
    else Update(r, r.view[id].(hostnames := r.view[id].hostnames[cn := name]), r.containers)
  }

  function Do(r: Reg, op: Op): Reg {
    match op
    case Create(id, name, now, prepared, outcome) => DoCreate(r, id, name, now, prepared, outcome)
    case Start(id, outcome) => DoStart(r, id, outcome)
    case Stop(id) => DoStop(r, id)
    case Delete(id) => DoDelete(r, id)
    case SetLocked(id, locked) => DoSetLocked(r, id, locked)
    case SetMaxClients(id, max) => DoSetMaxClients(r, id, max)
    case SetClientTimeout(id, cn, seconds) => DoSetClientTimeout(r, id, cn, seconds)
    case SetHostname(id, cn, hostname) => DoSetHostname(r, id, cn, hostname)
    case NameClient(id, cn, a, n, tag) => DoNameClient(r, id, cn, a + "-" + n + tag)
    case Restart(clean, up) => DoRestart(r, clean, up)
  }

  predicate NameFree(hostnames: map<Cn, string>, name: string) {
    forall x :: x in hostnames ==> hostnames[x] != name
  }

  /** A drawn name: two words of the lists and perhaps the start of a UUID. */
  predicate Drawn(a: string, n: string, tag: string) {
    a in ADJECTIVES && n in NOUNS && (tag == "" || (tag[0] == '-' && HexTag(tag[1..])))
  }

  /** What the environment guarantees: UUIDs and container ids are new, names come from the word lists, and one
      without the UUID part is used by no other client of the instance. */
  predicate EnvOk(r: Reg, op: Op) {
    match op
    case Create(id, _, _, _, outcome) => id !in r.view && NewContainer(r, outcome)
    case Start(_, outcome) => NewContainer(r, outcome)
    case NameClient(id, cn, a, n, tag) =>
      Drawn(a, n, tag) &&
      (tag == "" && id in r.view && cn !in r.view[id].hostnames ==> NameFree(r.view[id].hostnames, a + "-" + n + tag))
    case Restart(_, up) =>
      && (forall id :: id in up ==> up[id] != NO_CONTAINER && up[id] !in r.containers)
      && (forall a, b :: a in up && b in up && a != b ==> up[a] != up[b])
    case _ => true
  }

  predicate NewContainer(r: Reg, outcome: StartOutcome) {
    outcome.Started? ==> outcome.container != NO_CONTAINER && outcome.container !in r.containers
  }

  /** Giving a client its first hostname. */
  lemma NameStep(r: Reg, id: Id, cn: Cn, a: string, n: string, tag: string)
    requires id in r.view && r.view[id].id == id && cn !in r.view[id].hostnames
    requires Drawn(a, n, tag) && (tag == "" ==> NameFree(r.view[id].hostnames, a + "-" + n + tag))
    ensures EnvOk(r, NameClient(id, cn, a, n, tag))
    ensures var v := r.view[id := r.view[id].(hostnames := r.view[id].hostnames[cn := a + "-" + n + tag])];
            Do(r, NameClient(id, cn, a, n, tag)) == Reg(v, r.containers, v)
  {}

  // ---------- Invariants ----------

  /** Status and container id agree, no two instances share a container, and Docker holds exactly theirs. */
  predicate Conserved(v: View, containers: set<ContainerID>) {
    && (forall id :: id in v ==> (v[id].status == Running <==> v[id].containerID != NO_CONTAINER))
    && (forall a, b :: a in v && b in v && a != b && v[a].containerID == v[b].containerID
                       ==> v[a].containerID == NO_CONTAINER)
    && containers == ContainersOf(v)
  }

  /** What every record satisfies by itself. */
  predicate RecordOk(rec: Record) {
    && (forall cn :: cn in rec.clientTimeouts ==> rec.clientTimeouts[cn] > 0)
    && (forall cn :: cn in rec.hostnames ==> Storable(rec.hostnames[cn]))
    && rec.maxClients >= 0
  }

  predicate RecordsOk(v: View) {
    forall id :: id in v ==> v[id].id == id && RecordOk(v[id])
  }

  predicate Inv(r: Reg) {
    Conserved(r.view, r.containers) && RecordsOk(r.view) && r.saved == r.view
  }

  // Conservation, one shape of change at a time.

  lemma ConservedReplace(v: View, containers: set<ContainerID>, rec: Record, c: ContainerID)
    requires Conserved(v, containers)
    requires rec.status == Running <==> rec.containerID != NO_CONTAINER
    requires rec.id in v ==> v[rec.id].containerID == NO_CONTAINER
    requires rec.containerID == c && c != NO_CONTAINER && c !in containers
    ensures Conserved(v[rec.id := rec], containers + {c})
  {
    var v' := v[rec.id := rec];
    forall x | x in containers + {c}
      ensures x in ContainersOf(v')
    {
      if x in containers {
        var id :| id in v && v[id].containerID == x;
        assert v'[id].containerID == x;
      } else {
        assert v'[rec.id].containerID == x;
      }
    }
  }

  lemma ConservedSame(v: View, containers: set<ContainerID>, rec: Record)
    requires Conserved(v, containers) && rec.id in v
    requires rec.containerID == v[rec.id].containerID && rec.status == v[rec.id].status
    ensures Conserved(v[rec.id := rec], containers)
  {
    var v' := v[rec.id := rec];
    forall x | x in containers
      ensures x in ContainersOf(v')
    {
      var id :| id in v && v[id].containerID == x;
      assert v'[id].containerID == x;
    }
  }

  lemma ConservedRelease(v: View, containers: set<ContainerID>, id: Id, v': View)
    requires Conserved(v, containers) && id in v
    requires v'.Keys == v.Keys || v'.Keys == v.Keys - {id}
    requires forall i :: i in v' && i != id ==> v'[i] == v[i]
    requires id in v' ==> v'[id].containerID == NO_CONTAINER && v'[id].status == Stopped
    ensures Conserved(v', Released(containers, v[id].containerID))
  {
    forall x | x in Released(containers, v[id].containerID)
      ensures x in ContainersOf(v')
    {
      var i :| i in v && v[i].containerID == x;
      assert v'[i].containerID == x;
    }
  }

  lemma ConservedRestart(r: Reg, clean: bool, up: map<Id, ContainerID>)
    requires Inv(r) && EnvOk(r, Restart(clean, up))
    ensures Conserved(Do(r, Restart(clean, up)).view, Do(r, Restart(clean, up)).containers)
  {}

  lemma FriendlyRecord(rec: Record, cn: Cn, a: string, n: string, tag: string)
    requires RecordOk(rec) && Drawn(a, n, tag)
    ensures RecordOk(rec.(hostnames := rec.hostnames[cn := a + "-" + n + tag]))
  {
    WordsShort();
    FriendlyStorable(a, n, tag);
    HostnameStored(rec, cn, a + "-" + n + tag);
  }

  lemma HostnameStored(rec: Record, cn: Cn, name: string)
    requires RecordOk(rec) && Storable(name)
    ensures RecordOk(rec.(hostnames := rec.hostnames[cn := name]))
  {}

  lemma ConservedStep(r: Reg, op: Op)
    requires Inv(r) && EnvOk(r, op) && !op.Restart?
    ensures Conserved(Do(r, op).view, Do(r, op).containers)
  {
    var v' := Do(r, op).view;
    if Do(r, op) != r {
      match op
      case Create(id, _, _, _, outcome) => ConservedReplace(r.view, r.containers, v'[id], outcome.container);
      case Start(id, outcome) => ConservedReplace(r.view, r.containers, v'[id], outcome.container);
      case Stop(id) => ConservedRelease(r.view, r.containers, id, v');
      case Delete(id) => ConservedRelease(r.view, r.containers, id, v');
      case Restart(_, _) =>
      case _ => ConservedSame(r.view, r.containers, v'[op.id]);
    }
  }

  /** Only one record changes in an operation other than a restart. */
  lemma OneRecord(r: Reg, op: Op, id: Id)
    requires RecordsOk(r.view) && !op.Restart? && id in Do(r, op).view && id != op.id
    ensures id in r.view && Do(r, op).view[id] == r.view[id]
  {}

  /** The record an operation is about. */
  lemma OwnRecord(r: Reg, op: Op)
    requires Inv(r) && EnvOk(r, op) && !op.Restart? && op.id in Do(r, op).view
    ensures Do(r, op).view[op.id].id == op.id && RecordOk(Do(r, op).view[op.id])
  {
    if op.id in r.view {
      assert RecordOk(r.view[op.id]);
      match op
      case SetHostname(id, cn, hostname) =>
        SanitizeTwice(hostname);
        HostnameStored(r.view[id], cn, Sanitize(hostname));
      case NameClient(id, cn, a, n, tag) => FriendlyRecord(r.view[id], cn, a, n, tag);
      case _ =>
    }
  }

  lemma RestartRecord(r: Reg, clean: bool, up: map<Id, ContainerID>, id: Id)
    requires Inv(r) && id in DoRestart(r, clean, up).view
    ensures DoRestart(r, clean, up).view[id].id == id && RecordOk(DoRestart(r, clean, up).view[id])
  {
    assert RecordOk(r.view[id]);
  }

  lemma RecordStep(r: Reg, op: Op, id: Id)
    requires Inv(r) && EnvOk(r, op) && id in Do(r, op).view
    ensures Do(r, op).view[id].id == id && RecordOk(Do(r, op).view[id])
  {
    if op.Restart? {
      RestartRecord(r, op.clean, op.up, id);
    } else if id != op.id {
      OneRecord(r, op, id);
    } else {
      OwnRecord(r, op);
    }
  }

  /** Every operation, whatever Docker does, keeps the invariant. */
  lemma InvStep(r: Reg, op: Op)
    requires Inv(r) && EnvOk(r, op)
    ensures Inv(Do(r, op))
  {
    if op.Restart? {
      ConservedRestart(r, op.clean, op.up);
    } else {
      ConservedStep(r, op);
    }
    forall id | id in Do(r, op).view
      ensures Do(r, op).view[id].id == id && RecordOk(Do(r, op).view[id])
    {
      RecordStep(r, op, id);
    }
  }

  // ---------- Runs ----------

  predicate Init(r: Reg) {
    r.view == map[] && r.containers == {} && r.saved == map[]
  }

  /** The environment keeps its promises all along the run. */
  predicate RunOk(r: Reg, ops: seq<Op>)
    decreases |ops|
  {
    ops == [] || (EnvOk(r, ops[0]) && RunOk(Do(r, ops[0]), ops[1..]))
  }

  function RunOps(r: Reg, ops: seq<Op>): Reg
    decreases |ops|
  {
    if ops == [] then r else RunOps(Do(r, ops[0]), ops[1..])
  }

  lemma {:induction false} RunAppend(r: Reg, ops: seq<Op>, op: Op)
    ensures RunOps(r, ops + [op]) == Do(RunOps(r, ops), op)
    ensures RunOk(r, ops) && EnvOk(RunOps(r, ops), op) ==> RunOk(r, ops + [op])
    decreases |ops|
  {
    if ops == [] {
      assert ops + [op] == [op] && [op][1..] == [];
    } else {
      assert (ops + [op])[1..] == ops[1..] + [op];
      RunAppend(Do(r, ops[0]), ops[1..], op);
    }
  }

  /** Container conservation over whole runs: in every state between operations an instance is running exactly
      when it has a container, no two share one, Docker holds exactly theirs, the file agrees with memory, and
      every stored limit and hostname is usable. */
  lemma {:induction false} InvRun(r: Reg, ops: seq<Op>)
    requires Inv(r) && RunOk(r, ops)
    ensures Inv(RunOps(r, ops))
    decreases |ops|
  {
    if ops == [] {
    } else {
      InvStep(r, ops[0]);
      InvRun(Do(r, ops[0]), ops[1..]);
    }
  }

  /** After any run a restart keeps every instance with its identity, names, limits and lock; only status and
      container change, and they change together, whichever starts fail. */
  lemma RestartKeeps(r0: Reg, ops: seq<Op>, clean: bool, up: map<Id, ContainerID>)
    requires Inv(r0) && RunOk(r0, ops) && EnvOk(RunOps(r0, ops), Restart(clean, up))
    ensures var r := RunOps(r0, ops);
            var v := Do(r, Restart(clean, up)).view;
            && v.Keys == r.view.Keys
            && forall id :: id in v ==>
                 v[id] == r.view[id].(containerID := v[id].containerID, status := v[id].status) &&
                 (v[id].status == Running <==> id in up) && (id in up ==> v[id].containerID == up[id])
  {
    InvRun(r0, ops);
  }

  /** In every reachable state the hosts file of an instance, for whatever clients are listed, reads back as its
      entries, and every name in it is a valid label: saving sanitizes once and writing once more. */
  lemma HostsAlwaysValid(r0: Reg, ops: seq<Op>, id: Id, clients: seq<VPNClient>)
    requires Init(r0) && RunOk(r0, ops) && id in RunOps(r0, ops).view
    requires forall c :: c in clients ==> BlankFree(c.virtualIP)
    ensures var hostnames := RunOps(r0, ops).view[id].hostnames;
            && ParseHosts(HostsText(hostnames, clients)) == Wanted(hostnames, clients)
            && forall e :: e in Wanted(hostnames, clients) ==>
                 |e.names| == 2 && ValidLabel(e.names[1]) && e.names[0] == e.names[1] + ".vpn.local"
  {
    InvRun(r0, ops);
    HostsRoundTrip(RunOps(r0, ops).view[id].hostnames, clients);
  }

  // ---------- What an operation changes, and what stays ----------

  /** The operation is about the instance. */
  predicate About(op: Op, id: Id) {
    !op.Restart? && op.id == id
  }

  /** The record is the one before, field by field, but for what the operation is there for. */
  predicate FieldsFit(a: Record, b: Record, op: Op, id: Id) {
    && b.id == a.id && b.name == a.name && b.subnet == a.subnet && b.createdAt == a.createdAt
    && b.locked == (if About(op, id) && op.SetLocked? then op.locked else a.locked)
    && b.maxClients ==
       (if About(op, id) && op.SetMaxClients? then if op.max > 0 then op.max else 0 else a.maxClients)
    && b.status ==
       if About(op, id) && op.Stop? then Stopped
       else if About(op, id) && op.Start? && op.outcome.Started? then Running
       else if op.Restart? then if id in op.up then Running else Stopped
       else a.status
  }

  /** And so are the entries of a client. */
  predicate EntriesFit(a: Record, b: Record, op: Op, id: Id, cn: Cn) {
    && (if About(op, id) && op.SetClientTimeout? && op.cn == cn
        then (cn in b.clientTimeouts <==> op.seconds > 0) && (cn in b.clientTimeouts ==> b.clientTimeouts[cn] == op.seconds)
        else (cn in b.clientTimeouts <==> cn in a.clientTimeouts)
             && (cn in b.clientTimeouts ==> b.clientTimeouts[cn] == a.clientTimeouts[cn]))
    && if About(op, id) && op.SetHostname? && op.cn == cn
       then cn in b.hostnames && b.hostnames[cn] == Sanitize(op.hostname)
       else if About(op, id) && op.NameClient? && op.cn == cn && cn !in a.hostnames
       then cn in b.hostnames && b.hostnames[cn] == op.adjective + "-" + op.noun + op.tag
       else (cn in b.hostnames <==> cn in a.hostnames) && (cn in b.hostnames ==> b.hostnames[cn] == a.hostnames[cn])
  }

  lemma OwnFields(r: Reg, op: Op)
    requires RecordsOk(r.view) && !op.Restart? && !op.Delete? && !op.Create? && op.id in r.view
    ensures op.id in Do(r, op).view && FieldsFit(r.view[op.id], Do(r, op).view[op.id], op, op.id)
  {
    assert r.view[op.id].id == op.id;
  }

  /** Both maps of a record are the same. */
  predicate SameEntries(a: Record, b: Record) {
    a.hostnames == b.hostnames && a.clientTimeouts == b.clientTimeouts
  }

  lemma QuietOps(r: Reg, id: Id, outcome: StartOutcome, locked: bool, max: int)
    requires id in r.view && r.view[id].id == id
    ensures id in DoStart(r, id, outcome).view && SameEntries(r.view[id], DoStart(r, id, outcome).view[id])
    ensures id in DoStop(r, id).view && SameEntries(r.view[id], DoStop(r, id).view[id])
    ensures id in DoSetLocked(r, id, locked).view && SameEntries(r.view[id], DoSetLocked(r, id, locked).view[id])
    ensures id in DoSetMaxClients(r, id, max).view && SameEntries(r.view[id], DoSetMaxClients(r, id, max).view[id])
  {}

  lemma QuietEntries(r: Reg, op: Op)
    requires RecordsOk(r.view) && (op.Start? || op.Stop? || op.SetLocked? || op.SetMaxClients?) && op.id in r.view
    ensures op.id in Do(r, op).view && SameEntries(r.view[op.id], Do(r, op).view[op.id])
  {
    assert r.view[op.id].id == op.id;
    QuietOps(r, op.id, if op.Start? then op.outcome else CreateFails, op.SetLocked? && op.locked,
             if op.SetMaxClients? then op.max else 0);
  }

  lemma SameEntriesFit(a: Record, b: Record, op: Op, id: Id, cn: Cn)
    requires SameEntries(a, b) && !op.SetClientTimeout? && !op.SetHostname? && !op.NameClient?
    ensures EntriesFit(a, b, op, id, cn)
  {}

  lemma TimeoutFits(r: Reg, id: Id, c: Cn, seconds: int, cn: Cn)
    requires id in r.view && r.view[id].id == id
    ensures id in DoSetClientTimeout(r, id, c, seconds).view
    ensures EntriesFit(r.view[id], DoSetClientTimeout(r, id, c, seconds).view[id], SetClientTimeout(id, c, seconds), id, cn)
  {}

  lemma HostnameFits(r: Reg, id: Id, c: Cn, hostname: string, cn: Cn)
    requires id in r.view && r.view[id].id == id
    ensures id in DoSetHostname(r, id, c, hostname).view
    ensures EntriesFit(r.view[id], DoSetHostname(r, id, c, hostname).view[id], SetHostname(id, c, hostname), id, cn)
  {}

  lemma NameFits(r: Reg, id: Id, c: Cn, a: string, n: string, tag: string, cn: Cn)
    requires id in r.view && r.view[id].id == id
    ensures id in DoNameClient(r, id, c, a + "-" + n + tag).view
    ensures EntriesFit(r.view[id], DoNameClient(r, id, c, a + "-" + n + tag).view[id], NameClient(id, c, a, n, tag), id, cn)
  {}

  lemma OwnEntries(r: Reg, op: Op, cn: Cn)
    requires RecordsOk(r.view) && !op.Restart? && !op.Delete? && !op.Create? && op.id in r.view
    ensures op.id in Do(r, op).view && EntriesFit(r.view[op.id], Do(r, op).view[op.id], op, op.id, cn)
  {
    if op.SetClientTimeout? {
      TimeoutFits(r, op.id, op.cn, op.seconds, cn);
    } else if op.SetHostname? {
      HostnameFits(r, op.id, op.cn, op.hostname, cn);
    } else if op.NameClient? {
      NameFits(r, op.id, op.cn, op.adjective, op.noun, op.tag, cn);
    } else {
      QuietEntries(r, op);
      SameEntriesFit(r.view[op.id], Do(r, op).view[op.id], op, op.id, cn);
    }
  }

  lemma OtherRecordStays(r: Reg, op: Op, id: Id)
    requires RecordsOk(r.view) && !op.Restart? && id in r.view && id != op.id
    ensures id in Do(r, op).view && Do(r, op).view[id] == r.view[id]
  {}

  /** What every operation but its deletion makes of an instance: identity, name, subnet and creation time never change,
      each setting only by the operation that is there for it, and a stopped instance has no container. */
  lemma FieldByField(r: Reg, op: Op, id: Id, cn: Cn)
    requires Inv(r) && EnvOk(r, op) && id in r.view && op != Delete(id)
    ensures id in Do(r, op).view
    ensures FieldsFit(r.view[id], Do(r, op).view[id], op, id) && EntriesFit(r.view[id], Do(r, op).view[id], op, id, cn)
    ensures Do(r, op).view[id].status == Stopped ==> Do(r, op).view[id].containerID == NO_CONTAINER
  {
    InvStep(r, op);
    if op.Restart? {
      RestartFields(r, op.clean, op.up, id, cn);
    } else if id != op.id {
      OtherRecordStays(r, op, id);
    } else {
      OwnFields(r, op);
      OwnEntries(r, op, cn);
    }
  }

  lemma RestartFields(r: Reg, clean: bool, up: map<Id, ContainerID>, id: Id, cn: Cn)
    requires Inv(r) && id in r.view
    ensures id in DoRestart(r, clean, up).view
    ensures FieldsFit(r.view[id], DoRestart(r, clean, up).view[id], Restart(clean, up), id)
    ensures EntriesFit(r.view[id], DoRestart(r, clean, up).view[id], Restart(clean, up), id, cn)
  {
    assert r.view[id].id == id;
  }

  /** A new instance; a failed creation changes nothing, and neither operation touches another instance. */
  lemma CreatedOrDeleted(r: Reg, id: Id, name: string, now: int, prepared: bool, outcome: StartOutcome)
    requires Inv(r) && EnvOk(r, Create(id, name, now, prepared, outcome))
    ensures var r' := Do(r, Create(id, name, now, prepared, outcome));
            if prepared && outcome.Started? then
              r'.view == r.view[id := Record(id, name, AllocateSubnet(r.view), now, outcome.container, Running,
                                             map[], map[], 0, false)]
            else r' == r
    ensures var d := Do(r, Delete(id));
            id !in d.view && forall i :: i in r.view && i != id ==> i in d.view && d.view[i] == r.view[i]
  {}

  /** The operation neither deletes the instance nor sets what is set for it and the client. */
  predicate Spares(op: Op, id: Id, cn: Cn) {
    About(op, id) ==>
      !op.Delete? && !op.SetLocked? && !op.SetMaxClients?
      && !(op.SetClientTimeout? && op.cn == cn) && !(op.SetHostname? && op.cn == cn)
  }

  predicate AllSpare(ops: seq<Op>, id: Id, cn: Cn) {
    ops == [] || (Spares(ops[0], id, cn) && AllSpare(ops[1..], id, cn))
  }

  /** The settings of an instance and of one of its named clients. */
  predicate SameSettings(a: Record, b: Record, cn: Cn) {
    && b.name == a.name && b.subnet == a.subnet && b.createdAt == a.createdAt
    && b.locked == a.locked && b.maxClients == a.maxClients
    && (cn in b.clientTimeouts <==> cn in a.clientTimeouts)
    && (cn in b.clientTimeouts ==> b.clientTimeouts[cn] == a.clientTimeouts[cn])
    && cn in a.hostnames && cn in b.hostnames && b.hostnames[cn] == a.hostnames[cn]
  }

  lemma SettingsStep(r: Reg, op: Op, id: Id, cn: Cn)
    requires Inv(r) && EnvOk(r, op) && id in r.view && cn in r.view[id].hostnames && Spares(op, id, cn)
    ensures Inv(Do(r, op)) && id in Do(r, op).view && SameSettings(r.view[id], Do(r, op).view[id], cn)
  {
    InvStep(r, op);
    FieldByField(r, op, id, cn);
  }

  lemma SettingsBoth(a: Record, b: Record, c: Record, cn: Cn)
    requires SameSettings(a, b, cn) && SameSettings(b, c, cn)
    ensures SameSettings(a, c, cn)
  {}

  /** What was set stays set over any run that does not set it again, through stops, starts and restarts: lock, limits,
      timeouts and hostnames, as well as name, subnet and creation time. */
  lemma {:induction false} SettingsLast(r: Reg, ops: seq<Op>, id: Id, cn: Cn)
    requires Inv(r) && RunOk(r, ops) && id in r.view && cn in r.view[id].hostnames && AllSpare(ops, id, cn)
    ensures id in RunOps(r, ops).view && SameSettings(r.view[id], RunOps(r, ops).view[id], cn)
    decreases |ops|
  {
    if ops == [] {
    } else {
      SettingsStep(r, ops[0], id, cn);
      var next := Do(r, ops[0]);
      SettingsLast(next, ops[1..], id, cn);
      SettingsBoth(r.view[id], next.view[id], RunOps(next, ops[1..]).view[id], cn);
    }
  }

  // ---------- Distinct names ----------

  /** No two clients of an instance have the same hostname. */
  predicate NamesDistinct(v: View) {
    forall id :: id in v ==> DistinctNames(v[id].hostnames)
  }

  predicate DistinctNames(hostnames: map<Cn, string>) {
    forall c, d :: c in hostnames && d in hostnames && c != d ==> hostnames[c] != hostnames[d]
  }

  /** The administrator gives a client the name of another, or the draw with a UUID part hits one. */
  predicate Clashes(r: Reg, op: Op) {
    match op
    case SetHostname(id, cn, hostname) =>
      id in r.view && !NameFree(r.view[id].hostnames - {cn}, Sanitize(hostname))
    case NameClient(id, cn, a, n, tag) =>
      tag != "" && id in r.view && cn !in r.view[id].hostnames && !NameFree(r.view[id].hostnames, a + "-" + n + tag)
    case _ => false
  }

  lemma NameGiven(hostnames: map<Cn, string>, cn: Cn, name: string)
    requires DistinctNames(hostnames)
    ensures DistinctNames(hostnames[cn := name]) <==> NameFree(hostnames - {cn}, name)
  {
    var given := hostnames[cn := name];
    if !NameFree(hostnames - {cn}, name) {
      var x :| x in hostnames - {cn} && hostnames[x] == name;
      assert x in given && cn in given && x != cn;
    }
    if NameFree(hostnames - {cn}, name) {
      forall c, d | c in given && d in given && c != d
        ensures given[c] != given[d]
      {
        assert c == cn ==> d in hostnames - {cn};
        assert d == cn ==> c in hostnames - {cn};
      }
    }
  }

  lemma NewNameGiven(hostnames: map<Cn, string>, cn: Cn, name: string)
    requires DistinctNames(hostnames) && cn !in hostnames
    ensures DistinctNames(hostnames[cn := name]) <==> NameFree(hostnames, name)
  {
    NameGiven(hostnames, cn, name);
    assert hostnames - {cn} == hostnames;
  }

  /** The names of the instance an operation is about. */
  lemma OwnNames(r: Reg, op: Op)
    requires Inv(r) && EnvOk(r, op) && NamesDistinct(r.view) && !op.Restart? && op.id in Do(r, op).view
    ensures DistinctNames(Do(r, op).view[op.id].hostnames) <==> !Clashes(r, op)
  {
    if op.id in r.view {
      var names := r.view[op.id].hostnames;
      match op
      case SetHostname(id, cn, hostname) => NameGiven(names, cn, Sanitize(hostname));
      case NameClient(id, cn, a, n, tag) =>
        if cn !in names {
          NewNameGiven(names, cn, a + "-" + n + tag);
        }
      case _ =>
    }
  }

  /** An operation keeps the names of every instance distinct if and only if it does not give one that is used. */
  lemma NamesStepIff(r: Reg, op: Op)
    requires Inv(r) && EnvOk(r, op) && NamesDistinct(r.view)
    ensures NamesDistinct(Do(r, op).view) <==> !Clashes(r, op)
  {
    if op.Restart? {
    } else {
      if op.id in Do(r, op).view {
        OwnNames(r, op);
      }
      forall id | id in Do(r, op).view && id != op.id
        ensures DistinctNames(Do(r, op).view[id].hostnames)
      {
        OneRecord(r, op, id);
      }
    }
  }

  predicate NoClashes(r: Reg, ops: seq<Op>)
    decreases |ops|
  {
    ops == [] || (!Clashes(r, ops[0]) && NoClashes(Do(r, ops[0]), ops[1..]))
  }

  /** So over any run in which the administrator gives no used name and the draws with a UUID part hit none, the names
      of every instance stay distinct: the fifty draws need no such condition. */
  lemma {:induction false} NamesRun(r: Reg, ops: seq<Op>)
    requires Inv(r) && RunOk(r, ops) && NamesDistinct(r.view) && NoClashes(r, ops)
    ensures NamesDistinct(RunOps(r, ops).view)
    decreases |ops|
  {
    if ops == [] {
    } else {
      InvStep(r, ops[0]);
      NamesStepIff(r, ops[0]);
      NamesRun(Do(r, ops[0]), ops[1..]);
    }
  }

  // ---------- Subnet isolation ----------

  predicate IsSubnet(s: string) {
    exists i :: 8 <= i <= 254 && s == "10." + Dec(i) + ".0.0"
  }

  /** All subnets are of the form 10.i.0.0 with 8 <= i <= 254 and no two instances share one. */
  predicate Isolated(v: View) {
    && (forall id :: id in v ==> IsSubnet(v[id].subnet))
    && (forall a, b :: a in v && b in v && a != b ==> v[a].subnet != v[b].subnet)
  }

  lemma SubnetsInjective(i: nat, j: nat)
    requires SubnetName(i) == SubnetName(j)
    ensures i == j
  {
    var a, b := SubnetName(i), SubnetName(j);
    assert a[3..] == Dec(i) + ".0.0" && b[3..] == Dec(j) + ".0.0";
    assert a[3..|a| - 4] == Dec(i) && b[3..|b| - 4] == Dec(j);
    DecInjective(i, j);
  }

  /** First fit: the first unused subnet, and the fallback only when there is none. */
  lemma {:induction false} FirstFreeFits(used: set<string>, i: nat) returns (k: nat)
    requires 8 <= i <= 255
    ensures i <= k <= 255 && (forall j :: i <= j < k ==> SubnetName(j) in used)
    ensures k < 255 ==> SubnetName(k) !in used && FirstFree(used, i) == SubnetName(k)
    ensures k == 255 ==> FirstFree(used, i) == "10.8.0.0"
    decreases 255 - i
  {
    if i == 255 || SubnetName(i) !in used {
      k := i;
    } else {
      k := FirstFreeFits(used, i + 1);
    }
  }

  /** The subnets from 8 up to k. */
  function Subnets(k: nat): (s: set<string>)
    requires 8 <= k
    ensures forall j :: 8 <= j < k ==> SubnetName(j) in s
    ensures forall x :: x in s ==> exists j :: 8 <= j < k && x == SubnetName(j)
  {
    if k == 8 then {} else Subnets(k - 1) + {SubnetName(k - 1)}
  }

  lemma {:induction false} SubnetsCount(k: nat)
    requires 8 <= k
    ensures |Subnets(k)| == k - 8
  {
    if k == 8 {
    } else {
      SubnetsCount(k - 1);
      if SubnetName(k - 1) in Subnets(k - 1) {
        var j :| 8 <= j < k - 1 && SubnetName(k - 1) == SubnetName(j);
        SubnetsInjective(j, k - 1);
      }
    }
  }

  lemma UsedSize(v: View)
    ensures |UsedSubnets(v)| <= |v|
    decreases |v|
  {
    if v == map[] {
    } else {
      var id :| id in v;
      var rest := v - {id};
      UsedSize(rest);
      assert forall i :: i in v ==> i == id || (i in rest && rest[i] == v[i]);
      assert forall i :: i in rest ==> i in v && rest[i] == v[i];
      assert UsedSubnets(v) == UsedSubnets(rest) + {v[id].subnet};
      assert v.Keys == rest.Keys + {id} && |v.Keys| == |rest.Keys| + 1;
    }
  }

  /** What the allocation promises: with fewer than 247 instances the result is an unused subnet of the range. */
  lemma AllocationFree(v: View)
    requires |v| < 247
    ensures IsSubnet(AllocateSubnet(v)) && AllocateSubnet(v) !in UsedSubnets(v)
  {
    var used := UsedSubnets(v);
    var k := FirstFreeFits(used, 8);
    if k == 255 {
      AllUsed(used);
      UsedSize(v);
    }
  }

  lemma AllUsed(used: set<string>)
    requires forall j :: 8 <= j < 255 ==> SubnetName(j) in used
    ensures |used| >= 247
  {
    SubnetsCount(255);
    forall x | x in Subnets(255)
      ensures x in used
    {
      var j :| 8 <= j < 255 && x == SubnetName(j);
    }
    SubsetSize(Subnets(255), used);
  }

  /** Exactly when a new instance gets a subnet of its own: some subnet of the range is not in use. */
  lemma AllocationFreeIff(v: View)
    ensures AllocateSubnet(v) !in UsedSubnets(v) <==> exists i :: 8 <= i <= 254 && SubnetName(i) !in UsedSubnets(v)
  {
    var k := FirstFreeFits(UsedSubnets(v), 8);
    if k == 255 {
      assert SubnetName(8) == "10.8.0.0";
    }
  }

  lemma SubnetKept(r: Reg, op: Op, id: Id)
    requires Inv(r) && !op.Create? && id in Do(r, op).view
    ensures id in r.view && Do(r, op).view[id].subnet == r.view[id].subnet
  {
    if !op.Restart? && id != op.id {
      OneRecord(r, op, id);
    }
  }

  lemma IsolatedCreate(v: View, id: Id, v': View)
    requires Isolated(v) && id !in v
    requires v' == v || (v'.Keys == v.Keys + {id} && v' == v[id := v'[id]] && v'[id].subnet == AllocateSubnet(v))
    requires IsSubnet(AllocateSubnet(v)) && AllocateSubnet(v) !in UsedSubnets(v)
    ensures Isolated(v')
  {
    assert forall i :: i in v ==> v[i].subnet in UsedSubnets(v);
  }

  /** Views with the same subnets, or some of them, are isolated alike. */
  lemma IsolatedFewer(v: View, v': View)
    requires Isolated(v) && forall id :: id in v' ==> id in v && v'[id].subnet == v[id].subnet
    ensures Isolated(v')
  {}

  lemma CreateAdds(r: Reg, op: Op)
    requires op.Create? && EnvOk(r, op)
    ensures var v' := Do(r, op).view;
            v' == r.view || (v' == r.view[op.id := v'[op.id]] && v'[op.id].subnet == AllocateSubnet(r.view))
  {}

  lemma IsolatedStep(r: Reg, op: Op)
    requires Inv(r) && EnvOk(r, op) && Isolated(r.view)
    requires op.Create? ==> |r.view| < 247
    ensures Isolated(Do(r, op).view)
  {
    if op.Create? {
      AllocationFree(r.view);
      CreateAdds(r, op);
      IsolatedCreate(r.view, op.id, Do(r, op).view);
    } else {
      forall id | id in Do(r, op).view
        ensures id in r.view && Do(r, op).view[id].subnet == r.view[id].subnet
      {
        SubnetKept(r, op, id);
      }
      IsolatedFewer(r.view, Do(r, op).view);
    }
  }

  /** Every creation of the run happens with fewer than 247 instances. */
  predicate RoomThroughout(r: Reg, ops: seq<Op>)
    decreases |ops|
  {
    ops == [] || ((ops[0].Create? ==> |r.view| < 247) && RoomThroughout(Do(r, ops[0]), ops[1..]))
  }

  /** Subnet isolation over whole runs. */
  lemma {:induction false} IsolatedRun(r: Reg, ops: seq<Op>)
    requires Inv(r) && RunOk(r, ops) && Isolated(r.view) && RoomThroughout(r, ops)
    ensures Isolated(RunOps(r, ops).view)
    decreases |ops|
  {
    if ops == [] {
    } else {
      InvStep(r, ops[0]);
      IsolatedStep(r, ops[0]);
      IsolatedRun(Do(r, ops[0]), ops[1..]);
    }
  }
}
