/**
 The manager as the program runs it: a class over mutable instances, with Docker and the disk as objects of
 their own.  Every operation is proved to be the corresponding value-level step of module Registry.
 */
module Management {
  import opened Text
  import opened Vpn
  import opened Hosts
  import opened Registry

  class Instance {
    const id: Id
    const name: string
    const subnet: string
    const createdAt: int
    var containerID: ContainerID
    var status: Status
    var hostnames: map<Cn, string>
    var clientTimeouts: map<Cn, int>
    var maxClients: int
    var locked: bool
    const mgmtAddr: string               // not saved; computed from the id

    constructor (r: Record, mgmtAddr: string)
      ensures Rec() == r && this.mgmtAddr == mgmtAddr
    {
      id, name, subnet, createdAt := r.id, r.name, r.subnet, r.createdAt;
      containerID, status := r.containerID, r.status;
      hostnames, clientTimeouts := r.hostnames, r.clientTimeouts;
      maxClients, locked := r.maxClients, r.locked;
      this.mgmtAddr := mgmtAddr;
    }

    /** What json.Marshal writes for the instance. */
    function Rec(): Record
      reads this
    {
      Record(id, name, subnet, createdAt, containerID, status, hostnames, clientTimeouts, maxClients, locked)
    }
  }

  /** The containers with this program's label.  Ids are never handed out twice. */
  class Docker {
    var containers: set<ContainerID>
    var last: ContainerID

    ghost predicate Valid()
      reads this
    {
      forall c :: c in containers ==> NO_CONTAINER < c <= last
    }

    method ContainerCreate() returns (c: ContainerID)
      requires Valid()
      modifies this
      ensures Valid() && c > old(last) && containers == old(containers) + {c}
    {
      last := last + 1;
      c := last;
      containers := containers + {c};
    }

    /** A forced removal; its errors are ignored by every caller. */
    method ContainerRemove(c: ContainerID)
      requires Valid()
      modifies this
      ensures Valid() && last == old(last) && containers == old(containers) - {c}
    {
      containers := containers - {c};
    }
  }

  /** instances.json.  Broken: it cannot be read, for another reason than absence, or does not parse. */
  datatype InstancesFile = Missing | Broken | Saved(records: seq<Record>)

  class Disk {
    var file: InstancesFile
  }

  /** The records of a file, a later one replacing an earlier one with the same id. */
  function Decode(records: seq<Record>): View {
    if records == [] then map[]
    else
      var last := records[|records| - 1];
      Decode(records[..|records| - 1])[last.id := last]
  }

  lemma DecodeLast(records: seq<Record>, rec: Record)
    ensures Decode(records + [rec]) == Decode(records)[rec.id := rec]
  {
    assert (records + [rec])[..|records|] == records;
  }

  function DecodeFile(file: InstancesFile): View {
    if file.Saved? then Decode(file.records) else map[]
  }

  /** No two records of the file have the same id. */
  ghost predicate OneEach(file: InstancesFile) {
    file.Saved? ==> forall i, j :: 0 <= i < j < |file.records| ==> file.records[i].id != file.records[j].id
  }

  /** Which of the Docker calls of a start fails. */
  datatype Plan = NoCreate | NoConnect | NoStart | AllFine

  /** otiv- and the id without its hyphens. */
  function ContainerName(id: Id): string {
    "otiv-" + DropHyphens(id)
  }

  function DropHyphens(s: string): string {
    if s == "" then "" else (if s[0] == '-' then "" else [s[0]]) + DropHyphens(s[1..])
  }

  function MgmtAddr(id: Id): string {
    ContainerName(id) + ":" + Dec(7505)
  }

  function Concat(parts: seq<string>): string {
    if parts == [] then "" else parts[0] + Concat(parts[1..])
  }

  lemma {:induction false} DropsNone(s: string)
    requires '-' !in s
    ensures DropHyphens(s) == s
  {
    if s == "" {
    } else {
      DropsNone(s[1..]);
      assert [s[0]] + s[1..] == s;
    }
  }

  lemma {:induction false} DropsBoth(a: string, b: string)
    ensures DropHyphens(a + b) == DropHyphens(a) + DropHyphens(b)
  {
    if a == "" {
      assert a + b == b;
    } else {
      assert (a + b)[0] == a[0] && (a + b)[1..] == a[1..] + b;
      DropsBoth(a[1..], b);
      Assoc(if a[0] == '-' then "" else [a[0]], DropHyphens(a[1..]), DropHyphens(b));
    }
  }

  lemma {:induction false} HyphensDropped(parts: seq<string>)
    requires forall k :: 0 <= k < |parts| ==> '-' !in parts[k]
    ensures DropHyphens(Join(parts, '-')) == Concat(parts)
  {
    if parts == [] {
    } else if |parts| == 1 {
      DropsNone(parts[0]);
      assert Concat(parts[1..]) == "" && parts[0] + "" == parts[0];
    } else {
      HyphensDropped(parts[1..]);
      var rest := Join(parts[1..], '-');
      DropsNone(parts[0]);
      DropsBoth(parts[0] + ['-'], rest);
      DropsBoth(parts[0], ['-']);
      assert DropHyphens(['-']) == "" && DropHyphens(parts[0]) + "" == DropHyphens(parts[0]);
    }
  }

  /** The container of an instance is named after its id without the hyphens, and its management interface answers under
      that name. */
  lemma AddressOf(parts: seq<string>)
    requires forall k :: 0 <= k < |parts| ==> '-' !in parts[k]
    ensures ContainerName(Join(parts, '-')) == "otiv-" + Concat(parts)
    ensures MgmtAddr(Join(parts, '-')) == "otiv-" + Concat(parts) + ":7505"
  {
    HyphensDropped(parts);
    PortText();
    Assoc("otiv-" + Concat(parts), ":", "7505");
  }

  lemma PortText()
    ensures Dec(7505) == "7505" && ":" + "7505" == ":7505"
  {
    assert Dec(7) == "7";
    assert Dec(75) == "75";
    assert Dec(750) == "750";
  }

  /** The text form of a UUID: section 4 of RFC 9562. */
  predicate IsUUID(id: Id) {
    |id| == 36 && forall k :: 0 <= k < 36 ==> (id[k] == '-' <==> k in {8, 13, 18, 23})
  }

  /** Where character k of a UUID stands without the hyphens. */
  function Place(k: nat): nat {
    if k <= 8 then k else if k <= 13 then k - 1 else if k <= 18 then k - 2 else if k <= 23 then k - 3 else k - 4
  }

  lemma {:induction false} DroppedAt(s: string, id: Id, k: nat, i: nat)
    requires IsUUID(id) && i <= k < 36 && id[k] != '-' && s == id[i..]
    ensures i <= 36 && Place(i) <= Place(k) && Place(k) - Place(i) < |DropHyphens(s)|
    ensures DropHyphens(s)[Place(k) - Place(i)] == id[k]
    decreases |s|
  {
    assert s[0] == id[i] && s[1..] == id[i + 1..];
    if i == k {
    } else {
      DroppedAt(s[1..], id, k, i + 1);
      assert Place(i + 1) == Place(i) + if id[i] == '-' then 0 else 1;
    }
  }

  /** Different UUIDs give different container names: dropping the hyphens loses nothing. */
  lemma NamesDiffer(a: Id, b: Id)
    requires IsUUID(a) && IsUUID(b) && ContainerName(a) == ContainerName(b)
    ensures a == b
  {
    assert ContainerName(a)[5..] == DropHyphens(a) && ContainerName(b)[5..] == DropHyphens(b);
    forall k | 0 <= k < 36
      ensures a[k] == b[k]
    {
      assert a[0..] == a && b[0..] == b;
      if a[k] != '-' {
        DroppedAt(a, a, k, 0);
        DroppedAt(b, b, k, 0);
      }
    }
  }

  /** What chance decides about a name: the draws of a pair of words, and the start of a UUID. */
  datatype Dice = Dice(draws: nat -> (nat, nat), uuid: string)

  ghost predicate Fair(dice: Dice) {
    HexTag(dice.uuid) && forall i :: dice.draws(i).0 < |ADJECTIVES| && dice.draws(i).1 < |NOUNS|
  }

  ghost function NameOf(dice: Dice, i: nat): string
    requires Fair(dice)
  {
    ADJECTIVES[dice.draws(i).0] + "-" + NOUNS[dice.draws(i).1]
  }

  /** The k-th draw is the first that is not in use, or the one after fifty that are. */
  ghost predicate DrawnAt(hostnames: map<Cn, string>, dice: Dice, k: nat, a: string, n: string, tag: string)
    requires Fair(dice)
  {
    && k <= 50 && a + "-" + n == NameOf(dice, k)
    && (forall j :: 0 <= j < k ==> !NameFree(hostnames, NameOf(dice, j)))
    && if k < 50 then NameFree(hostnames, NameOf(dice, k)) && tag == "" else tag == "-" + dice.uuid
  }

  class Manager {
    var instances: map<Id, Instance>
    ghost var view: View                 // the records of the instances
    const docker: Docker
    const disk: Disk

    /** How the objects fit together.  The invariants of the registry are about the snapshot. */
    ghost predicate Valid()
      reads this, instances.Values, docker, disk
    {
      && docker.Valid()
      && view.Keys == instances.Keys
      && (forall id :: id in instances ==> Mirrors(instances[id], id, view[id]))
      && OneEach(disk.file)
    }

    static ghost predicate Mirrors(inst: Instance, id: Id, rec: Record)
      reads inst
    {
      inst.id == id && inst.Rec() == rec
    }

    ghost function Snapshot(): Reg
      reads this, docker, disk
    {
      Reg(view, docker.containers, DecodeFile(disk.file))
    }

    /** NewManager up to the loading. */
    constructor (docker: Docker, disk: Disk)
      ensures instances == map[] && view == map[] && this.docker == docker && this.disk == disk
    {
      instances, view := map[], map[];
      this.docker, this.disk := docker, disk;
    }

    /** One round of loadInstances: the old container goes, a new one is started. */
    method LoadOne(rec: Record, plan: Plan) returns (inst: Instance, outcome: StartOutcome)
      requires docker.Valid()
      modifies docker
      ensures docker.Valid() && docker.last >= old(docker.last)
      ensures fresh(inst) && inst.id == rec.id && inst.mgmtAddr == MgmtAddr(rec.id)
      ensures outcome.Started? <==> plan == AllFine
      ensures outcome.Started? ==> outcome.container > old(docker.last)
      ensures inst.Rec() == Reloaded(rec, outcome)
      ensures docker.containers == old(docker.containers) - {rec.containerID} + Obtained(outcome)
      ensures outcome.Started? ==> outcome.container <= docker.last
    {
      inst := new Instance(rec, MgmtAddr(rec.id));
      if inst.containerID != NO_CONTAINER {
        docker.ContainerRemove(inst.containerID);
        inst.containerID := NO_CONTAINER;
      }
      outcome := StartContainer(inst, plan);
      if outcome.Started? {
        inst.status := Running;
      } else {
        inst.status := Stopped;
      }
    }

    /** What loadInstances keeps about the objects. */
    ghost predicate Stocked()
      reads this, instances.Values, docker
    {
      && docker.Valid()
      && view.Keys == instances.Keys
      && (forall id :: id in instances ==> Mirrors(instances[id], id, view[id]))
    }

    method LoadNext(rec: Record, plan: Plan) returns (inst: Instance, outcome: StartOutcome)
      requires Stocked() && rec.id !in instances
      modifies this, docker
      ensures Stocked() && docker.last >= old(docker.last)
      ensures fresh(inst) && inst.mgmtAddr == MgmtAddr(rec.id) && instances == old(instances)[rec.id := inst]
      ensures outcome.Started? <==> plan == AllFine
      ensures outcome.Started? ==> old(docker.last) < outcome.container <= docker.last
      ensures view == old(view)[rec.id := Reloaded(rec, outcome)]
      ensures docker.containers == old(docker.containers) - {rec.containerID} + Obtained(outcome)
    {
      inst, outcome := LoadOne(rec, plan);
      instances := instances[rec.id := inst];
      view := view[rec.id := inst.Rec()];
    }

    /** One round, added to those before. */
    method LoadRound(rec: Record, plan: Plan, ghost rounds: seq<Round>, ghost left: set<ContainerID>, ghost last: ContainerID)
      returns (inst: Instance, ghost more: seq<Round>)
      requires Stocked() && rec.id !in instances && InRounds(rounds, view, docker.containers, left, last, docker.last)
      modifies this, docker
      ensures Stocked() && InRounds(more, view, docker.containers, left, last, docker.last)
      ensures fresh(inst) && inst.mgmtAddr == MgmtAddr(rec.id) && instances == old(instances)[rec.id := inst]
      ensures |more| == |rounds| + 1 && more[..|rounds|] == rounds
      ensures more[|rounds|].rec == rec && (more[|rounds|].outcome.Started? <==> plan == AllFine)
    {
      ghost var v, held, high := view, docker.containers, docker.last;
      var outcome;
      inst, outcome := LoadNext(rec, plan);
      more := rounds + [Round(rec, outcome)];
      OneRoundMore(rounds, Round(rec, outcome), v, held, left, last, high, docker.last);
    }

    /** The loop of loadInstances. */
    method LoadRecords(records: seq<Record>, plan: Id -> Plan) returns (ghost rounds: seq<Round>)
      requires instances == map[] && Stocked() && OneEach(Saved(records))
      modifies this, docker
      ensures Stocked()
      ensures forall id :: id in instances ==> fresh(instances[id]) && instances[id].mgmtAddr == MgmtAddr(id)
      ensures Recs(rounds) == records && Planned(rounds, plan)
      ensures InRounds(rounds, view, docker.containers, old(docker.containers), old(docker.last), docker.last)
    {
      ghost var left, last := docker.containers, docker.last;
      rounds := [];
      for i := 0 to |records|
        invariant Stocked() && InRounds(rounds, view, docker.containers, left, last, docker.last)
        invariant forall id :: id in instances ==> fresh(instances[id]) && instances[id].mgmtAddr == MgmtAddr(id)
        invariant Recs(rounds) == records[..i] && Planned(rounds, plan)
      {
        NotYet(records, i, rounds);
        ghost var before := rounds;
        var inst;
        inst, rounds := LoadRound(records[i], plan(records[i].id), rounds, left, last);
        PlannedMore(before, rounds, records, i, plan);
      }
      assert records[..|records|] == records;
    }

    /** loadInstances once the file has been read. */
    method LoadSaved(records: seq<Record>, plan: Id -> Plan) returns (ghost rounds: seq<Round>)
      requires instances == map[] && Stocked() && OneEach(Saved(records))
      modifies this, docker, disk
      ensures Valid()
      ensures forall id :: id in instances ==> fresh(instances[id]) && instances[id].mgmtAddr == MgmtAddr(id)
      ensures Recs(rounds) == records && Planned(rounds, plan) && Rising(rounds, old(docker.last), docker.last)
      ensures Snapshot() == Reg(ViewOf(rounds), HeldOf(rounds, old(docker.containers)), ViewOf(rounds))
    {
      rounds := LoadRecords(records, plan);
      SaveInstances();
    }

    /** loadInstances, in a new process.  r: the registry of the process before, which left the file, unless it was
        broken since; clean: that process ran Shutdown.  On a broken file it fails and touches nothing. */
    method LoadInstances(plan: Id -> Plan, ghost r: Reg, ghost clean: bool)
      returns (ok: bool, ghost up: map<Id, ContainerID>)
      requires instances == map[] && view == map[] && docker.Valid() && OneEach(disk.file)
      requires Inv(r) && (disk.file.Broken? || r.saved == DecodeFile(disk.file))
      requires docker.containers == if clean then r.containers - ContainersOf(r.view) else r.containers
      requires forall c :: c in r.containers ==> c <= docker.last
      modifies this, docker, disk
      ensures Valid()
      ensures ok <==> !old(disk.file).Broken?
      ensures ok ==> EnvOk(r, Restart(clean, up)) && Snapshot() == DoRestart(r, clean, up)
      ensures ok ==> forall id :: id in up <==> id in r.view && plan(id) == AllFine
      ensures forall id :: id in instances ==> fresh(instances[id]) && instances[id].mgmtAddr == MgmtAddr(id)
      ensures !ok ==> instances == map[] && disk.file == old(disk.file) && docker.containers == old(docker.containers)
    {
      ghost var last := docker.last;
      ghost var rounds: seq<Round> := [];
      if disk.file.Broken? {
        return false, map[];
      }
      if disk.file.Saved? {
        rounds := LoadSaved(disk.file.records, plan);
      }
      RoundsLoaded(r, clean, rounds, plan, last, docker.last);
      return true, UpOf(rounds);
    }

    /** saveInstances: the map is walked in any order. */
    method SaveInstances()
      requires view.Keys == instances.Keys
      requires forall id :: id in instances ==> Mirrors(instances[id], id, view[id])
      modifies disk
      ensures DecodeFile(disk.file) == view && OneEach(disk.file)
    {
      var records: seq<Record> := [];
      var rest := instances.Keys;
      while rest != {}
        invariant rest <= instances.Keys
        invariant Decode(records) == view - rest
        invariant OneEach(Saved(records)) && forall k :: 0 <= k < |records| ==> records[k].id !in rest
        decreases rest
      {
        var id :| id in rest;
        assert Mirrors(instances[id], id, view[id]);
        DecodeLast(records, view[id]);
        OneKeyMore(view, rest, id);
        records := records + [instances[id].Rec()];
        rest := rest - {id};
      }
      disk.file := Saved(records);
    }

    /** allocateSubnet: collects the used subnets, then takes the first free one. */
    method AllocateSubnet() returns (s: string)
      requires Valid()
      ensures s == Registry.AllocateSubnet(view)
    {
      var used: set<string> := {};
      var rest := instances.Keys;
      while rest != {}
        invariant rest <= instances.Keys
        invariant used == UsedSubnets(view - rest)
        decreases rest
      {
        var id :| id in rest;
        assert Mirrors(instances[id], id, view[id]);
        AddSubnet(view, rest, id);
        used := used + {instances[id].subnet};
        rest := rest - {id};
      }
      assert view - {} == view;
      var i := 8;
      while i < 255
        invariant 8 <= i <= 255
        invariant FirstFree(used, 8) == FirstFree(used, i)
      {
        s := "10." + Dec(i) + ".0.0";
        if s !in used {
          return;
        }
        i := i + 1;
      }
      s := "10.8.0.0";
    }

    /** startContainer: on failure at any point Docker is as before. */
    method StartContainer(inst: Instance, plan: Plan) returns (outcome: StartOutcome)
      requires docker.Valid()
      modifies docker, inst`containerID
      ensures docker.Valid() && docker.last >= old(docker.last)
      ensures outcome.Started? <==> plan == AllFine
      ensures outcome.Started? ==>
                inst.containerID == outcome.container > old(docker.last) &&
                docker.containers == old(docker.containers) + {outcome.container}
      ensures !outcome.Started? ==> inst.containerID == old(inst.containerID) && docker.containers == old(docker.containers)
    {
      if plan == NoCreate {
        return CreateFails;
      }
      var c := docker.ContainerCreate();
      if plan == NoConnect {
        docker.ContainerRemove(c);
        return ConnectFails;
      }
      if plan == NoStart {
        docker.ContainerRemove(c);
        return StartFails;
      }
      inst.containerID := c;
      return Started(c);
    }

    /** startContainer and, when it succeeded, the new status. */
    method Launch(inst: Instance, plan: Plan) returns (outcome: StartOutcome)
      requires docker.Valid()
      modifies docker, inst
      ensures docker.Valid() && docker.last >= old(docker.last)
      ensures outcome.Started? <==> plan == AllFine
      ensures outcome.Started? ==>
                outcome.container > old(docker.last) &&
                inst.Rec() == old(inst.Rec()).(containerID := outcome.container, status := Running) &&
                docker.containers == old(docker.containers) + {outcome.container}
      ensures !outcome.Started? ==> inst.Rec() == old(inst.Rec()) && docker.containers == old(docker.containers)
    {
      outcome := StartContainer(inst, plan);
      if outcome.Started? {
        inst.status := Running;
      }
    }

    /** Enters an instance, or its new state, and saves. */
    method Enter(inst: Instance)
      requires docker.Valid() && view.Keys == instances.Keys
      requires forall id :: id in instances && id != inst.id ==> Mirrors(instances[id], id, view[id])
      requires OneEach(disk.file)
      modifies this, disk
      ensures Valid()
      ensures instances == old(instances)[inst.id := inst] && view == old(view)[inst.id := inst.Rec()]
      ensures DecodeFile(disk.file) == view
    {
      instances := instances[inst.id := inst];
      view := view[inst.id := inst.Rec()];
      SaveInstances();
    }

    /** CreateInstance with a new UUID.  prepared: the certificates and files could be made. */
    method CreateInstance(id: Id, name: string, now: int, prepared: bool, plan: Plan)
      returns (r: Result<Instance, string>, outcome: StartOutcome)
      requires Valid() && id !in instances
      modifies this, docker, disk
      ensures Valid()
      ensures NewContainer(old(Snapshot()), outcome)
      ensures Snapshot() == DoCreate(old(Snapshot()), id, name, now, prepared, outcome)
      ensures r.Ok? <==> prepared && plan == AllFine
      ensures r.Ok? ==> fresh(r.value) && r.value.mgmtAddr == MgmtAddr(id) && instances == old(instances)[id := r.value]
      ensures r.Err? ==> instances == old(instances) && disk.file == old(disk.file)
      ensures r.Err? ==> view == old(view) && docker.containers == old(docker.containers)
      ensures r.Ok? ==> r.value.status == Running && r.value.containerID !in old(docker.containers) + {NO_CONTAINER}
      ensures r.Ok? ==> docker.containers == old(docker.containers) + {r.value.containerID}
      ensures r.Ok? ==>
                r.value.Rec() == Record(id, name, Registry.AllocateSubnet(old(view)), now, r.value.containerID, Running,
                                        map[], map[], 0, false)
    {
      outcome := CreateFails;
      var subnet := AllocateSubnet();
      if !prepared {
        return Err("prepare"), outcome;
      }
      var inst := new Instance(Record(id, name, subnet, now, NO_CONTAINER, Stopped, map[], map[], 0, false), MgmtAddr(id));
      outcome := Launch(inst, plan);
      if !outcome.Started? {
        return Err("start container"), outcome;
      }
      Enter(inst);
      return Ok(inst), outcome;
    }

    /** StartInstance */
    method StartInstance(id: Id, plan: Plan) returns (ok: bool, outcome: StartOutcome)
      requires Valid()
      modifies this, docker, disk, instances.Values
      ensures Valid() && instances == old(instances)
      ensures NewContainer(old(Snapshot()), outcome)
      ensures Snapshot() == DoStart(old(Snapshot()), id, outcome)
      ensures ok <==> id in instances && (old(instances[id].status) == Running || plan == AllFine)
      ensures id in instances && old(instances[id].status) != Running ==>
                if plan == AllFine then
                  outcome.Started? && instances[id].status == Running
                  && instances[id].containerID !in old(docker.containers) + {NO_CONTAINER}
                  && docker.containers == old(docker.containers) + {instances[id].containerID}
                else !outcome.Started? && instances[id].status == Stopped && docker.containers == old(docker.containers)
    {
      outcome := CreateFails;
      if id !in instances {
        return false, outcome;
      }
      var inst := instances[id];
      if inst.status == Running {
        return true, outcome;
      }
      outcome := Launch(inst, plan);
      if !outcome.Started? {
        return false, outcome;
      }
      Enter(inst);
      return true, outcome;
    }

    /** StopInstance */
    method StopInstance(id: Id) returns (ok: bool)
      requires Valid()
      modifies this, docker, disk, instances.Values
      ensures Valid() && instances == old(instances)
      ensures ok <==> id in instances
      ensures Snapshot() == DoStop(old(Snapshot()), id)
      ensures ok ==> instances[id].status == Stopped && instances[id].containerID == NO_CONTAINER
      ensures ok ==> docker.containers == old(docker.containers) - {old(instances[id].containerID)}
    {
      if id !in instances {
        return false;
      }
      var inst := instances[id];
      assert Mirrors(inst, id, view[id]);
      if inst.containerID != NO_CONTAINER {
        docker.ContainerRemove(inst.containerID);
      }
      Halt(inst);
      Enter(inst);
      return true;
    }

    method Halt(inst: Instance)
      modifies inst
      ensures inst.Rec() == old(inst.Rec()).(containerID := NO_CONTAINER, status := Stopped)
    {
      inst.containerID := NO_CONTAINER;
      inst.status := Stopped;
    }

    /** Takes an instance out, and saves. */
    method Leave(id: Id)
      requires Valid()
      modifies this, disk
      ensures Valid() && instances == old(instances) - {id} && view == old(view) - {id}
      ensures DecodeFile(disk.file) == view
    {
      instances := instances - {id};
      view := view - {id};
      SaveInstances();
    }

    /** DeleteInstance */
    method DeleteInstance(id: Id) returns (ok: bool)
      requires Valid()
      modifies this, docker, disk
      ensures Valid() && instances == old(instances) - {id}
      ensures ok <==> id in old(instances)
      ensures Snapshot() == DoDelete(old(Snapshot()), id)
      ensures ok ==> docker.containers == old(docker.containers) - {old(instances[id].containerID)}
    {
      if id !in instances {
        return false;
      }
      var inst := instances[id];
      assert Mirrors(inst, id, view[id]);
      if inst.containerID != NO_CONTAINER {
        docker.ContainerRemove(inst.containerID);
      }
      Leave(id);
      return true;
    }

    /** SetLocked */
    method SetLocked(id: Id, locked: bool) returns (ok: bool)
      requires Valid()
      modifies this, disk, instances.Values
      ensures Valid() && instances == old(instances)
      ensures ok <==> id in instances
      ensures Snapshot() == DoSetLocked(old(Snapshot()), id, locked)
      ensures ok ==> instances[id].locked == locked
    {
      if id !in instances {
        return false;
      }
      var inst := instances[id];
      assert Mirrors(inst, id, view[id]);
      inst.locked := locked;
      Enter(inst);
      return true;
    }

    /** SetMaxClients */
    method SetMaxClients(id: Id, max: int) returns (ok: bool)
      requires Valid()
      modifies this, disk, instances.Values
      ensures Valid() && instances == old(instances)
      ensures ok <==> id in instances
      ensures Snapshot() == DoSetMaxClients(old(Snapshot()), id, max)
      ensures ok ==> instances[id].maxClients == if max > 0 then max else 0
    {
      if id !in instances {
        return false;
      }
      var inst := instances[id];
      assert Mirrors(inst, id, view[id]);
      if max <= 0 {
        inst.maxClients := 0;
      } else {
        inst.maxClients := max;
      }
      Enter(inst);
      return true;
    }

    /** SetClientTimeout */
    method SetClientTimeout(id: Id, cn: Cn, seconds: int) returns (ok: bool)
      requires Valid()
      modifies this, disk, instances.Values
      ensures Valid() && instances == old(instances)
      ensures ok <==> id in instances
      ensures Snapshot() == DoSetClientTimeout(old(Snapshot()), id, cn, seconds)
      ensures ok ==> (cn in instances[id].clientTimeouts <==> seconds > 0)
      ensures ok && seconds > 0 ==> instances[id].clientTimeouts[cn] == seconds
    {
      if id !in instances {
        return false;
      }
      var inst := instances[id];
      assert Mirrors(inst, id, view[id]);
      if seconds <= 0 {
        inst.clientTimeouts := inst.clientTimeouts - {cn};
      } else {
        inst.clientTimeouts := inst.clientTimeouts[cn := seconds];
      }
      Enter(inst);
      return true;
    }

    /** SetHostname; clients is what GetClients listed, and hosts what writeDNSHosts wrote. */
    method SetHostname(id: Id, cn: Cn, hostname: string, clients: seq<VPNClient>) returns (ok: bool, hosts: string)
      requires Valid()
      modifies this, disk, instances.Values
      ensures Valid() && instances == old(instances)
      ensures ok <==> id in instances
      ensures Snapshot() == DoSetHostname(old(Snapshot()), id, cn, hostname)
      ensures ok ==> cn in instances[id].hostnames && instances[id].hostnames[cn] == Sanitize(hostname)
      ensures ok ==> hosts == HostsText(view[id].hostnames, clients)
    {
      if id !in instances {
        return false, "";
      }
      var inst := instances[id];
      assert Mirrors(inst, id, view[id]);
      inst.hostnames := inst.hostnames[cn := Sanitize(hostname)];
      hosts := WriteDNSHosts(inst.hostnames, clients);
      Enter(inst);
      return true, hosts;
    }

    /** uniqueFriendlyName: the first of 50 random draws that is not in use, or else one more draw with the start of a
        UUID behind it. */
    method UniqueFriendlyName(hostnames: map<Cn, string>, dice: Dice) returns (a: string, n: string, tag: string)
      requires Fair(dice)
      ensures Drawn(a, n, tag)
      ensures exists k: nat :: DrawnAt(hostnames, dice, k, a, n, tag)
      ensures tag == "" ==> NameFree(hostnames, a + "-" + n + tag)
    {
      var used := {};
      var rest := hostnames.Keys;
      while rest != {}
        invariant rest <= hostnames.Keys
        invariant forall x :: x in used <==> exists cn :: cn in hostnames && cn !in rest && hostnames[cn] == x
        decreases rest
      {
        var cn :| cn in rest;
        used := used + {hostnames[cn]};
        rest := rest - {cn};
      }
      assert forall x :: x in used <==> !NameFree(hostnames, x);
      for i := 0 to 50
        invariant forall j :: 0 <= j < i ==> !NameFree(hostnames, NameOf(dice, j))
      {
        a, n := Draw(dice, i);
        if a + "-" + n !in used {
          tag := "";
          assert a + "-" + n + tag == a + "-" + n;
          assert DrawnAt(hostnames, dice, i, a, n, tag);
          return;
        }
      }
      a, n := Draw(dice, 50);
      tag := "-" + dice.uuid;
      assert tag[1..] == dice.uuid;
      assert DrawnAt(hostnames, dice, 50, a, n, tag);
    }

    /** friendlyName: two random words. */
    method Draw(dice: Dice, i: nat) returns (a: string, n: string)
      requires Fair(dice)
      ensures a == ADJECTIVES[dice.draws(i).0] && n == NOUNS[dice.draws(i).1]
    {
      return ADJECTIVES[dice.draws(i).0], NOUNS[dice.draws(i).1];
    }

    /** Stores a hostname.  The change is not saved yet. */
    method StoreHostname(inst: Instance, cn: Cn, name: string)
      requires inst.id in instances && instances[inst.id] == inst && view.Keys == instances.Keys
      requires forall x :: x in instances ==> Mirrors(instances[x], x, view[x])
      modifies this`view, inst
      ensures view == old(view)[inst.id := old(view)[inst.id].(hostnames := old(inst.hostnames)[cn := name])]
      ensures inst.hostnames == old(inst.hostnames)[cn := name]
      ensures forall x :: x in instances ==> Mirrors(instances[x], x, view[x])
    {
      assert Mirrors(inst, inst.id, view[inst.id]);
      inst.hostnames := inst.hostnames[cn := name];
      view := view[inst.id := inst.Rec()];
      assert forall x :: x in instances && x != inst.id ==> instances[x] != inst;
    }

    /** Gives cn a name unless it has one.  The change is not saved yet. */
    method AssignName(inst: Instance, cn: Cn, dice: Dice, ghost r: Reg) returns (added: bool, ghost op: Op)
      requires r.view == view
      requires inst.id in instances && instances[inst.id] == inst && view.Keys == instances.Keys && Fair(dice)
      requires forall x :: x in instances ==> Mirrors(instances[x], x, view[x])
      modifies this`view, inst
      ensures view.Keys == instances.Keys && forall x :: x in instances ==> Mirrors(instances[x], x, view[x])
      ensures op.NameClient? && op.id == inst.id
      ensures added <==> cn !in old(inst.hostnames)
      ensures !added ==> view == old(view) && inst.hostnames == old(inst.hostnames)
      ensures added ==> EnvOk(r, op) && Do(r, op) == Reg(view, r.containers, view)
      ensures cn in inst.hostnames && Extends(old(inst.hostnames), inst.hostnames)
    {
      added := cn !in inst.hostnames;
      op := NameClient(inst.id, cn, "", "", "");
      if added {
        var a, n, tag := UniqueFriendlyName(inst.hostnames, dice);
        op := NameClient(inst.id, cn, a, n, tag);
        assert Mirrors(inst, inst.id, view[inst.id]);
        NameStep(r, inst.id, cn, a, n, tag);
        StoreHostname(inst, cn, a + "-" + n + tag);
      }
    }

    /** The naming loop of GetInstanceClients: every listed client gets its hostname, a new one if it has none. */
    method NameClients(inst: Instance, listed: seq<VPNClient>, dice: Cn -> Dice)
      returns (clients: seq<VPNClient>, newHostname: bool, ghost ops: seq<Op>)
      requires Valid() && inst.id in instances && instances[inst.id] == inst
      requires forall cn :: Fair(dice(cn))
      modifies this`view, inst
      ensures view.Keys == instances.Keys && forall x :: x in instances ==> Mirrors(instances[x], x, view[x])
      ensures RunOk(old(Snapshot()), ops) && (forall op :: op in ops ==> op.NameClient? && op.id == inst.id)
      ensures RunOps(old(Snapshot()), ops) == Reg(view, docker.containers, if newHostname then view else DecodeFile(disk.file))
      ensures AllNamed(inst.hostnames, listed, clients)
    {
      clients, newHostname, ops := [], false, [];
      ghost var start := Snapshot();
      for i := 0 to |listed|
        invariant view.Keys == instances.Keys
        invariant forall x :: x in instances ==> Mirrors(instances[x], x, view[x])
        invariant RunOk(start, ops) && (forall op :: op in ops ==> op.NameClient? && op.id == inst.id)
        invariant RunOps(start, ops) == Reg(view, start.containers, if newHostname then view else start.saved)
        invariant AllNamed(inst.hostnames, listed[..i], clients)
      {
        assert Mirrors(inst, inst.id, view[inst.id]);
        ghost var was := RunOps(start, ops);
        var added; ghost var op;
        ghost var before := inst.hostnames;
        added, op := AssignName(inst, listed[i].commonName, dice(listed[i].commonName), was);
        if added {
          RunAppend(start, ops, op);
          ops := ops + [op];
          newHostname := true;
        }
        NamedMore(before, inst.hostnames, listed, clients, i);
        clients := clients + [listed[i].(hostname := inst.hostnames[listed[i].commonName])];
      }
      assert listed[..|listed|] == listed;
    }

    /** The hosts file is written when a client is listed; "" when it is left alone. */
    static method WriteHosts(hostnames: map<Cn, string>, listed: seq<VPNClient>, clients: seq<VPNClient>, newHostname: bool)
      returns (hosts: string)
      requires AllNamed(hostnames, listed, clients)
      ensures listed != [] ==> hosts == HostsText(hostnames, listed)
    {
      hosts := "";
      if |clients| > 0 || newHostname {
        hosts := WriteDNSHosts(hostnames, clients);
        forall k | 0 <= k < |listed|
          ensures clients[k] == listed[k].(hostname := clients[k].hostname)
        {
          assert Named(hostnames, listed[k], clients[k]);
        }
        SameText(hostnames, listed, clients);
      }
    }

    /** Saves if there is a new name. */
    method SaveNames(newHostname: bool, ghost r: Reg)
      requires docker.Valid() && view.Keys == instances.Keys && OneEach(disk.file)
      requires forall x :: x in instances ==> Mirrors(instances[x], x, view[x])
      requires r == Reg(view, docker.containers, if newHostname then view else DecodeFile(disk.file))
      modifies disk
      ensures Valid() && Snapshot() == r
    {
      if newHostname {
        SaveInstances();
      }
    }

    /** GetInstanceClients for an instance that exists. */
    method ListNamed(inst: Instance, listed: seq<VPNClient>, dice: Cn -> Dice)
      returns (clients: seq<VPNClient>, hosts: string, ghost ops: seq<Op>)
      requires Valid() && inst.id in instances && instances[inst.id] == inst
      requires forall cn :: Fair(dice(cn))
      modifies this`view, inst, disk
      ensures Valid() && view.Keys == old(view).Keys
      ensures RunOk(old(Snapshot()), ops) && (forall op :: op in ops ==> op.NameClient? && op.id == inst.id)
      ensures Snapshot() == RunOps(old(Snapshot()), ops)
      ensures AllNamed(view[inst.id].hostnames, listed, clients)
      ensures listed != [] ==> hosts == HostsText(view[inst.id].hostnames, listed)
    {
      var newHostname;
      clients, newHostname, ops := NameClients(inst, listed, dice);
      assert Mirrors(inst, inst.id, view[inst.id]);
      hosts := WriteHosts(inst.hostnames, listed, clients, newHostname);
      SaveNames(newHostname, RunOps(old(Snapshot()), ops));
    }

    /** GetInstanceClients; listed is what GetClients returned, hosts what writeDNSHosts wrote. */
    method GetInstanceClients(id: Id, listed: seq<VPNClient>, dice: Cn -> Dice)
      returns (r: Result<seq<VPNClient>, string>, hosts: string, ghost ops: seq<Op>)
      requires Valid() && forall cn :: Fair(dice(cn))
      modifies this, disk, instances.Values
      ensures Valid() && instances == old(instances)
      ensures r.Ok? <==> id in instances
      ensures RunOk(old(Snapshot()), ops) && (forall op :: op in ops ==> op.NameClient? && op.id == id)
      ensures Snapshot() == RunOps(old(Snapshot()), ops)
      ensures r.Ok? ==> AllNamed(view[id].hostnames, listed, r.value)
      ensures r.Ok? && listed != [] ==> hosts == HostsText(view[id].hostnames, listed)
    {
      if id !in instances {
        return Err("instance not found"), "", [];
      }
      assert Mirrors(instances[id], id, view[id]);
      var clients;
      clients, hosts, ops := ListNamed(instances[id], listed, dice);
      return Ok(clients), hosts, ops;
    }

    /** Shutdown: the process is about to end.  Records and file stay as they are. */
    method Shutdown()
      requires Valid()
      modifies docker
      ensures Valid()
      ensures docker.containers == old(docker.containers) - ContainersOf(view)
    {
      var rest := instances.Keys;
      while rest != {}
        invariant rest <= instances.Keys
        invariant docker.Valid() && Valid()
        invariant docker.containers == old(docker.containers) - ContainersOf(view - rest)
        decreases rest
      {
        var id :| id in rest;
        AddContainer(view, rest, id);
        assert Mirrors(instances[id], id, view[id]);
        if instances[id].containerID != NO_CONTAINER {
          docker.ContainerRemove(instances[id].containerID);
        }
        rest := rest - {id};
      }
      assert view - {} == view;
    }
  }

  ghost predicate Extends(a: map<Cn, string>, b: map<Cn, string>) {
    forall cn :: cn in a ==> cn in b && b[cn] == a[cn]
  }

  /** What GetInstanceClients makes of a listed client. */
  ghost predicate Named(hostnames: map<Cn, string>, c: VPNClient, named: VPNClient) {
    c.commonName in hostnames && named == c.(hostname := hostnames[c.commonName])
  }

  ghost predicate AllNamed(hostnames: map<Cn, string>, cs: seq<VPNClient>, named: seq<VPNClient>) {
    |named| == |cs| && forall k :: 0 <= k < |cs| ==> Named(hostnames, cs[k], named[k])
  }

  lemma NamedMore(before: map<Cn, string>, after: map<Cn, string>, listed: seq<VPNClient>, named: seq<VPNClient>, i: nat)
    requires i < |listed| && AllNamed(before, listed[..i], named) && Extends(before, after)
    requires listed[i].commonName in after
    ensures AllNamed(after, listed[..i + 1], named + [listed[i].(hostname := after[listed[i].commonName])])
  {
    forall k | 0 <= k < i
      ensures Named(after, listed[k], named[k])
    {
      assert Named(before, listed[..i][k], named[k]);
    }
  }

  /** What loadInstances makes of a record. */
  function Reloaded(rec: Record, outcome: StartOutcome): Record {
    if outcome.Started? then rec.(containerID := outcome.container, status := Running)
    else rec.(containerID := NO_CONTAINER, status := Stopped)
  }

  function Obtained(outcome: StartOutcome): set<ContainerID> {
    if outcome.Started? then {outcome.container} else {}
  }

  /** One round of loadInstances, and what the rounds so far add up to. */
  datatype Round = Round(rec: Record, outcome: StartOutcome)

  function Recs(rounds: seq<Round>): seq<Record> {
    if rounds == [] then [] else Recs(rounds[..|rounds| - 1]) + [rounds[|rounds| - 1].rec]
  }

  function UpOf(rounds: seq<Round>): map<Id, ContainerID> {
    if rounds == [] then map[]
    else Up(UpOf(rounds[..|rounds| - 1]), rounds[|rounds| - 1].rec.id, rounds[|rounds| - 1].outcome)
  }

  function ViewOf(rounds: seq<Round>): View {
    if rounds == [] then map[]
    else
      var last := rounds[|rounds| - 1];
      ViewOf(rounds[..|rounds| - 1])[last.rec.id := Reloaded(last.rec, last.outcome)]
  }

  function HeldOf(rounds: seq<Round>, left: set<ContainerID>): set<ContainerID> {
    if rounds == [] then left
    else
      var last := rounds[|rounds| - 1];
      HeldOf(rounds[..|rounds| - 1], left) - {last.rec.containerID} + Obtained(last.outcome)
  }

  ghost predicate Planned(rounds: seq<Round>, plan: Id -> Plan) {
    forall k :: 0 <= k < |rounds| ==> (rounds[k].outcome.Started? <==> plan(rounds[k].rec.id) == AllFine)
  }

  /** The containers obtained lie above low, up to high, and rise. */
  predicate Rising(rounds: seq<Round>, low: ContainerID, high: ContainerID) {
    rounds == [] ||
    var last := rounds[|rounds| - 1].outcome;
    if last.Started? then low < last.container <= high && Rising(rounds[..|rounds| - 1], low, last.container - 1)
    else Rising(rounds[..|rounds| - 1], low, high)
  }

  lemma {:induction false} RisingMore(rounds: seq<Round>, low: ContainerID, high: ContainerID, higher: ContainerID)
    requires Rising(rounds, low, high) && high <= higher
    ensures Rising(rounds, low, higher)
  {
    if rounds == [] || rounds[|rounds| - 1].outcome.Started? {
    } else {
      RisingMore(rounds[..|rounds| - 1], low, high, higher);
    }
  }

  lemma RisingNext(rounds: seq<Round>, next: Round, low: ContainerID, high: ContainerID, top: ContainerID)
    requires Rising(rounds, low, high) && low <= high <= top
    requires next.outcome.Started? ==> high < next.outcome.container <= top
    ensures Rising(rounds + [next], low, top)
  {
    var more := rounds + [next];
    assert more[..|more| - 1] == rounds;
    RisingMore(rounds, low, high, if next.outcome.Started? then next.outcome.container - 1 else top);
  }

  /** What a number of rounds has made of the registry and of Docker, whose ids have risen from last to high. */
  ghost predicate InRounds(rounds: seq<Round>, view: View, held: set<ContainerID>, left: set<ContainerID>,
                           last: ContainerID, high: ContainerID) {
    view == ViewOf(rounds) && held == HeldOf(rounds, left) && Rising(rounds, last, high) && last <= high
  }

  lemma OneRoundMore(rounds: seq<Round>, next: Round, view: View, held: set<ContainerID>, left: set<ContainerID>,
                     last: ContainerID, high: ContainerID, top: ContainerID)
    requires InRounds(rounds, view, held, left, last, high) && high <= top
    requires next.outcome.Started? ==> high < next.outcome.container <= top
    ensures InRounds(rounds + [next], view[next.rec.id := Reloaded(next.rec, next.outcome)],
                     held - {next.rec.containerID} + Obtained(next.outcome), left, last, top)
  {
    RisingNext(rounds, next, last, high, top);
    RoundsMore(rounds, next, left);
  }

  lemma {:induction false} PlannedMore(before: seq<Round>, after: seq<Round>, records: seq<Record>, i: nat, plan: Id -> Plan)
    requires i < |records| && Recs(before) == records[..i] && Planned(before, plan)
    requires |after| == |before| + 1 && after[..|before|] == before
    requires after[|before|].rec == records[i]
    requires after[|before|].outcome.Started? <==> plan(records[i].id) == AllFine
    ensures Recs(after) == records[..i + 1] && Planned(after, plan)
  {
    assert records[..i + 1] == records[..i] + [records[i]];
    forall k | 0 <= k < |before|
      ensures after[k] == before[k]
    {
      assert after[..|before|][k] == before[k];
    }
  }

  lemma RoundsMore(rounds: seq<Round>, next: Round, left: set<ContainerID>)
    ensures var more := rounds + [next];
            && ViewOf(more) == ViewOf(rounds)[next.rec.id := Reloaded(next.rec, next.outcome)]
            && HeldOf(more, left) == HeldOf(rounds, left) - {next.rec.containerID} + Obtained(next.outcome)
  {
    var more := rounds + [next];
    assert more[..|more| - 1] == rounds;
  }

  /** The starts that succeeded among the records seen: new containers, all different. */
  ghost predicate UpOk(seen: View, plan: Id -> Plan, last: ContainerID, up: map<Id, ContainerID>) {
    && (forall id :: id in up <==> id in seen && plan(id) == AllFine)
    && (forall id :: id in up ==> up[id] > last)
    && (forall a, b :: a in up && b in up && a != b ==> up[a] != up[b])
  }

  /** Where loadInstances stands after the records seen. */
  ghost predicate Loaded(seen: View, left: set<ContainerID>, up: map<Id, ContainerID>, view: View, now: set<ContainerID>) {
    view == RestartView(seen, up) && now == left - ContainersOf(seen) + ContainersOf(view)
  }

  lemma {:induction false} DecodeIds(records: seq<Record>)
    ensures forall id :: id in Decode(records) <==> exists k :: 0 <= k < |records| && records[k].id == id
    ensures forall id :: id in Decode(records) ==> Decode(records)[id].id == id
  {
    if records == [] {
    } else {
      DecodeIds(records[..|records| - 1]);
      assert records == records[..|records| - 1] + [records[|records| - 1]];
    }
  }

  /** With one record per id, decoding finds each of them. */
  lemma {:induction false} DecodeAt(records: seq<Record>, k: nat)
    requires OneEach(Saved(records)) && k < |records|
    ensures records[k].id in Decode(records) && Decode(records)[records[k].id] == records[k]
  {
    var init := records[..|records| - 1];
    if k == |records| - 1 {
    } else {
      DecodeAt(init, k);
      assert init[k] == records[k];
    }
  }

  lemma BoundedIds(records: seq<Record>, containers: set<ContainerID>, last: ContainerID)
    requires OneEach(Saved(records)) && Conserved(Decode(records), containers)
    requires forall c :: c in containers ==> c <= last
    ensures forall k :: 0 <= k < |records| ==> records[k].containerID <= last
  {
    forall k | 0 <= k < |records|
      ensures records[k].containerID <= last
    {
      DecodeAt(records, k);
      assert records[k].containerID in ContainersOf(Decode(records)) + {NO_CONTAINER};
    }
  }

  function Up(up: map<Id, ContainerID>, id: Id, outcome: StartOutcome): map<Id, ContainerID> {
    if outcome.Started? then up[id := outcome.container] else up
  }

  lemma ReviveMore(seen: View, up: map<Id, ContainerID>, rec: Record, outcome: StartOutcome)
    requires rec.id !in seen && rec.id !in up && forall id :: id in seen ==> seen[id].id == id
    ensures RestartView(seen[rec.id := rec], Up(up, rec.id, outcome))
            == RestartView(seen, up)[rec.id := Revived(rec, Up(up, rec.id, outcome))]
  {}

  lemma ContainersStep(seen: View, view: View, rec: Record, revived: Record,
                       left: set<ContainerID>, now: set<ContainerID>, last: ContainerID)
    requires rec.id !in seen && rec.id !in view && revived.id == rec.id
    requires now == left - ContainersOf(seen) + ContainersOf(view)
    requires rec.containerID <= last && forall c :: c in ContainersOf(view) ==> c > last
    requires NO_CONTAINER !in left
    requires revived.containerID == NO_CONTAINER || revived.containerID > last
    ensures now - {rec.containerID} + ({revived.containerID} - {NO_CONTAINER})
            == left - ContainersOf(seen[rec.id := rec]) + ContainersOf(view[rec.id := revived])
  {
    ContainersMore(seen, rec);
    ContainersMore(view, revived);
  }

  lemma UpMore(seen: View, rec: Record, plan: Id -> Plan, last: ContainerID, up: map<Id, ContainerID>, outcome: StartOutcome)
    requires UpOk(seen, plan, last, up) && rec.id !in seen
    requires outcome.Started? <==> plan(rec.id) == AllFine
    requires outcome.Started? ==> outcome.container > last && forall id :: id in up ==> up[id] != outcome.container
    ensures UpOk(seen[rec.id := rec], plan, last, Up(up, rec.id, outcome))
  {}

  lemma RevivedAbove(seen: View, plan: Id -> Plan, last: ContainerID, up: map<Id, ContainerID>)
    requires UpOk(seen, plan, last, up) && forall id :: id in seen ==> seen[id].id == id
    ensures forall c :: c in ContainersOf(RestartView(seen, up)) ==> c > last
  {}

  lemma LoadedMore(seen: View, rec: Record, plan: Id -> Plan, left: set<ContainerID>, last: ContainerID,
                   up: map<Id, ContainerID>, view: View, now: set<ContainerID>, outcome: StartOutcome)
    requires rec.id !in seen && forall id :: id in seen ==> seen[id].id == id
    requires rec.containerID <= last && NO_CONTAINER !in left && (outcome.Started? ==> outcome.container > last)
    requires UpOk(seen, plan, last, up) && Loaded(seen, left, up, view, now)
    ensures Loaded(seen[rec.id := rec], left, Up(up, rec.id, outcome), view[rec.id := Reloaded(rec, outcome)],
                   now - {rec.containerID} + Obtained(outcome))
  {
    ReviveMore(seen, up, rec, outcome);
    assert Revived(rec, Up(up, rec.id, outcome)) == Reloaded(rec, outcome);
    RevivedAbove(seen, plan, last, up);
    ContainersStep(seen, view, rec, Reloaded(rec, outcome), left, now, last);
    assert {Reloaded(rec, outcome).containerID} - {NO_CONTAINER} == Obtained(outcome);
  }

  lemma DecodeMore(records: seq<Record>, rec: Record)
    requires OneEach(Saved(records + [rec]))
    ensures OneEach(Saved(records)) && Decode(records + [rec]) == Decode(records)[rec.id := rec]
    ensures rec.id !in Decode(records)
    ensures forall id :: id in Decode(records) ==> Decode(records)[id].id == id
  {
    var more := records + [rec];
    assert more[..|more| - 1] == records;
    DecodeIds(records);
    forall i, j | 0 <= i < j < |records|
      ensures records[i].id != records[j].id
    {
      assert more[i].id != more[j].id;
    }
    forall k | 0 <= k < |records|
      ensures records[k].id != rec.id
    {
      assert more[k].id != more[|records|].id;
    }
  }

  lemma NotYet(records: seq<Record>, i: nat, rounds: seq<Round>)
    requires i < |records| && OneEach(Saved(records)) && Recs(rounds) == records[..i]
    ensures records[i].id !in ViewOf(rounds)
  {
    SameKeys(rounds);
    DecodeIds(records[..i]);
  }

  lemma {:induction false} SameKeys(rounds: seq<Round>)
    ensures ViewOf(rounds).Keys == Decode(Recs(rounds)).Keys
  {
    if rounds == [] {
    } else {
      var init, last := rounds[..|rounds| - 1], rounds[|rounds| - 1];
      SameKeys(init);
      assert Recs(rounds)[..|Recs(rounds)| - 1] == Recs(init);
    }
  }

  /** All rounds together. */
  lemma {:induction false} RoundsUp(rounds: seq<Round>, plan: Id -> Plan, left: set<ContainerID>, last: ContainerID, top: ContainerID)
    requires OneEach(Saved(Recs(rounds))) && Planned(rounds, plan) && Rising(rounds, last, top)
    requires NO_CONTAINER !in left && forall k :: 0 <= k < |rounds| ==> rounds[k].rec.containerID <= last
    ensures UpOk(Decode(Recs(rounds)), plan, last, UpOf(rounds))
    ensures forall id :: id in UpOf(rounds) ==> UpOf(rounds)[id] <= top
    ensures Loaded(Decode(Recs(rounds)), left, UpOf(rounds), ViewOf(rounds), HeldOf(rounds, left))
  {
    if rounds == [] {
      assert ContainersOf(map[]) == {};
    } else {
      var init, next := rounds[..|rounds| - 1], rounds[|rounds| - 1];
      DecodeMore(Recs(init), next.rec);
      var seen, up := Decode(Recs(init)), UpOf(init);
      RoundsUp(init, plan, left, last, if next.outcome.Started? then next.outcome.container - 1 else top);
      UpMore(seen, next.rec, plan, last, up, next.outcome);
      LoadedMore(seen, next.rec, plan, left, last, up, ViewOf(init), HeldOf(init, left), next.outcome);
    }
  }

  lemma {:induction false} RecsAt(rounds: seq<Round>)
    ensures |Recs(rounds)| == |rounds| && forall k :: 0 <= k < |rounds| ==> Recs(rounds)[k] == rounds[k].rec
  {
    if rounds == [] {
    } else {
      RecsAt(rounds[..|rounds| - 1]);
    }
  }

  lemma RoundsLoaded(r: Reg, clean: bool, rounds: seq<Round>, plan: Id -> Plan, last: ContainerID, top: ContainerID)
    requires Inv(r) && OneEach(Saved(Recs(rounds))) && r.saved == Decode(Recs(rounds))
    requires Planned(rounds, plan) && Rising(rounds, last, top)
    requires forall c :: c in r.containers ==> c <= last
    ensures var left := if clean then r.containers - ContainersOf(r.view) else r.containers;
            Reg(ViewOf(rounds), HeldOf(rounds, left), ViewOf(rounds)) == DoRestart(r, clean, UpOf(rounds))
    ensures EnvOk(r, Restart(clean, UpOf(rounds)))
    ensures forall id :: id in UpOf(rounds) <==> id in r.view && plan(id) == AllFine
  {
    BoundedIds(Recs(rounds), r.containers, last);
    RecsAt(rounds);
    var left := if clean then r.containers - ContainersOf(r.view) else r.containers;
    RoundsUp(rounds, plan, left, last, top);
  }

  lemma ContainersMore(v: View, rec: Record)
    requires rec.id !in v
    ensures ContainersOf(v[rec.id := rec]) == ContainersOf(v) + ({rec.containerID} - {NO_CONTAINER})
  {
    var v' := v[rec.id := rec];
    assert v'[rec.id] == rec;
    assert forall id :: id in v ==> id in v' && v'[id] == v[id];
  }

  /** The text does not depend on the hostname fields of the clients. */
  lemma {:induction false} SameText(hostnames: map<Cn, string>, a: seq<VPNClient>, b: seq<VPNClient>)
    requires |a| == |b| && forall k :: 0 <= k < |a| ==> b[k] == a[k].(hostname := b[k].hostname)
    ensures HostsText(hostnames, a) == HostsText(hostnames, b)
  {
    if a == [] {
    } else {
      assert b[0] == a[0].(hostname := b[0].hostname);
      SameText(hostnames, a[1..], b[1..]);
    }
  }

  lemma AddContainer(v: View, rest: set<Id>, id: Id)
    requires id in rest && id in v
    ensures ContainersOf(v - (rest - {id})) == ContainersOf(v - rest) + ({v[id].containerID} - {NO_CONTAINER})
  {
    var big, small := v - (rest - {id}), v - rest;
    assert big[id] == v[id];
    assert forall i :: i in big ==> i == id || (i in small && small[i] == big[i]);
    assert forall i :: i in small ==> i in big && small[i] == big[i];
  }

  lemma AddSubnet(v: View, rest: set<Id>, id: Id)
    requires id in rest && id in v
    ensures UsedSubnets(v - (rest - {id})) == UsedSubnets(v - rest) + {v[id].subnet}
  {
    var big, small := v - (rest - {id}), v - rest;
    assert big[id] == v[id];
    assert forall i :: i in big ==> i == id || (i in small && small[i] == big[i]);
    assert forall i :: i in small ==> i in big && small[i] == big[i];
  }
}
