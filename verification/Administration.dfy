/**
 The administrator steps of module Protocol are the operations of module Registry: both describe the same instances
 after each of them.
 */
module Administration {
  import opened Text
  import P = Protocol
  import R = Registry

  /** The protocol's numbers for the instances' UUIDs. */
  ghost predicate Naming(name: P.Id -> R.Id) {
    forall a, b :: name(a) == name(b) ==> a == b
  }

  /** A record, as far as requests and kicks depend on it. */
  predicate SameInstance(i: P.Instance, rec: R.Record) {
    && (i.running <==> rec.status == R.Running)
    && i.locked == rec.locked && i.maxClients == rec.maxClients
  }

  /** Both hold the same instances. */
  ghost predicate SameInstances(insts: map<P.Id, P.Instance>, view: R.View, name: P.Id -> R.Id) {
    && (forall id :: name(id) in view <==> id in insts && insts[id].live)
    && (forall id :: id in insts && insts[id].live && name(id) in view ==> SameInstance(insts[id], view[name(id)]))
  }

  /** The step of the protocol that an operation is, if it changes anything the protocol knows. */
  ghost predicate IsStep(s: P.State, r: R.Reg, op: R.Op, a: Option<P.AdminStep>, name: P.Id -> R.Id) {
    match op
    case Create(id, _, _, prepared, outcome) =>
      if prepared && outcome.Started? then a.Some? && a.value.Create? && name(a.value.id) == id && a.value.id !in s.insts
      else a.None?
    case Start(id, outcome) =>
      if id in r.view && outcome.Started? then a.Some? && a.value.Start? && name(a.value.id) == id else a.None?
    case Stop(id) => if id in r.view then a.Some? && a.value.Stop? && name(a.value.id) == id else a.None?
    case Delete(id) => if id in r.view then a.Some? && a.value.Delete? && name(a.value.id) == id else a.None?
    case SetLocked(id, locked) =>
      if id in r.view then a.Some? && a.value.SetLocked? && name(a.value.id) == id && a.value.locked == locked else a.None?
    case SetMaxClients(id, max) =>
      if id in r.view then a.Some? && a.value.SetMaxClients? && name(a.value.id) == id && a.value.max == max else a.None?
    case Restart(_, up) => a.Some? && a.value.Restart? && forall id :: id in a.value.up <==> name(id) in up
    case _ => a.None?
  }

  /** The instances after the step. */
  function Stepped(s: P.State, a: Option<P.AdminStep>): map<P.Id, P.Instance>
    requires a.Some? ==> P.AdminCan(s, a.value)
  {
    if a.Some? then P.AdminNext(s, a.value).insts else s.insts
  }

  /** The operation's own instance. */
  lemma OwnInstance(s: P.State, r: R.Reg, op: R.Op, a: Option<P.AdminStep>, name: P.Id -> R.Id, id: P.Id)
    requires R.Inv(r) && R.EnvOk(r, op) && Naming(name) && SameInstances(s.insts, r.view, name)
    requires IsStep(s, r, op, a, name) && a.Some? && P.AdminCan(s, a.value) && !op.Restart? && a.value.id == id
    ensures name(id) in R.Do(r, op).view <==> id in Stepped(s, a) && Stepped(s, a)[id].live
    ensures name(id) in R.Do(r, op).view && id in Stepped(s, a) ==>
              SameInstance(Stepped(s, a)[id], R.Do(r, op).view[name(id)])
  {
    if name(id) in r.view {
      assert r.view[name(id)].id == name(id);
      assert SameInstance(s.insts[id], r.view[name(id)]);
    }
  }

  lemma OtherInstance(s: P.State, r: R.Reg, op: R.Op, a: Option<P.AdminStep>, name: P.Id -> R.Id, id: P.Id)
    requires R.Inv(r) && R.EnvOk(r, op) && Naming(name) && SameInstances(s.insts, r.view, name)
    requires IsStep(s, r, op, a, name) && (a.Some? ==> P.AdminCan(s, a.value)) && !op.Restart?
    requires a.Some? ==> a.value.id != id
    ensures name(id) in R.Do(r, op).view <==> id in Stepped(s, a) && Stepped(s, a)[id].live
    ensures name(id) in R.Do(r, op).view && id in Stepped(s, a) ==>
              SameInstance(Stepped(s, a)[id], R.Do(r, op).view[name(id)])
  {
    Unchanged(s, a, id);
    if name(id) in r.view {
      assert SameInstance(s.insts[id], r.view[name(id)]);
      if op.id == name(id) {
        assert r.view[name(id)].id == name(id);
      } else {
        R.OtherRecordStays(r, op, name(id));
      }
    }
  }

  lemma Unchanged(s: P.State, a: Option<P.AdminStep>, id: P.Id)
    requires a.Some? ==> P.AdminCan(s, a.value) && !a.value.Restart? && a.value.id != id
    ensures id in Stepped(s, a) <==> id in s.insts
    ensures id in s.insts ==> Stepped(s, a)[id] == s.insts[id]
  {}

  lemma RestartedInstance(s: P.State, r: R.Reg, clean: bool, up: map<R.Id, R.ContainerID>, ids: set<P.Id>,
                          name: P.Id -> R.Id, id: P.Id)
    requires R.Inv(r) && SameInstances(s.insts, r.view, name) && forall i :: i in ids <==> name(i) in up
    ensures var v, insts := R.Do(r, R.Restart(clean, up)).view, P.AdminNext(s, P.Restart(ids)).insts;
            && (name(id) in v <==> id in insts && insts[id].live)
            && (name(id) in v && id in insts ==> SameInstance(insts[id], v[name(id)]))
  {
    if name(id) in r.view {
      assert r.view[name(id)].id == name(id);
      assert SameInstance(s.insts[id], r.view[name(id)]);
    }
  }

  /** Whatever operation the registry takes, the step of the protocol that belongs to it is possible and leads to the same
      instances, with the same status, lock and limit. */
  lemma Follows(s: P.State, r: R.Reg, op: R.Op, a: Option<P.AdminStep>, name: P.Id -> R.Id)
    requires R.Inv(r) && R.EnvOk(r, op) && Naming(name) && SameInstances(s.insts, r.view, name)
    requires IsStep(s, r, op, a, name)
    ensures a.Some? ==> P.AdminCan(s, a.value)
    ensures SameInstances(Stepped(s, a), R.Do(r, op).view, name)
  {
    var v, insts := R.Do(r, op).view, Stepped(s, a);
    forall id
      ensures name(id) in v <==> id in insts && insts[id].live
      ensures name(id) in v && id in insts ==> SameInstance(insts[id], v[name(id)])
    {
      if op.Restart? {
        RestartedInstance(s, r, op.clean, op.up, a.value.up, name, id);
      } else if a.Some? && a.value.id == id {
        OwnInstance(s, r, op, a, name, id);
      } else {
        OtherInstance(s, r, op, a, name, id);
      }
    }
  }
}
