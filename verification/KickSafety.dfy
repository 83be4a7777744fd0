/** A finished kick keeps its client out, whatever runs beside it and afterwards. */
module KickSafety {
  import opened Vpn
  import opened Protocol
  import opened Requests

  /** The CCD file is in place, or no instance is left that could read it. */
  predicate Disabled(s: State, id: Id, cn: Cn) {
    id in s.insts && (Live(s, id) ==> (id, cn) in s.ccd)
  }

  predicate InProgress(k: Kicker) {
    k.pc != Disable && !k.pc.Ended?
  }

  /** What every step keeps about one kick: an HTTP kick past its first write did write; a kick that wrote has
      its file in place; only a kick of a known instance reaches the management command. */
  predicate KickerOk(s: State, k: Kicker) {
    && (k.handler && InProgress(k) ==> k.wrote)
    && (k.wrote ==> Disabled(s, k.inst, k.cn))
    && (k.pc == Kill ==> k.inst in s.insts && ValidCN(k.cn))
  }

  predicate KickersOk(s: State) {
    forall kid :: kid in s.kickers ==> KickerOk(s, s.kickers[kid])
  }

  predicate OnlineRunning(s: State) {
    forall o :: o in s.online ==> Running(s, o.inst)
  }

  /** Deleting an instance removes its directory, so only live instances have CCD files. */
  predicate FilesLive(s: State) {
    forall f :: f in s.ccd ==> Live(s, f.0)
  }

  /** The invariant behind kick safety. */
  predicate KickInv(s: State) {
    KickersOk(s) && OnlineRunning(s) && FilesLive(s)
  }

  lemma DisabledStays(s: State, l: Label, id: Id, cn: Cn)
    requires Enabled(s, l) && Disabled(s, id, cn)
    ensures Disabled(Apply(s, l), id, cn)
  {}

  lemma KickerKeeps(s: State, k: Kicker, step: KickStep)
    requires KickerOk(s, k) && KickCan(s, k, step)
    ensures var k' := KickNext(s, k, step);
            && (k'.handler && InProgress(k') ==> k'.wrote)
            && (k'.wrote ==> Disabled(KickEffect(s, k, step), k.inst, k.cn))
            && (k'.pc == Kill ==> k.inst in s.insts && ValidCN(k.cn))
  {}

  /** A kick after a step that is not its own. */
  lemma KickerFrame(s: State, l: Label, kid: Kid)
    requires Enabled(s, l) && kid in Apply(s, l).kickers && !(l.Kick? && l.kid == kid)
    ensures kid in s.kickers ==> Apply(s, l).kickers[kid] == s.kickers[kid]
    ensures kid !in s.kickers ==> Apply(s, l).kickers[kid].pc == Disable && !Apply(s, l).kickers[kid].wrote
  {}

  lemma OwnKick(s: State, l: Label)
    requires Enabled(s, l) && l.Kick? && KickerOk(s, s.kickers[l.kid])
    ensures KickerOk(Apply(s, l), Apply(s, l).kickers[l.kid])
  {
    var k := s.kickers[l.kid];
    KickerKeeps(s, k, l.k);
    var effect, s' := KickEffect(s, k, l.k), Apply(s, l);
    assert s'.insts == effect.insts && s'.ccd == effect.ccd && s'.kickers[l.kid] == KickNext(s, k, l.k);
    assert effect.insts == s.insts;
  }

  lemma KickersStep(s: State, l: Label, kid: Kid)
    requires Enabled(s, l) && kid in Apply(s, l).kickers
    requires kid in s.kickers ==> KickerOk(s, s.kickers[kid])
    ensures KickerOk(Apply(s, l), Apply(s, l).kickers[kid])
  {
    if l.Kick? && l.kid == kid {
      OwnKick(s, l);
    } else {
      KickerFrame(s, l, kid);
      if kid in s.kickers {
        OtherStep(s, l, s.kickers[kid]);
      }
    }
  }

  /** What is known of a kick stays known while others step. */
  lemma OtherStep(s: State, l: Label, k: Kicker)
    requires Enabled(s, l) && KickerOk(s, k)
    ensures KickerOk(Apply(s, l), k)
  {
    if Disabled(s, k.inst, k.cn) {
      DisabledStays(s, l, k.inst, k.cn);
    }
    IdsStay(s, l);
  }

  lemma IdsStay(s: State, l: Label)
    requires Enabled(s, l)
    ensures s.insts.Keys <= Apply(s, l).insts.Keys
  {}

  /** A step that ends the clients of an instance. */
  predicate Ends(l: Label, id: Id) {
    l.Admin? && (l.a.Restart? || l.a == Stop(id) || l.a == Delete(id))
  }

  lemma InstanceStays(s: State, l: Label, id: Id)
    requires Enabled(s, l)
    ensures Live(s, id) && l != Admin(Delete(id)) ==> Live(Apply(s, l), id)
    ensures Running(s, id) && !Ends(l, id) ==> Running(Apply(s, l), id)
  {}

  lemma OnlineFrom(s: State, l: Label, o: Online)
    requires Enabled(s, l) && o in Apply(s, l).online
    ensures !Ends(l, o.inst) && (o in s.online || Running(s, o.inst))
  {}

  lemma RunningStays(s: State, l: Label, o: Online)
    requires OnlineRunning(s) && Enabled(s, l) && o in Apply(s, l).online
    ensures Running(Apply(s, l), o.inst)
  {
    OnlineFrom(s, l, o);
    InstanceStays(s, l, o.inst);
  }

  lemma OnlineStep(s: State, l: Label)
    requires OnlineRunning(s) && Enabled(s, l)
    ensures OnlineRunning(Apply(s, l))
  {
    forall o | o in Apply(s, l).online
      ensures Running(Apply(s, l), o.inst)
    {
      RunningStays(s, l, o);
    }
  }

  lemma FileFrom(s: State, l: Label, f: (Id, Cn))
    requires Enabled(s, l) && f in Apply(s, l).ccd
    ensures l != Admin(Delete(f.0)) && (f in s.ccd || Live(s, f.0))
  {}

  lemma FileStays(s: State, l: Label, f: (Id, Cn))
    requires FilesLive(s) && Enabled(s, l) && f in Apply(s, l).ccd
    ensures Live(Apply(s, l), f.0)
  {
    FileFrom(s, l, f);
    InstanceStays(s, l, f.0);
  }

  lemma FilesStep(s: State, l: Label)
    requires FilesLive(s) && Enabled(s, l)
    ensures FilesLive(Apply(s, l))
  {
    forall f | f in Apply(s, l).ccd
      ensures Live(Apply(s, l), f.0)
    {
      FileStays(s, l, f);
    }
  }

  lemma KickInvStep(s: State, l: Label)
    requires KickInv(s) && Enabled(s, l)
    ensures KickInv(Apply(s, l))
  {
    var s' := Apply(s, l);
    forall kid | kid in s'.kickers
      ensures KickerOk(s', s'.kickers[kid])
    {
      KickersStep(s, l, kid);
    }
    OnlineStep(s, l);
    FilesStep(s, l);
  }

  lemma {:induction false} KickInvRun(s: State, run: seq<Label>)
    requires KickInv(s) && Legal(s, run)
    ensures KickInv(After(s, run))
    decreases |run|
  {
    if run == [] {
    } else {
      KickInvStep(s, run[0]);
      KickInvRun(Apply(s, run[0]), run[1..]);
    }
  }

  /** Out: disabled and not connected.  No step lets such a client back in. */
  predicate Out(s: State, id: Id, cn: Cn) {
    Disabled(s, id, cn) && !Connected(s, id, cn)
  }

  lemma OutStays(s: State, l: Label, id: Id, cn: Cn)
    requires Enabled(s, l) && Out(s, id, cn)
    ensures Out(Apply(s, l), id, cn)
  {
    DisabledStays(s, l, id, cn);
    var s' := Apply(s, l);
    if o :| o in s'.online && o.inst == id && o.cn == cn {
      assert o !in s.online;
    }
  }

  lemma {:induction false} OutForever(s: State, run: seq<Label>, id: Id, cn: Cn)
    requires Legal(s, run) && Out(s, id, cn)
    ensures Out(After(s, run), id, cn)
    decreases |run|
  {
    if run == [] {
    } else {
      OutStays(s, run[0], id, cn);
      OutForever(Apply(s, run[0]), run[1..], id, cn);
    }
  }

  // ---------- What finished kicks leave behind ----------

  /** It wrote its file, and the management command went through. */
  predicate Through(k: Kicker) {
    k.pc == Ended(true) && k.wrote
  }

  /** Whoever a finished kick disabled and killed is out. */
  predicate ThroughOut(s: State) {
    forall kid :: kid in s.kickers && Through(s.kickers[kid]) ==> Out(s, s.kickers[kid].inst, s.kickers[kid].cn)
  }

  lemma KillOut(s: State, kid: Kid)
    requires kid in s.kickers && KickerOk(s, s.kickers[kid]) && s.kickers[kid].wrote
    requires Enabled(s, Kick(kid, MgmtKill(true)))
    ensures Out(Apply(s, Kick(kid, MgmtKill(true))), s.kickers[kid].inst, s.kickers[kid].cn)
  {}

  lemma ThroughStep(s: State, l: Label)
    requires KickInv(s) && ThroughOut(s) && Enabled(s, l)
    ensures ThroughOut(Apply(s, l))
  {
    var s' := Apply(s, l);
    forall kid | kid in s'.kickers && Through(s'.kickers[kid])
      ensures Out(s', s'.kickers[kid].inst, s'.kickers[kid].cn)
    {
      ThroughAt(s, l, kid);
    }
  }

  lemma ThroughAt(s: State, l: Label, kid: Kid)
    requires KickInv(s) && ThroughOut(s) && Enabled(s, l)
    requires kid in Apply(s, l).kickers && Through(Apply(s, l).kickers[kid])
    ensures Out(Apply(s, l), Apply(s, l).kickers[kid].inst, Apply(s, l).kickers[kid].cn)
  {
    if l.Kick? && l.kid == kid {
      OwnEnd(s, l);
      assert KickerOk(s, s.kickers[kid]);
      KillOut(s, kid);
    } else {
      KickerFrame(s, l, kid);
      OutStays(s, l, s.kickers[kid].inst, s.kickers[kid].cn);
    }
  }

  lemma OwnEnd(s: State, l: Label)
    requires Enabled(s, l) && l.Kick? && Through(Apply(s, l).kickers[l.kid])
    ensures l.k == MgmtKill(true) && s.kickers[l.kid].wrote
    ensures Apply(s, l).kickers[l.kid].inst == s.kickers[l.kid].inst && Apply(s, l).kickers[l.kid].cn == s.kickers[l.kid].cn
  {
    var k' := Apply(s, l).kickers[l.kid];
    assert k' == KickNext(s, s.kickers[l.kid], l.k);
  }

  /** A kick is not forgotten while the process lives. */
  lemma KickStays(s: State, l: Label, kid: Kid)
    requires Enabled(s, l) && !IsRestart(l) && kid in s.kickers
    ensures kid in Apply(s, l).kickers
    ensures var k, k' := s.kickers[kid], Apply(s, l).kickers[kid];
            k'.handler == k.handler && k'.inst == k.inst && k'.cn == k.cn && (k.wrote ==> k'.wrote) && (k.pc.Ended? ==> k' == k)
  {
    if l.Kick? && l.kid == kid {
      assert Apply(s, l).kickers[kid] == KickNext(s, s.kickers[kid], l.k);
    }
  }

  /** Some kick of the name wrote its file. */
  predicate Written(s: State, id: Id, cn: Cn) {
    exists kid :: kid in s.kickers && s.kickers[kid].inst == id && s.kickers[kid].cn == cn && s.kickers[kid].wrote
  }

  /** A name that was not disabled is disabled now only if a kick wrote its file. */
  predicate OnlyKicksWrite(before: set<(Id, Cn)>, s: State) {
    forall f :: f in s.ccd ==> f in before || Written(s, f.0, f.1)
  }

  lemma WrittenStays(s: State, l: Label, id: Id, cn: Cn)
    requires Enabled(s, l) && !IsRestart(l) && Written(s, id, cn)
    ensures Written(Apply(s, l), id, cn)
  {
    var kid :| kid in s.kickers && s.kickers[kid].inst == id && s.kickers[kid].cn == cn && s.kickers[kid].wrote;
    KickStays(s, l, kid);
  }

  lemma NewFile(s: State, l: Label, f: (Id, Cn))
    requires Enabled(s, l) && f in Apply(s, l).ccd && f !in s.ccd
    ensures Written(Apply(s, l), f.0, f.1)
  {
    FileWriter(s, l, f);
    var k, k' := s.kickers[l.kid], Apply(s, l).kickers[l.kid];
    assert k' == KickNext(s, k, l.k);
    assert l.kid in Apply(s, l).kickers && k'.inst == f.0 && k'.cn == f.1 && k'.wrote;
  }

  lemma FileWriter(s: State, l: Label, f: (Id, Cn))
    requires Enabled(s, l) && f in Apply(s, l).ccd && f !in s.ccd
    ensures l.Kick? && f == (s.kickers[l.kid].inst, s.kickers[l.kid].cn) && l.k in {DisableCN(true), RewriteCCD(true)}
  {}

  lemma OnlyKicksStep(before: set<(Id, Cn)>, s: State, l: Label)
    requires OnlyKicksWrite(before, s) && Enabled(s, l) && !IsRestart(l)
    ensures OnlyKicksWrite(before, Apply(s, l))
  {
    forall f | f in Apply(s, l).ccd && f !in before
      ensures Written(Apply(s, l), f.0, f.1)
    {
      if f in s.ccd {
        WrittenStays(s, l, f.0, f.1);
      } else {
        NewFile(s, l, f);
      }
    }
  }

  // ---------- Main results ----------

  /** The step that ends a kick: the management command went through. */
  predicate Kicks(s: State, l: Label) {
    l.Kick? && l.k == MgmtKill(true) && Enabled(s, l)
  }

  /** Once a kick that wrote its CCD file has killed its client, the client is connected in no later state of
      the run: not after reconnects, other kicks, stops, starts, restarts or the deletion of the instance. */
  lemma KickedStaysOut(s0: State, before: seq<Label>, kill: Label, later: seq<Label>)
    requires Init(s0) && Legal(s0, before) && Kicks(After(s0, before), kill)
    requires After(s0, before).kickers[kill.kid].wrote
    requires Legal(Apply(After(s0, before), kill), later)
    ensures var k := After(s0, before).kickers[kill.kid];
            !Connected(After(Apply(After(s0, before), kill), later), k.inst, k.cn)
  {
    KickInvRun(s0, before);
    var s := After(s0, before);
    var k := s.kickers[kill.kid];
    assert KickerOk(s, k);
    OutForever(Apply(s, kill), later, k.inst, k.cn);
  }

  /** A kick requested over HTTP needs no condition: it stops when its first write fails. */
  lemma HandlerKickStaysOut(s0: State, before: seq<Label>, kill: Label, later: seq<Label>)
    requires Init(s0) && Legal(s0, before) && Kicks(After(s0, before), kill)
    requires After(s0, before).kickers[kill.kid].handler
    requires Legal(Apply(After(s0, before), kill), later)
    ensures var k := After(s0, before).kickers[kill.kid];
            !Connected(After(Apply(After(s0, before), kill), later), k.inst, k.cn)
  {
    KickInvRun(s0, before);
    var s := After(s0, before);
    assert KickerOk(s, s.kickers[kill.kid]);
    KickedStaysOut(s0, before, kill, later);
  }

  /** No run from s ever connects the client. */
  ghost predicate NeverConnects(s: State, id: Id, cn: Cn) {
    forall run :: Legal(s, run) ==> !Connected(After(s, run), id, cn)
  }

  /** A client that is not disabled can come back. */
  lemma WayBackIn(s: State, id: Id, cn: Cn) returns (run: seq<Label>)
    requires Live(s, id) && (id, cn) !in s.ccd
    ensures Legal(s, run) && Connected(After(s, run), id, cn)
  {
    var sid := Unused(s.sessions.Keys);
    var first := RoomMade(s, id);
    var second := RequestBridged(After(s, first), id, sid);
    Sequence(s, first, second);
    Extend(s, first + second, Vpn(Join(sid, cn)));
    run := first + second + [Vpn(Join(sid, cn))];
    assert Online(id, cn, After(s, first + second).sessions[sid].port) in After(s, run).online;
  }

  /** Exactly when a client that is offline can never come back: its file is in place, or the instance is gone.
      This is what a ban or timeout kick whose two writes both failed does not achieve. */
  lemma NeverConnectsIff(s: State, id: Id, cn: Cn)
    requires id in s.insts && !Connected(s, id, cn)
    ensures NeverConnects(s, id, cn) <==> !Live(s, id) || (id, cn) in s.ccd
  {
    if Disabled(s, id, cn) {
      forall run | Legal(s, run)
        ensures !Connected(After(s, run), id, cn)
      {
        OutForever(s, run, id, cn);
      }
    } else {
      var run := WayBackIn(s, id, cn);
      assert Legal(s, run) && Connected(After(s, run), id, cn);
    }
  }

  // ---------- Stopped and deleted instances ----------

  /** No step of the run brings the instance up. */
  predicate NotStarted(run: seq<Label>, id: Id) {
    run == [] || (run[0] != Admin(Start(id)) && !IsRestart(run[0]) && NotStarted(run[1..], id))
  }

  lemma StaysDown(s: State, l: Label, id: Id)
    requires Enabled(s, l) && id in s.insts && l != Admin(Start(id)) && !IsRestart(l)
    ensures id in Apply(s, l).insts && (!Running(s, id) ==> !Running(Apply(s, l), id))
  {}

  lemma {:induction false} DownRun(s: State, run: seq<Label>, id: Id)
    requires Legal(s, run) && id in s.insts && !Running(s, id) && NotStarted(run, id)
    ensures id in After(s, run).insts && !Running(After(s, run), id)
    decreases |run|
  {
    if run == [] {
    } else {
      StaysDown(s, run[0], id);
      DownRun(Apply(s, run[0]), run[1..], id);
    }
  }

  /** A stopped instance has no clients and lets no request in until it is started again, whatever else runs; its CCD
      files stay, and so do the clients of the others. */
  lemma StopHolds(s: State, run: seq<Label>, id: Id, sid: Sid, ip: string)
    requires KickInv(s) && Enabled(s, Admin(Stop(id))) && Legal(Apply(s, Admin(Stop(id))), run) && NotStarted(run, id)
    ensures var r := After(Apply(s, Admin(Stop(id))), run);
            (forall o :: o in r.online ==> o.inst != id) && !Enabled(r, Arrive(sid, id, ip))
    ensures var stopped := Apply(s, Admin(Stop(id)));
            stopped.ccd == s.ccd && forall o :: o in s.online && o.inst != id ==> o in stopped.online
  {
    var stopped := Apply(s, Admin(Stop(id)));
    KickInvStep(s, Admin(Stop(id)));
    KickInvRun(stopped, run);
    DownRun(stopped, run, id);
  }

  lemma StaysGone(s: State, l: Label, id: Id)
    requires Enabled(s, l) && id in s.insts && !s.insts[id].live
    ensures id in Apply(s, l).insts && !Apply(s, l).insts[id].live
  {}

  lemma {:induction false} GoneRun(s: State, run: seq<Label>, id: Id)
    requires Legal(s, run) && id in s.insts && !s.insts[id].live
    ensures id in After(s, run).insts && !After(s, run).insts[id].live
    decreases |run|
  {
    if run == [] {
    } else {
      StaysGone(s, run[0], id);
      GoneRun(Apply(s, run[0]), run[1..], id);
    }
  }

  /** A deleted instance never has a client, a CCD file or a new request again, not after a restart either; the clients
      and files of the others stay. */
  lemma DeleteHolds(s: State, run: seq<Label>, id: Id, sid: Sid, ip: string)
    requires KickInv(s) && Enabled(s, Admin(Delete(id))) && Legal(Apply(s, Admin(Delete(id))), run)
    ensures var r := After(Apply(s, Admin(Delete(id))), run);
            && (forall o :: o in r.online ==> o.inst != id) && (forall f :: f in r.ccd ==> f.0 != id)
            && !Enabled(r, Arrive(sid, id, ip))
    ensures var gone := Apply(s, Admin(Delete(id)));
            && (forall f :: f in s.ccd && f.0 != id ==> f in gone.ccd)
            && (forall o :: o in s.online && o.inst != id ==> o in gone.online)
  {
    var gone := Apply(s, Admin(Delete(id)));
    KickInvStep(s, Admin(Delete(id)));
    KickInvRun(gone, run);
    GoneRun(gone, run, id);
  }
}
