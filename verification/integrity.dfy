/** Passes of one load balancer over a device, in any number, cut short anywhere, deleting or not:
    references stay intact at every call, and when a teardown can finish. */
module Integrity {
  import opened Names
  import opened Devices
  import opened Tasks
  import opened Cleanup
  import opened Grounding
  import opened Passes

  predicate OwnPool(lb: string, ports: seq<int>, n: string) {
    exists p :: p in ports && n == PoolName(lb, p)
  }

  predicate OwnVip(lb: string, ports: seq<int>, n: string) {
    exists p :: p in ports && n == VipName(lb, p)
  }

  /** Nothing but the load balancer's own objects for `ports` refers to its pools or its monitor. */
  ghost predicate Unshared(d: Device, lb: string, ports: seq<int>) {
    && (forall v, q: int :: v in d.vips && d.vips[v].pool == PoolName(lb, q) ==> OwnVip(lb, ports, v))
    && (forall n :: n in d.pools && d.pools[n].monitor == MonitorName(lb) ==> OwnPool(lb, ports, n))
  }

  ghost predicate Sound(d: Device, lb: string, ports: seq<int>) {
    Referential(d) && Unshared(d, lb, ports)
  }

  lemma UnsharedGrows(d: Device, lb: string, ports: seq<int>, more: seq<int>)
    requires Unshared(d, lb, ports) && forall p :: p in ports ==> p in more
    ensures Unshared(d, lb, more)
  {
    forall n ensures OwnVip(lb, ports, n) ==> OwnVip(lb, more, n)
      ensures OwnPool(lb, ports, n) ==> OwnPool(lb, more, n) {
      OwnGrows(lb, ports, more, n);
    }
  }

  lemma OwnGrows(lb: string, ports: seq<int>, more: seq<int>, n: string)
    requires forall p :: p in ports ==> p in more
    ensures OwnVip(lb, ports, n) ==> OwnVip(lb, more, n)
    ensures OwnPool(lb, ports, n) ==> OwnPool(lb, more, n)
  {
    if p :| p in ports && n == VipName(lb, p) { assert p in more; }
    if p :| p in ports && n == PoolName(lb, p) { assert p in more; }
  }

  lemma ServingKeepsUnshared(d: Device, op: Op, t: Task, lb: string, want: Want)
    requires t in TasksFor(lb, want) && Serves(op, t) && Unshared(d, lb, want.ports)
    ensures Unshared(Apply(d, op), lb, want.ports)
  {
    OwnTask(lb, want, t);
    var e := Apply(d, op);
    forall v, q: int | v in e.vips && e.vips[v].pool == PoolName(lb, q) ensures OwnVip(lb, want.ports, v) {
      if VipId(v) != Obj(t) { ServingElsewhere(d, op, t, VipId(v)); }
    }
    forall n | n in e.pools && e.pools[n].monitor == MonitorName(lb) ensures OwnPool(lb, want.ports, n) {
      if PoolId(n) != Obj(t) { ServingElsewhere(d, op, t, PoolId(n)); }
    }
  }

  lemma ServingElsewhere(d: Device, op: Op, t: Task, id: Id)
    requires Serves(op, t) && id != Obj(t)
    ensures SameAt(d, Apply(d, op), id)
  {
    assert Target(op) == Obj(t);
    ElsewhereKeeps(d, d, op, id);
  }

  /** VIPs as before, or fewer; pools with the monitors from before, or fewer. */
  ghost predicate Shrunk(d: Device, e: Device) {
    && (forall v :: v in e.vips ==> v in d.vips && e.vips[v] == d.vips[v])
    && (forall n :: n in e.pools ==> n in d.pools && e.pools[n].monitor == d.pools[n].monitor)
  }

  lemma ShrinkingKeepsUnshared(d: Device, e: Device, lb: string, ports: seq<int>)
    requires Shrunk(d, e)
    ensures Unshared(d, lb, ports) ==> Unshared(e, lb, ports)
    ensures NoVipUses(d, lb) ==> NoVipUses(e, lb)
  {
  }

  lemma OwnTask(lb: string, want: Want, t: Task)
    requires t in TasksFor(lb, want)
    ensures t.PoolTask? ==> OwnPool(lb, want.ports, t.p.name)
    ensures t.VipTask? ==> OwnVip(lb, want.ports, t.v.name)
  {
    TasksAre(lb, want, t);
  }

  lemma ConfigureSound(w: World, s: Sys, lb: string, want: Want)
    requires Faithful(w) && Sound(s.dev, lb, want.ports)
    ensures Throughout(s, Configure(w, s, TasksFor(lb, want)).sys, d => Sound(d, lb, want.ports))
  {
    var ts := TasksFor(lb, want);
    var I := d => Unshared(d, lb, want.ports);
    forall d, op, t | t in ts && Serves(op, t) && I(d) ensures I(Apply(d, op)) {
      ServingKeepsUnshared(d, op, t, lb, want);
    }
    ConfigureKeeps(w, s, ts, I);
    TasksGrounded(lb, want, s.dev);
    RunReferential(w, Peek(w, s).sys, ts);
    ConfigureIsRun(w, s, ts);
  }

  // ---------- The teardown, stage by stage

  lemma VipDelsOwn(lb: string, want: Want, op: Op)
    requires op in VipDels(VipsFor(lb, want))
    ensures op.DeleteVip? && OwnVip(lb, want.ports, op.name)
  {
    VipDelsAre(VipsFor(lb, want), op);
    StatusObjects(lb, want, map[], VipId(op.name));
  }

  lemma PoolDelsOwn(lb: string, want: Want, op: Op)
    requires op in PoolDels(PoolsFor(lb, want))
    ensures op.DeletePool? && OwnPool(lb, want.ports, op.name)
  {
    PoolDelsAre(PoolsFor(lb, want), op);
    StatusObjects(lb, want, map[], PoolId(op.name));
  }

  ghost predicate NoVipUses(d: Device, lb: string) {
    forall v, q: int :: v in d.vips ==> d.vips[v].pool != PoolName(lb, q)
  }

  lemma VipStage(w: World, s: Sys, lb: string, want: Want)
    requires Sound(s.dev, lb, want.ports)
    ensures var a := CallAll(w, s, VipDels(VipsFor(lb, want)));
            && Throughout(s, a.sys, d => Sound(d, lb, want.ports))
            && (a.ok ==> NoVipUses(a.sys.dev, lb))
  {
    var ops := VipDels(VipsFor(lb, want));
    var I := d => Sound(d, lb, want.ports);
    forall d, op | op in ops && I(d) ensures I(Apply(d, op)) { VipDelKeeps(d, op, lb, want); }
    CallAllKeeps(w, s, ops, I);
    if CallAll(w, s, ops).ok {
      CallAllOk(w, s, ops);
      NoVipIsLeft(s.dev, lb, want);
    }
  }

  lemma VipDelKeeps(d: Device, op: Op, lb: string, want: Want)
    requires op in VipDels(VipsFor(lb, want)) && Sound(d, lb, want.ports)
    ensures Sound(Apply(d, op), lb, want.ports)
  {
    VipDelsOwn(lb, want, op);
    ShrinkingKeepsUnshared(d, Apply(d, op), lb, want.ports);
    VipGoes(d, op.name);
  }

  lemma VipGoes(d: Device, n: string)
    requires Referential(d)
    ensures Referential(Apply(d, DeleteVip(n)))
  {
  }

  lemma NoVipIsLeft(d: Device, lb: string, want: Want)
    requires Unshared(Replay(d, VipDels(VipsFor(lb, want))), lb, want.ports)
    ensures NoVipUses(Replay(d, VipDels(VipsFor(lb, want))), lb)
  {
    var e := Replay(d, VipDels(VipsFor(lb, want)));
    forall v, q: int | v in e.vips ensures e.vips[v].pool != PoolName(lb, q) {
      if OwnVip(lb, want.ports, v) { OwnVipsGo(d, lb, want, v); }
    }
  }

  lemma OwnVipIsDeleted(lb: string, want: Want, v: string)
    requires OwnVip(lb, want.ports, v)
    ensures DeleteVip(v) in VipDels(VipsFor(lb, want))
  {
    var p :| p in want.ports && v == VipName(lb, p);
    var i :| 0 <= i < |want.ports| && want.ports[i] == p;
    assert VipsFor(lb, want)[i] == VipFor(lb, want, p);
    VipDelsHas(VipsFor(lb, want), VipFor(lb, want, p));
  }

  lemma OwnPoolIsDeleted(lb: string, want: Want, n: string)
    requires OwnPool(lb, want.ports, n)
    ensures DeletePool(n) in PoolDels(PoolsFor(lb, want))
  {
    var p :| p in want.ports && n == PoolName(lb, p);
    var i :| 0 <= i < |want.ports| && want.ports[i] == p;
    assert PoolsFor(lb, want)[i] == PoolFor(lb, want, p);
    PoolDelsHas(PoolsFor(lb, want), PoolFor(lb, want, p));
  }

  lemma OwnVipsGo(d: Device, lb: string, want: Want, v: string)
    requires OwnVip(lb, want.ports, v)
    ensures v !in Replay(d, VipDels(VipsFor(lb, want))).vips
  {
    var ops := VipDels(VipsFor(lb, want));
    OwnVipIsDeleted(lb, want, v);
    assert RemovesObject(DeleteVip(v), VipId(v));
    forall op | op in ops ensures Removes(op) { VipDelsAre(VipsFor(lb, want), op); }
    RemovalsRemove(d, ops, VipId(v));
  }

  lemma OwnPoolsGo(d: Device, lb: string, want: Want, n: string)
    requires OwnPool(lb, want.ports, n)
    ensures n !in Replay(d, PoolDels(PoolsFor(lb, want))).pools
  {
    var ops := PoolDels(PoolsFor(lb, want));
    OwnPoolIsDeleted(lb, want, n);
    assert RemovesObject(DeletePool(n), PoolId(n));
    forall op | op in ops ensures Removes(op) { PoolDelsAre(PoolsFor(lb, want), op); }
    RemovalsRemove(d, ops, PoolId(n));
  }

  ghost predicate SoundUnused(d: Device, lb: string, ports: seq<int>) {
    Sound(d, lb, ports) && NoVipUses(d, lb)
  }

  lemma MemberDelKeeps(d: Device, op: Op, lb: string, ports: seq<int>)
    requires op.DelMember? && SoundUnused(d, lb, ports)
    ensures SoundUnused(Apply(d, op), lb, ports)
  {
    ShrinkingKeepsUnshared(d, Apply(d, op), lb, ports);
  }

  lemma MemberStage(w: World, s: Sys, lb: string, want: Want)
    requires SoundUnused(s.dev, lb, want.ports)
    ensures Throughout(s, CallEach(w, s, MemberDels(PoolsFor(lb, want))), d => SoundUnused(d, lb, want.ports))
  {
    var ops := MemberDels(PoolsFor(lb, want));
    var I := d => SoundUnused(d, lb, want.ports);
    forall op | op in ops ensures op.DelMember? { MemberDelsAre(PoolsFor(lb, want), op); }
    forall d, op | op in ops && I(d) ensures I(Apply(d, op)) { MemberDelKeeps(d, op, lb, want.ports); }
    CallEachKeeps(w, s, ops, I);
  }

  lemma PoolStage(w: World, s: Sys, lb: string, want: Want)
    requires SoundUnused(s.dev, lb, want.ports)
    ensures var c := CallAll(w, s, PoolDels(PoolsFor(lb, want)));
            && Throughout(s, c.sys, d => SoundUnused(d, lb, want.ports))
            && (c.ok ==> MonitorUnused(c.sys.dev, MonitorName(lb)))
  {
    var ops := PoolDels(PoolsFor(lb, want));
    var I := d => SoundUnused(d, lb, want.ports);
    forall d, op | op in ops && I(d) ensures I(Apply(d, op)) { PoolDelKeeps(d, op, lb, want); }
    CallAllKeeps(w, s, ops, I);
    if CallAll(w, s, ops).ok {
      CallAllOk(w, s, ops);
      NoPoolUses(s.dev, lb, want);
    }
  }

  lemma PoolDelKeeps(d: Device, op: Op, lb: string, want: Want)
    requires op in PoolDels(PoolsFor(lb, want)) && SoundUnused(d, lb, want.ports)
    ensures SoundUnused(Apply(d, op), lb, want.ports)
  {
    PoolDelsOwn(lb, want, op);
    ShrinkingKeepsUnshared(d, Apply(d, op), lb, want.ports);
    var p :| p in want.ports && op.name == PoolName(lb, p);
    assert PoolUnused(d, op.name);
    UnusedPoolGoes(d, op.name);
  }

  lemma UnusedPoolGoes(d: Device, n: string)
    requires Referential(d) && PoolUnused(d, n)
    ensures Referential(Apply(d, DeletePool(n)))
  {
  }

  lemma NoPoolUses(d: Device, lb: string, want: Want)
    requires Unshared(Replay(d, PoolDels(PoolsFor(lb, want))), lb, want.ports)
    ensures MonitorUnused(Replay(d, PoolDels(PoolsFor(lb, want))), MonitorName(lb))
  {
    var e := Replay(d, PoolDels(PoolsFor(lb, want)));
    forall n | n in e.pools ensures e.pools[n].monitor != MonitorName(lb) {
      if OwnPool(lb, want.ports, n) { OwnPoolsGo(d, lb, want, n); }
    }
  }

  lemma MonitorStage(w: World, s: Sys, lb: string, want: Want)
    requires Sound(s.dev, lb, want.ports) && MonitorUnused(s.dev, MonitorName(lb))
    ensures Throughout(s, CallAll(w, s, MonitorDels(MonitorFor(lb, want))).sys, d => Sound(d, lb, want.ports))
  {
    var I := d => Sound(d, lb, want.ports) && MonitorUnused(d, MonitorName(lb));
    CallAllKeeps(w, s, MonitorDels(MonitorFor(lb, want)), I);
    Weaken(s, CallAll(w, s, MonitorDels(MonitorFor(lb, want))).sys, I, d => Sound(d, lb, want.ports));
  }

  lemma FinalizeSound(w: World, s: Sys, lb: string, want: Want)
    requires Sound(s.dev, lb, want.ports)
    ensures Throughout(s, Finalize(w, s, StatusFor(lb, want, map[])).sys, d => Sound(d, lb, want.ports))
  {
    var S := d => Sound(d, lb, want.ports);
    var U := d => SoundUnused(d, lb, want.ports);
    var r := Finalize(w, s, StatusFor(lb, want, map[])).sys;
    var s0 := Peek(w, s).sys;
    var a := CallAll(w, s0, VipDels(VipsFor(lb, want)));
    VipStage(w, s0, lb, want);
    if a.ok {
      var b := CallEach(w, a.sys, MemberDels(PoolsFor(lb, want)));
      MemberStage(w, a.sys, lb, want);
      Weaken(a.sys, b, U, S);
      ThroughoutJoins(s0, a.sys, b, S);
      var c := CallAll(w, b, PoolDels(PoolsFor(lb, want)));
      PoolStage(w, b, lb, want);
      Weaken(b, c.sys, U, S);
      ThroughoutJoins(s0, b, c.sys, S);
      if c.ok {
        var e := CallAll(w, c.sys, MonitorDels(MonitorFor(lb, want))).sys;
        MonitorStage(w, c.sys, lb, want);
        ThroughoutJoins(s0, c.sys, e, S);
      }
    }
  }

  // ---------- Runs

  datatype PassIn = PassIn(want: Want, deleting: bool)

  /** Passes one after the other, each from whatever the last one left, whether or not it failed. */
  function Run(w: World, s: Sys, lb: string, ins: seq<PassIn>): Sys
    decreases |ins|
  {
    if ins == [] then s
    else Run(w, Pass(w, s, lb, ins[0].want, ins[0].deleting).sys, lb, ins[1..])
  }

  ghost predicate PortsGrow(ins: seq<PassIn>) {
    forall i, p :: 0 <= i < |ins| - 1 && p in ins[i].want.ports ==> p in ins[i + 1].want.ports
  }

  lemma PassSound(w: World, s: Sys, lb: string, want: Want, deleting: bool)
    requires Faithful(w) && Sound(s.dev, lb, want.ports)
    ensures Throughout(s, Pass(w, s, lb, want, deleting).sys, d => Sound(d, lb, want.ports))
  {
    ConfigureSound(w, s, lb, want);
    var r := Configure(w, s, TasksFor(lb, want));
    if r.ok && deleting {
      FinalizeSound(w, r.sys, lb, want);
      ThroughoutJoins(s, r.sys, Pass(w, s, lb, want, deleting).sys, d => Sound(d, lb, want.ports));
    }
  }

  /** After each single call of any run of configure, abort, retry and cleanup, every VIP's pool and
      every pool's monitor exists, as long as the port list only grows and nothing foreign refers
      to the load balancer's objects. */
  lemma {:induction false} RunKeepsReferences(w: World, s: Sys, lb: string, ins: seq<PassIn>)
    requires Faithful(w) && PortsGrow(ins) && Referential(s.dev)
    requires ins != [] ==> Unshared(s.dev, lb, ins[0].want.ports)
    ensures Throughout(s, Run(w, s, lb, ins), d => Referential(d))
    ensures ins != [] ==> Unshared(Run(w, s, lb, ins).dev, lb, ins[|ins| - 1].want.ports)
    decreases |ins|
  {
    if ins != [] {
      var want := ins[0].want;
      var q := Pass(w, s, lb, want, ins[0].deleting).sys;
      PassSound(w, s, lb, want, ins[0].deleting);
      Weaken(s, q, d => Sound(d, lb, want.ports), d => Referential(d));
      var rest := ins[1..];
      if rest != [] {
        assert rest[0] == ins[1] && rest[|rest| - 1] == ins[|ins| - 1];
        UnsharedGrows(q.dev, lb, want.ports, rest[0].want.ports);
        forall i, p | 0 <= i < |rest| - 1 && p in rest[i].want.ports ensures p in rest[i + 1].want.ports {
          assert rest[i] == ins[i + 1] && rest[i + 1] == ins[i + 2];
        }
      }
      RunKeepsReferences(w, q, lb, rest);
      ThroughoutJoins(s, q, Run(w, s, lb, ins), d => Referential(d));
    }
  }
}
