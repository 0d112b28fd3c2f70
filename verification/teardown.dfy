/** When the teardown of a load balancer finishes on a device that refuses to delete what is absent
    or still referred to, and what it leaves behind. */
module Teardown {
  import opened Types
  import opened Names
  import opened Devices
  import opened Tasks
  import opened Cleanup
  import opened Grounding
  import opened Passes
  import opened Integrity
  import opened Histories

  /** No foreign VIP uses a pool of the pass, no foreign pool uses its monitor. */
  ghost predicate Detached(d: Device, lb: string, ports: seq<int>) {
    && (forall v, p :: v in d.vips && !OwnVip(lb, ports, v) && p in ports ==> d.vips[v].pool != PoolName(lb, p))
    && (forall n :: n in d.pools && !OwnPool(lb, ports, n) ==> d.pools[n].monitor != MonitorName(lb))
  }

  lemma UnsharedIsDetached(d: Device, lb: string, ports: seq<int>)
    requires Unshared(d, lb, ports)
    ensures Detached(d, lb, ports)
  {
  }

  // ---------- Necessity

  lemma {:induction false} AcceptedPoolsUnused(d: Device, ps: seq<Pool>, p: Pool)
    requires AllAccepted(d, PoolDels(ps)) && p in ps
    ensures PoolUnused(d, p.name)
    decreases |ps|
  {
    if p != ps[0] {
      assert PoolDels(ps)[1..] == PoolDels(ps[1..]);
      AcceptedPoolsUnused(Apply(d, DeletePool(ps[0].name)), ps[1..], p);
    }
  }

  /** On a strict device a deleting pass that ends without error, with or without faults before it,
      had nothing foreign attached. */
  lemma FinishedWasDetached(w: World, s: Sys, lb: string, want: Want)
    requires w.strict && Pass(w, s, lb, want, true).ok
    ensures Detached(s.dev, lb, want.ports)
  {
    var ts, st := TasksFor(lb, want), StatusFor(lb, want, map[]);
    var r := Configure(w, s, ts).sys;
    var a := CallAll(w, Peek(w, r).sys, VipDels(st.vips));
    var b := CallEach(w, a.sys, MemberDels(st.pools));
    var c := CallAll(w, b, PoolDels(st.pools));
    CallAllOk(w, b, PoolDels(st.pools));
    CallAllOk(w, c.sys, MonitorDels(st.monitor));
    assert MonitorDels(st.monitor) == [DeleteMonitor(MonitorName(lb))] by { assert MonitorName(lb)[0] == 'M'; }
    forall v, p | v in s.dev.vips && !OwnVip(lb, want.ports, v) && p in want.ports
      ensures s.dev.vips[v].pool != PoolName(lb, p)
    {
      ForeignAtStage(w, s, lb, want, VipId(v));
      StatusObjects(lb, want, map[], PoolId(PoolName(lb, p)));
      var pool :| pool in st.pools && pool.name == PoolName(lb, p);
      AcceptedPoolsUnused(b.dev, st.pools, pool);
    }
    forall n | n in s.dev.pools && !OwnPool(lb, want.ports, n)
      ensures s.dev.pools[n].monitor != MonitorName(lb)
    {
      ForeignAtStage(w, s, lb, want, PoolId(n));
    }
  }

  lemma StagesFrame(w: World, s: Sys, st: Status, d0: Device, id: Id)
    requires !Covers(st, id) && SameAt(d0, s.dev, id)
    ensures var a := CallAll(w, s, VipDels(st.vips));
            var b := CallEach(w, a.sys, MemberDels(st.pools));
            var c := CallAll(w, b, PoolDels(st.pools));
            SameAt(d0, b.dev, id) && SameAt(d0, c.sys.dev, id)
  {
    var I := d => SameAt(d0, d, id);
    forall op | op in VipDels(st.vips) || op in MemberDels(st.pools) || op in PoolDels(st.pools)
      ensures Removes(op) && Covers(st, Target(op)) {
      StagesAreListed(st, op);
    }
    StageKeeps(w, s, st, VipDels(st.vips), I);
    var a := CallAll(w, s, VipDels(st.vips)).sys;
    StageKeeps(w, a, st, MemberDels(st.pools), I);
    StageKeeps(w, CallEach(w, a, MemberDels(st.pools)), st, PoolDels(st.pools), I);
  }

  /** Foreign objects are the same at the stages where pools and monitor are deleted. */
  lemma ForeignAtStage(w: World, s: Sys, lb: string, want: Want, id: Id)
    requires !Owns(lb, want, id)
    ensures var st := StatusFor(lb, want, map[]);
            var r := Configure(w, s, TasksFor(lb, want)).sys;
            var a := CallAll(w, Peek(w, r).sys, VipDels(st.vips));
            var b := CallEach(w, a.sys, MemberDels(st.pools));
            var c := CallAll(w, b, PoolDels(st.pools));
            SameAt(s.dev, b.dev, id) && SameAt(s.dev, c.sys.dev, id)
  {
    ConfigureFrames(w, s, lb, want, s.dev, id);
    StatusObjects(lb, want, map[], id);
    StagesFrame(w, Peek(w, Configure(w, s, TasksFor(lb, want)).sys).sys, StatusFor(lb, want, map[]), s.dev, id);
  }

  // ---------- Sufficiency

  lemma {:induction false} VipDelsAccepted(d: Device, vs: seq<VIP>)
    requires DistinctVips(vs) && forall v :: v in vs ==> v.name in d.vips
    ensures AllAccepted(d, VipDels(vs))
    decreases |vs|
  {
    if vs != [] {
      var e := Apply(d, DeleteVip(vs[0].name));
      assert VipDels(vs)[1..] == VipDels(vs[1..]);
      assert vs[0] in vs && Accepts(d, VipDels(vs)[0]);
      forall v | v in vs[1..] ensures v.name in e.vips {
        var j :| 0 <= j < |vs[1..]| && vs[1..][j] == v;
        assert vs[j + 1] == v;
      }
      VipDelsAccepted(e, vs[1..]);
    }
  }

  lemma {:induction false} PoolDelsAccepted(d: Device, ps: seq<Pool>)
    requires DistinctPools(ps) && forall p :: p in ps ==> p.name in d.pools && PoolUnused(d, p.name)
    ensures AllAccepted(d, PoolDels(ps))
    decreases |ps|
  {
    if ps != [] {
      var e := Apply(d, DeletePool(ps[0].name));
      assert PoolDels(ps)[1..] == PoolDels(ps[1..]);
      assert ps[0] in ps;
      forall p | p in ps[1..] ensures p.name in e.pools && PoolUnused(e, p.name) {
        var j :| 0 <= j < |ps[1..]| && ps[1..][j] == p;
        assert ps[j + 1] == p;
      }
      PoolDelsAccepted(e, ps[1..]);
    }
  }

  lemma ClockMoves(w: World, s: Sys, lb: string, want: Want)
    ensures s.clock <= Configure(w, s, TasksFor(lb, want)).sys.clock
  {
    RunTasksKeeps(w, Peek(w, s).sys, TasksFor(lb, want), d => true);
  }

  /** The VIP deletions of a teardown from a configured device all go through. */
  lemma VipStageOk(w: World, s: Sys, lb: string, want: Want)
    requires FaultFree(w, s.clock) && DistinctPorts(want) && Configured(s.dev, lb, want)
    ensures CallAll(w, s, VipDels(VipsFor(lb, want))).ok
  {
    StatusDistinct(lb, want);
    forall v | v in VipsFor(lb, want) ensures v.name in s.dev.vips {
      StatusObjects(lb, want, map[], VipId(v.name));
    }
    VipDelsAccepted(s.dev, VipsFor(lb, want));
    CallAllSucceeds(w, s, VipDels(VipsFor(lb, want)));
  }

  /** What the device looks like when the pools are about to be deleted. */
  ghost predicate ReadyForPools(d: Device, lb: string, want: Want) {
    && (forall p :: p in want.ports ==> PoolName(lb, p) in d.pools && PoolUnused(d, PoolName(lb, p)))
    && MonitorName(lb) in d.monitors
    && (forall n :: n in d.pools && !OwnPool(lb, want.ports, n) ==> d.pools[n].monitor != MonitorName(lb))
  }

  predicate FewerVips(d: Device, e: Device) {
    e.monitors == d.monitors && e.pools == d.pools && forall v :: v in e.vips ==> v in d.vips && e.vips[v] == d.vips[v]
  }

  predicate FewerPools(d: Device, e: Device) {
    e.monitors == d.monitors && forall n :: n in e.pools ==> n in d.pools && e.pools[n] == d.pools[n]
  }

  lemma VipStageKeeps(w: World, s: Sys, vips: seq<VIP>)
    ensures FewerVips(s.dev, CallAll(w, s, VipDels(vips)).sys.dev)
  {
    var I := d => FewerVips(s.dev, d);
    forall d, op | op in VipDels(vips) && I(d) ensures I(Apply(d, op)) { VipDelsAre(vips, op); }
    CallAllKeeps(w, s, VipDels(vips), I);
  }

  lemma VipStageLeaves(w: World, s: Sys, lb: string, want: Want)
    requires CallAll(w, s, VipDels(VipsFor(lb, want))).ok
    ensures var a := CallAll(w, s, VipDels(VipsFor(lb, want))).sys.dev;
            FewerVips(s.dev, a) && forall v :: v in a.vips ==> !OwnVip(lb, want.ports, v)
  {
    var ops := VipDels(VipsFor(lb, want));
    CallAllOk(w, s, ops);
    VipStageKeeps(w, s, VipsFor(lb, want));
    forall v | v in Replay(s.dev, ops).vips ensures !OwnVip(lb, want.ports, v) {
      if OwnVip(lb, want.ports, v) { OwnVipsGo(s.dev, lb, want, v); }
    }
  }

  lemma PoolsBecomeReady(w: World, s: Sys, lb: string, want: Want)
    requires Configured(s.dev, lb, want) && Detached(s.dev, lb, want.ports)
    requires CallAll(w, s, VipDels(VipsFor(lb, want))).ok
    ensures var a := CallAll(w, s, VipDels(VipsFor(lb, want)));
            ReadyForPools(CallEach(w, a.sys, MemberDels(PoolsFor(lb, want))).dev, lb, want)
  {
    var a := CallAll(w, s, VipDels(VipsFor(lb, want))).sys;
    VipStageLeaves(w, s, lb, want);
    assert ReadyForPools(a.dev, lb, want);
    var J := d => ReadyForPools(d, lb, want);
    var ops := MemberDels(PoolsFor(lb, want));
    forall op | op in ops ensures op.DelMember? { MemberDelsAre(PoolsFor(lb, want), op); }
    forall d, op | op in ops && J(d) ensures J(Apply(d, op)) { MemberDelKeepsReady(d, op, lb, want); }
    CallEachKeeps(w, a, ops, J);
  }

  lemma MemberDelKeepsReady(d: Device, op: Op, lb: string, want: Want)
    requires op.DelMember? && ReadyForPools(d, lb, want)
    ensures ReadyForPools(Apply(d, op), lb, want)
  {
    var e := Apply(d, op);
    assert e.vips == d.vips && e.monitors == d.monitors && e.pools.Keys == d.pools.Keys;
    forall p | p in want.ports ensures PoolName(lb, p) in e.pools && PoolUnused(e, PoolName(lb, p)) {
      assert PoolUnused(d, PoolName(lb, p));
    }
    forall n | n in e.pools && !OwnPool(lb, want.ports, n) ensures e.pools[n].monitor != MonitorName(lb) {
      assert e.pools[n].monitor == d.pools[n].monitor;
    }
  }

  lemma PoolStageKeeps(w: World, s: Sys, pools: seq<Pool>)
    ensures FewerPools(s.dev, CallAll(w, s, PoolDels(pools)).sys.dev)
    ensures s.clock <= CallAll(w, s, PoolDels(pools)).sys.clock
  {
    var I := d => FewerPools(s.dev, d);
    forall d, op | op in PoolDels(pools) && I(d) ensures I(Apply(d, op)) { PoolDelsAre(pools, op); }
    CallAllKeeps(w, s, PoolDels(pools), I);
  }

  lemma PoolStageOk(w: World, s: Sys, lb: string, want: Want)
    requires FaultFree(w, s.clock) && DistinctPorts(want) && ReadyForPools(s.dev, lb, want)
    ensures CallAll(w, s, PoolDels(PoolsFor(lb, want))).ok
  {
    StatusDistinct(lb, want);
    forall p | p in PoolsFor(lb, want) ensures p.name in s.dev.pools && PoolUnused(s.dev, p.name) {
      StatusObjects(lb, want, map[], PoolId(p.name));
    }
    PoolDelsAccepted(s.dev, PoolsFor(lb, want));
    CallAllSucceeds(w, s, PoolDels(PoolsFor(lb, want)));
  }

  lemma PoolsAndMonitorGo(w: World, s: Sys, lb: string, want: Want)
    requires FaultFree(w, s.clock) && DistinctPorts(want) && ReadyForPools(s.dev, lb, want)
    ensures var c := CallAll(w, s, PoolDels(PoolsFor(lb, want)));
            && c.ok && s.clock <= c.sys.clock
            && CallAll(w, c.sys, MonitorDels(MonitorFor(lb, want))).ok
  {
    var ops := PoolDels(PoolsFor(lb, want));
    PoolStageOk(w, s, lb, want);
    CallAllOk(w, s, ops);
    PoolStageKeeps(w, s, PoolsFor(lb, want));
    var c := CallAll(w, s, ops).sys;
    forall n | n in c.dev.pools ensures c.dev.pools[n].monitor != MonitorName(lb) {
      if OwnPool(lb, want.ports, n) { OwnPoolsGo(s.dev, lb, want, n); }
    }
    assert AllAccepted(c.dev, MonitorDels(MonitorFor(lb, want)));
    CallAllSucceeds(w, c, MonitorDels(MonitorFor(lb, want)));
  }

  lemma FinalizeSucceeds(w: World, s: Sys, lb: string, want: Want)
    requires FaultFree(w, s.clock) && DistinctPorts(want)
    requires Configured(s.dev, lb, want) && Detached(s.dev, lb, want.ports)
    ensures Finalize(w, s, StatusFor(lb, want, map[])).ok
  {
    var s0 := Peek(w, s).sys;
    VipStageOk(w, s0, lb, want);
    PoolsBecomeReady(w, s0, lb, want);
    var a := CallAll(w, s0, VipDels(VipsFor(lb, want))).sys;
    var b := CallEach(w, a, MemberDels(PoolsFor(lb, want)));
    CallAllKeeps(w, s0, VipDels(VipsFor(lb, want)), d => true);
    CallEachKeeps(w, a, MemberDels(PoolsFor(lb, want)), d => true);
    PoolsAndMonitorGo(w, b, lb, want);
    var c := CallAll(w, b, PoolDels(PoolsFor(lb, want))).sys;
    CallAllKeeps(w, c, MonitorDels(MonitorFor(lb, want)), d => true);
  }

  lemma DetachedStays(w: World, s: Sys, lb: string, want: Want)
    requires Detached(s.dev, lb, want.ports)
    ensures Detached(Configure(w, s, TasksFor(lb, want)).sys.dev, lb, want.ports)
  {
    var d := Configure(w, s, TasksFor(lb, want)).sys.dev;
    forall v, p | v in d.vips && !OwnVip(lb, want.ports, v) && p in want.ports
      ensures d.vips[v].pool != PoolName(lb, p)
    {
      ConfigureFrames(w, s, lb, want, s.dev, VipId(v));
      assert SameAt(s.dev, d, VipId(v));
    }
    forall n | n in d.pools && !OwnPool(lb, want.ports, n) ensures d.pools[n].monitor != MonitorName(lb) {
      ConfigureFrames(w, s, lb, want, s.dev, PoolId(n));
      assert SameAt(s.dev, d, PoolId(n));
    }
  }

  /** A strict device deletes a VIP only once. */
  lemma {:induction false} AcceptedVipsDistinct(d: Device, vs: seq<VIP>)
    requires AllAccepted(d, VipDels(vs))
    ensures DistinctVips(vs) && forall i :: 0 <= i < |vs| ==> vs[i].name in d.vips
    decreases |vs|
  {
    if vs != [] {
      assert VipDels(vs)[0] == DeleteVip(vs[0].name) && VipDels(vs)[1..] == VipDels(vs[1..]);
      AcceptedVipsDistinct(Apply(d, DeleteVip(vs[0].name)), vs[1..]);
      forall i | 1 <= i < |vs| ensures vs[i].name != vs[0].name && vs[i].name in d.vips {
        assert vs[i] == vs[1..][i - 1];
      }
      forall i, j | 1 <= i < j < |vs| ensures vs[i].name != vs[j].name {
        assert vs[i] == vs[1..][i - 1] && vs[j] == vs[1..][j - 1];
      }
    }
  }

  /** On a strict device a deleting pass that ends without error had no port twice: the second
      deletion of its VIP would have been refused. */
  lemma FinishedHadDistinctPorts(w: World, s: Sys, lb: string, want: Want)
    requires w.strict && Pass(w, s, lb, want, true).ok
    ensures DistinctPorts(want)
  {
    var r := Peek(w, Configure(w, s, TasksFor(lb, want)).sys).sys;
    var vips := VipsFor(lb, want);
    CallAllOk(w, r, VipDels(vips));
    AcceptedVipsDistinct(r.dev, vips);
    forall i, j | 0 <= i < j < |want.ports| ensures want.ports[i] != want.ports[j] {
      assert vips[i].name != vips[j].name;
    }
  }

  lemma DetachedFinishes(w: World, s: Sys, lb: string, want: Want)
    requires Faithful(w) && w.strict && FaultFree(w, s.clock)
    requires DistinctPorts(want) && NewMembersDistinct(s.dev, lb, want) && Detached(s.dev, lb, want.ports)
    ensures Pass(w, s, lb, want, true).ok
  {
    ConfigureSucceedsIff(w, s, lb, want);
    var r := Configure(w, s, TasksFor(lb, want)).sys;
    ClockMoves(w, s, lb, want);
    ConfigureConverges(w, s, lb, want);
    DetachedStays(w, s, lb, want);
    FinalizeSucceeds(w, r, lb, want);
  }

  /** On a strict device a pass that ends without error had no member to add twice. */
  lemma FinishedHadNewMembers(w: World, s: Sys, lb: string, want: Want)
    requires Faithful(w) && w.strict && Pass(w, s, lb, want, true).ok
    ensures NewMembersDistinct(s.dev, lb, want)
  {
    TasksConsistent(lb, want);
    RunHadDistinctAdds(w, Peek(w, s).sys, TasksFor(lb, want));
    NewMembersIff(s.dev, lb, want);
  }

  /** On a strict device a fault-free deleting pass finishes exactly when no port is listed twice, no
      member has to be added twice and nothing foreign is attached, whatever earlier passes left half
      done. */
  lemma TeardownFinishesIff(w: World, s: Sys, lb: string, want: Want)
    requires Faithful(w) && w.strict && FaultFree(w, s.clock)
    ensures Pass(w, s, lb, want, true).ok <==>
              DistinctPorts(want) && NewMembersDistinct(s.dev, lb, want) && Detached(s.dev, lb, want.ports)
  {
    if DistinctPorts(want) && NewMembersDistinct(s.dev, lb, want) && Detached(s.dev, lb, want.ports) {
      DetachedFinishes(w, s, lb, want);
    }
    if Pass(w, s, lb, want, true).ok {
      FinishedHadDistinctPorts(w, s, lb, want);
      FinishedHadNewMembers(w, s, lb, want);
      FinishedWasDetached(w, s, lb, want);
    }
  }

  lemma RunStaysDetached(w: World, s: Sys, lb: string, ins: seq<PassIn>, want: Want)
    requires Faithful(w) && PortsGrow(ins + [PassIn(want, true)])
    requires Referential(s.dev) && Unshared(s.dev, lb, (ins + [PassIn(want, true)])[0].want.ports)
    ensures Detached(Run(w, s, lb, ins).dev, lb, want.ports)
  {
    var all, r := ins + [PassIn(want, true)], Run(w, s, lb, ins);
    assert Unshared(r.dev, lb, want.ports) by {
      if ins != [] {
        assert PortsGrow(ins) by {
          forall i, p | 0 <= i < |ins| - 1 && p in ins[i].want.ports ensures p in ins[i + 1].want.ports {
            assert all[i] == ins[i] && all[i + 1] == ins[i + 1];
          }
        }
        RunKeepsReferences(w, s, lb, ins);
        forall p | p in ins[|ins| - 1].want.ports ensures p in want.ports {
          assert all[|ins| - 1] == ins[|ins| - 1] && all[|ins| - 1 + 1] == PassIn(want, true);
        }
        UnsharedGrows(r.dev, lb, ins[|ins| - 1].want.ports, want.ports);
      }
    }
    UnsharedIsDetached(r.dev, lb, want.ports);
  }

  /** After any run of faulty passes, deleting or not, over a port list that only grows, a fault-free
      deleting pass finishes, unless it lists a port or has to add a member twice, and leaves none of
      the load balancer's objects. */
  lemma CleanupIsRetryable(w: World, s: Sys, lb: string, ins: seq<PassIn>, want: Want)
    requires Faithful(w) && w.strict && PortsGrow(ins + [PassIn(want, true)])
    requires Referential(s.dev) && Unshared(s.dev, lb, (ins + [PassIn(want, true)])[0].want.ports)
    requires FaultFree(w, Run(w, s, lb, ins).clock)
    ensures var r := Run(w, s, lb, ins); var q := Pass(w, r, lb, want, true);
            && (q.ok <==> DistinctPorts(want) && NewMembersDistinct(r.dev, lb, want))
            && (q.ok ==> forall id :: Owns(lb, want, id) ==> !Has(q.sys.dev, id))
  {
    var r := Run(w, s, lb, ins);
    RunStaysDetached(w, s, lb, ins, want);
    TeardownFinishesIff(w, r, lb, want);
    if Pass(w, r, lb, want, true).ok {
      forall id | Owns(lb, want, id) ensures !Has(Pass(w, r, lb, want, true).sys.dev, id) {
        DeletingPassRemoves(w, r, lb, want, id);
      }
    }
  }

  /** A port dropped from the spec blocks the teardown on a strict device for good, whatever passes
      follow and whatever fails in them: its pool still uses the monitor. */
  lemma DroppedPortBlocks(w: World, s: Sys, lb: string, before: Want, ins: seq<PassIn>, want: Want, p: int)
    requires w.strict && Configured(s.dev, lb, before) && p in before.ports
    requires p !in want.ports && forall i :: i in ins ==> p !in i.want.ports
    ensures !Pass(w, Run(w, s, lb, ins), lb, want, true).ok
  {
    var r := Run(w, s, lb, ins);
    RunLeavesPort(w, s, lb, ins, p);
    assert SameAt(s.dev, r.dev, PoolId(PoolName(lb, p)));
    DroppedPortIsForeign(lb, want.ports, p);
    if Pass(w, r, lb, want, true).ok {
      FinishedWasDetached(w, r, lb, want);
    }
  }

  lemma DroppedPortIsForeign(lb: string, ports: seq<int>, p: int)
    requires p !in ports
    ensures !OwnPool(lb, ports, PoolName(lb, p)) && !OwnVip(lb, ports, VipName(lb, p))
  {
    forall q | q in ports ensures PoolName(lb, p) != PoolName(lb, q) && VipName(lb, p) != VipName(lb, q) {
      PortsInjective(lb, p, q);
    }
  }

  // ---------- Residue

  /** After an error-free deleting pass, a pool or VIP of the load balancer is left exactly when it
      was there before and its port is not in the pass's list; it is left unchanged. */
  lemma Residue(w: World, s: Sys, lb: string, want: Want, p: int)
    requires Pass(w, s, lb, want, true).ok
    ensures var d := Pass(w, s, lb, want, true).sys.dev;
            && !Has(d, MonitorId(MonitorName(lb)))
            && (Has(d, PoolId(PoolName(lb, p))) <==> Has(s.dev, PoolId(PoolName(lb, p))) && p !in want.ports)
            && (Has(d, VipId(VipName(lb, p))) <==> Has(s.dev, VipId(VipName(lb, p))) && p !in want.ports)
            && (p !in want.ports ==> SameAt(s.dev, d, PoolId(PoolName(lb, p)))
                                     && SameAt(s.dev, d, VipId(VipName(lb, p))))
  {
    var pool, vip := PoolId(PoolName(lb, p)), VipId(VipName(lb, p));
    DeletingPassRemoves(w, s, lb, want, MonitorId(MonitorName(lb)));
    if p in want.ports {
      assert Owns(lb, want, pool) && Owns(lb, want, vip);
      DeletingPassRemoves(w, s, lb, want, pool);
      DeletingPassRemoves(w, s, lb, want, vip);
    } else {
      forall q | q in want.ports
        ensures PoolName(lb, p) != PoolName(lb, q) && VipName(lb, p) != VipName(lb, q)
      {
        PortsInjective(lb, p, q);
      }
      PassFrames(w, s, lb, want, true, pool);
      PassFrames(w, s, lb, want, true, vip);
    }
  }

  lemma {:induction false} RunChains(w: World, s: Sys, lb: string, ins: seq<PassIn>)
    ensures Chained(s, Run(w, s, lb, ins), _ => true)
    decreases |ins|
  {
    if ins != [] {
      var q := Pass(w, s, lb, ins[0].want, ins[0].deleting).sys;
      PassChains(w, s, lb, ins[0].want, ins[0].deleting);
      RunChains(w, q, lb, ins[1..]);
      ChainsJoin(s, q, Run(w, s, lb, ins), _ => true);
    }
  }

  /** Over any history of specs and faulty passes, failed teardowns included, what a finished
      finalization leaves of port `p` is what was there from the beginning or was created on the way,
      and not removed since, if the final pass's list lacks the port. */
  lemma HistoryResidue(w: World, s: Sys, lb: string, ins: seq<PassIn>, want: Want, p: int)
    requires Pass(w, Run(w, s, lb, ins), lb, want, true).ok
    ensures var r, d := Run(w, s, lb, ins), Pass(w, Run(w, s, lb, ins), lb, want, true).sys.dev;
            && Continues(s, r)
            && forall id :: id == PoolId(PoolName(lb, p)) || id == VipId(VipName(lb, p)) ==>
                 (Has(d, id) <==> p !in want.ports && Survives(s.dev, Since(s, r), id))
  {
    RunChains(w, s, lb, ins);
    Fate(s, Run(w, s, lb, ins), PoolId(PoolName(lb, p)));
    Fate(s, Run(w, s, lb, ins), VipId(VipName(lb, p)));
    Residue(w, Run(w, s, lb, ins), lb, want, p);
  }

  lemma {:induction false} RunLeavesPort(w: World, s: Sys, lb: string, ins: seq<PassIn>, p: int)
    requires forall i :: i in ins ==> p !in i.want.ports
    ensures SameAt(s.dev, Run(w, s, lb, ins).dev, PoolId(PoolName(lb, p)))
    ensures SameAt(s.dev, Run(w, s, lb, ins).dev, VipId(VipName(lb, p)))
    decreases |ins|
  {
    if ins != [] {
      var want := ins[0].want;
      assert ins[0] in ins;
      forall q | q in want.ports
        ensures PoolName(lb, p) != PoolName(lb, q) && VipName(lb, p) != VipName(lb, q)
      {
        PortsInjective(lb, p, q);
      }
      PassFrames(w, s, lb, want, ins[0].deleting, PoolId(PoolName(lb, p)));
      PassFrames(w, s, lb, want, ins[0].deleting, VipId(VipName(lb, p)));
      RunLeavesPort(w, Pass(w, s, lb, want, ins[0].deleting).sys, lb, ins[1..], p);
    }
  }

  /** If the final list has every port ever wanted, failed teardowns included, nothing is left that
      was not there before the first pass. */
  lemma NoResidueWhenPortsGrow(w: World, s: Sys, lb: string, ins: seq<PassIn>, want: Want, p: int)
    requires forall i, q :: i in ins && q in i.want.ports ==> q in want.ports
    requires p !in want.ports ==> !Has(s.dev, PoolId(PoolName(lb, p))) && !Has(s.dev, VipId(VipName(lb, p)))
    requires Pass(w, Run(w, s, lb, ins), lb, want, true).ok
    ensures var d := Pass(w, Run(w, s, lb, ins), lb, want, true).sys.dev;
            && !Has(d, PoolId(PoolName(lb, p))) && !Has(d, VipId(VipName(lb, p)))
            && !Has(d, MonitorId(MonitorName(lb)))
  {
    Residue(w, Run(w, s, lb, ins), lb, want, p);
    if p !in want.ports {
      RunLeavesPort(w, s, lb, ins, p);
    }
  }

  // ---------- Residue by specs

  ghost predicate RunOk(w: World, s: Sys, lb: string, ins: seq<PassIn>)
    decreases |ins|
  {
    ins == [] || (Pass(w, s, lb, ins[0].want, ins[0].deleting).ok
                  && RunOk(w, Pass(w, s, lb, ins[0].want, ins[0].deleting).sys, lb, ins[1..]))
  }

  /** The `k`-th pass is the last one that listed the port. */
  predicate LastListed(ins: seq<PassIn>, p: int, k: nat) {
    k < |ins| && p in ins[k].want.ports && forall j :: k < j < |ins| ==> p !in ins[j].want.ports
  }

  /** The last pass that listed the port did not delete, or none listed it and `initially` holds. */
  ghost predicate LeftBy(ins: seq<PassIn>, p: int, initially: bool) {
    || (exists k: nat :: LastListed(ins, p, k) && !ins[k].deleting)
    || (initially && forall i :: i in ins ==> p !in i.want.ports)
  }

  lemma LastListedLater(ins: seq<PassIn>, p: int, k: nat)
    requires ins != []
    ensures LastListed(ins, p, k + 1) <==> LastListed(ins[1..], p, k)
  {
    var rest := ins[1..];
    if LastListed(ins, p, k + 1) {
      forall j | k < j < |rest| ensures p !in rest[j].want.ports { assert rest[j] == ins[j + 1]; }
    }
    if LastListed(rest, p, k) {
      forall j | k + 1 < j < |ins| ensures p !in ins[j].want.ports { assert ins[j] == rest[j - 1]; }
    }
  }

  lemma LastListedFirst(ins: seq<PassIn>, p: int)
    requires ins != []
    ensures LastListed(ins, p, 0) <==> p in ins[0].want.ports && forall i :: i in ins[1..] ==> p !in i.want.ports
  {
    var rest := ins[1..];
    forall j | 0 < j < |ins| ensures ins[j] == rest[j - 1] && rest[j - 1] in rest {}
    if LastListed(ins, p, 0) {
      forall i | i in rest ensures p !in i.want.ports {
        var j :| 0 <= j < |rest| && rest[j] == i;
        assert ins[j + 1] == i;
      }
    }
  }

  lemma LeftByFirst(ins: seq<PassIn>, p: int, initially: bool)
    requires ins != []
    ensures LeftBy(ins, p, initially)
            <==> LeftBy(ins[1..], p, if p in ins[0].want.ports then !ins[0].deleting else initially)
  {
    var rest := ins[1..];
    LastListedFirst(ins, p);
    assert forall i :: i in ins <==> i == ins[0] || i in rest;
    if k: nat :| LastListed(ins, p, k) && !ins[k].deleting {
      if k > 0 {
        LastListedLater(ins, p, k - 1);
        assert rest[k - 1] == ins[k];
      }
    }
    if k: nat :| LastListed(rest, p, k) && !rest[k].deleting {
      LastListedLater(ins, p, k);
      assert ins[k + 1] == rest[k];
    }
  }

  /** What an error-free pass makes of the objects of one port. */
  lemma OkPassOnPort(w: World, s: Sys, lb: string, want: Want, deleting: bool, p: int)
    requires Faithful(w) && Pass(w, s, lb, want, deleting).ok
    ensures var d, pool, vip := Pass(w, s, lb, want, deleting).sys.dev, PoolId(PoolName(lb, p)), VipId(VipName(lb, p));
            if p in want.ports then (Has(d, pool) <==> !deleting) && (Has(d, vip) <==> !deleting)
            else SameAt(s.dev, d, pool) && SameAt(s.dev, d, vip)
  {
    if p !in want.ports {
      DroppedPortIsForeign(lb, want.ports, p);
      PassFrames(w, s, lb, want, deleting, PoolId(PoolName(lb, p)));
      PassFrames(w, s, lb, want, deleting, VipId(VipName(lb, p)));
    } else if deleting {
      Residue(w, s, lb, want, p);
    } else {
      ConfigureConverges(w, s, lb, want);
    }
  }

  /** Over any error-free history, said by the specs alone: the pool and the VIP of a port are on the
      device exactly if the last pass that listed the port was not deleting, or none listed it and they
      were there at the start. */
  lemma {:induction false} SpecResidue(w: World, s: Sys, lb: string, ins: seq<PassIn>, p: int)
    requires Faithful(w) && RunOk(w, s, lb, ins)
    ensures var d, pool, vip := Run(w, s, lb, ins).dev, PoolId(PoolName(lb, p)), VipId(VipName(lb, p));
            && (Has(d, pool) <==> LeftBy(ins, p, Has(s.dev, pool)))
            && (Has(d, vip) <==> LeftBy(ins, p, Has(s.dev, vip)))
    decreases |ins|
  {
    if ins != [] {
      var q := Pass(w, s, lb, ins[0].want, ins[0].deleting).sys;
      OkPassOnPort(w, s, lb, ins[0].want, ins[0].deleting, p);
      SpecResidue(w, q, lb, ins[1..], p);
      LeftByFirst(ins, p, Has(s.dev, PoolId(PoolName(lb, p))));
      LeftByFirst(ins, p, Has(s.dev, VipId(VipName(lb, p))));
    }
  }
}
