/** The teardown of one load balancer: which calls HandleCleanup makes, and what they leave. */
module Cleanup {
  import opened Types
  import opened Devices
  import opened Tasks
  import opened Rollout

  /** What the reconciler recorded as configured (ExternalLoadBalancerStatus), as far as the device
      is concerned. */
  datatype Status = Status(
    vips: seq<VIP>,
    ports: seq<int>,
    monitor: Monitor,
    nodes: seq<Node>,
    pools: seq<Pool>,
    labels: map<string, string>,
    numNodes: int)

  const NO_MONITOR := Monitor("", "", 0, "")

  const EMPTY_STATUS := Status([], [], NO_MONITOR, [], [], map[], 0)

  function VipDels(vips: seq<VIP>): seq<Op> {
    if vips == [] then [] else [DeleteVip(vips[0].name)] + VipDels(vips[1..])
  }

  function MemberDels(pools: seq<Pool>): seq<Op> {
    if pools == [] then [] else Dels(pools[0].name, pools[0].members) + MemberDels(pools[1..])
  }

  function PoolDels(pools: seq<Pool>): seq<Op> {
    if pools == [] then [] else [DeletePool(pools[0].name)] + PoolDels(pools[1..])
  }

  function MonitorDels(m: Monitor): seq<Op> {
    if m == NO_MONITOR then [] else [DeleteMonitor(m.name)]
  }

  /** VIPs first, then the members with errors ignored, then the pools, then the monitor. */
  function RunCleanup(w: World, s: Sys, st: Status): Outcome {
    var vips := CallAll(w, s, VipDels(st.vips));
    if !vips.ok then vips
    else
      var members := CallEach(w, vips.sys, MemberDels(st.pools));
      var pools := CallAll(w, members, PoolDels(st.pools));
      if !pools.ok then pools else CallAll(w, pools.sys, MonitorDels(st.monitor))
  }

  predicate Covers(st: Status, id: Id) {
    match id
    case VipId(n) => exists v :: v in st.vips && v.name == n
    case PoolId(n) => exists p :: p in st.pools && p.name == n
    case MonitorId(n) => st.monitor != NO_MONITOR && st.monitor.name == n
  }

  /** The device holds nothing that the status names. */
  ghost predicate Gone(d: Device, st: Status) {
    forall id :: Covers(st, id) ==> !Has(d, id)
  }

  lemma {:induction false} VipDelsAre(vips: seq<VIP>, op: Op)
    requires op in VipDels(vips)
    ensures op.DeleteVip? && exists v :: v in vips && v.name == op.name
  {
    if op == DeleteVip(vips[0].name) {
      assert vips[0] in vips;
    } else {
      VipDelsAre(vips[1..], op);
      var v :| v in vips[1..] && v.name == op.name;
      assert v in vips;
    }
  }

  lemma {:induction false} PoolDelsAre(pools: seq<Pool>, op: Op)
    requires op in PoolDels(pools)
    ensures op.DeletePool? && exists p :: p in pools && p.name == op.name
  {
    if op == DeletePool(pools[0].name) {
      assert pools[0] in pools;
    } else {
      PoolDelsAre(pools[1..], op);
      var p :| p in pools[1..] && p.name == op.name;
      assert p in pools;
    }
  }

  lemma {:induction false} MemberDelsAre(pools: seq<Pool>, op: Op)
    requires op in MemberDels(pools)
    ensures op.DelMember? && exists p :: p in pools && p.name == op.name && op.key in Keys(p.members)
  {
    if op in Dels(pools[0].name, pools[0].members) {
      DelsAre(pools[0].name, pools[0].members, op);
      assert pools[0] in pools;
    } else {
      MemberDelsAre(pools[1..], op);
      var p :| p in pools[1..] && p.name == op.name && op.key in Keys(p.members);
      assert p in pools;
    }
  }

  lemma {:induction false} VipDelsHas(vips: seq<VIP>, v: VIP)
    requires v in vips
    ensures DeleteVip(v.name) in VipDels(vips)
  {
    if v != vips[0] { VipDelsHas(vips[1..], v); }
  }

  lemma {:induction false} PoolDelsHas(pools: seq<Pool>, p: Pool)
    requires p in pools
    ensures DeletePool(p.name) in PoolDels(pools)
  {
    if p != pools[0] { PoolDelsHas(pools[1..], p); }
  }

  /** A call that removes or shrinks. */
  predicate Removes(op: Op) {
    op.DeleteVip? || op.DeletePool? || op.DeleteMonitor? || op.DelMember?
  }

  predicate RemovesObject(op: Op, id: Id) {
    Removes(op) && !op.DelMember? && Target(op) == id
  }

  /** An error-free sequence of removals removes each of its targets. */
  lemma {:induction false} RemovalsRemove(d: Device, ops: seq<Op>, id: Id)
    requires forall op :: op in ops ==> Removes(op)
    requires !Has(d, id) || exists op :: op in ops && RemovesObject(op, id)
    ensures !Has(Replay(d, ops), id)
    decreases |ops|
  {
    if ops != [] {
      assert ops[0] in ops;
      if !Has(d, id) || RemovesObject(ops[0], id) {
        assert !Has(Apply(d, ops[0]), id);
      } else {
        var op :| op in ops && RemovesObject(op, id);
        assert op in ops[1..];
      }
      RemovalsRemove(Apply(d, ops[0]), ops[1..], id);
    }
  }

  /** A property kept by every removal of a listed thing holds throughout a cleanup. */
  ghost predicate KeptByCleanup(st: Status, I: Device -> bool) {
    forall d, op :: Removes(op) && Covers(st, Target(op)) && I(d) ==> I(Apply(d, op))
  }

  lemma StageKeeps(w: World, s: Sys, st: Status, ops: seq<Op>, I: Device -> bool)
    requires I(s.dev) && KeptByCleanup(st, I)
    requires forall op :: op in ops ==> Removes(op) && Covers(st, Target(op))
    ensures Throughout(s, CallAll(w, s, ops).sys, I)
    ensures Throughout(s, CallEach(w, s, ops), I)
  {
    forall d, op | op in ops && I(d) ensures I(Apply(d, op)) {
      assert Removes(op) && Covers(st, Target(op));
    }
    CallAllKeeps(w, s, ops, I);
    CallEachKeeps(w, s, ops, I);
  }

  lemma StagesAreListed(st: Status, op: Op)
    requires op in VipDels(st.vips) || op in MemberDels(st.pools) || op in PoolDels(st.pools)
             || op in MonitorDels(st.monitor)
    ensures Removes(op) && Covers(st, Target(op))
  {
    if op in VipDels(st.vips) { VipDelsAre(st.vips, op); }
    if op in MemberDels(st.pools) { MemberDelsAre(st.pools, op); }
    if op in PoolDels(st.pools) { PoolDelsAre(st.pools, op); }
  }

  lemma CleanupKeeps(w: World, s: Sys, st: Status, I: Device -> bool)
    requires I(s.dev) && KeptByCleanup(st, I)
    ensures Throughout(s, RunCleanup(w, s, st).sys, I)
  {
    forall op | op in VipDels(st.vips) || op in MemberDels(st.pools) || op in PoolDels(st.pools)
                || op in MonitorDels(st.monitor)
      ensures Removes(op) && Covers(st, Target(op)) {
      StagesAreListed(st, op);
    }
    var r := RunCleanup(w, s, st).sys;
    var a := CallAll(w, s, VipDels(st.vips));
    StageKeeps(w, s, st, VipDels(st.vips), I);
    if a.ok {
      var b := CallEach(w, a.sys, MemberDels(st.pools));
      StageKeeps(w, a.sys, st, MemberDels(st.pools), I);
      ThroughoutJoins(s, a.sys, b, I);
      var c := CallAll(w, b, PoolDels(st.pools));
      StageKeeps(w, b, st, PoolDels(st.pools), I);
      ThroughoutJoins(s, b, c.sys, I);
      if c.ok {
        StageKeeps(w, c.sys, st, MonitorDels(st.monitor), I);
        ThroughoutJoins(s, c.sys, r, I);
      }
    }
  }

  /** Whatever fails, a cleanup changes nothing that its status does not list. */
  lemma CleanupFrames(w: World, s: Sys, st: Status, id: Id)
    requires !Covers(st, id)
    ensures Throughout(s, RunCleanup(w, s, st).sys, d => SameAt(s.dev, d, id))
  {
    CleanupKeeps(w, s, st, d => SameAt(s.dev, d, id));
  }

  /** Once an object is absent a cleanup never brings it back. */
  lemma AbsentStays(w: World, s: Sys, ops: seq<Op>, id: Id)
    requires !Has(s.dev, id) && forall op :: op in ops ==> Removes(op)
    ensures !Has(CallAll(w, s, ops).sys.dev, id) && !Has(CallEach(w, s, ops).dev, id)
  {
    CallAllKeeps(w, s, ops, d => !Has(d, id));
    CallEachKeeps(w, s, ops, d => !Has(d, id));
  }

  lemma StageRemoves(w: World, s: Sys, ops: seq<Op>, op: Op, id: Id)
    requires CallAll(w, s, ops).ok && (forall o :: o in ops ==> Removes(o))
    requires op in ops && RemovesObject(op, id)
    ensures !Has(CallAll(w, s, ops).sys.dev, id)
  {
    CallAllOk(w, s, ops);
    RemovalsRemove(s.dev, ops, id);
  }

  lemma StagesRemove(st: Status)
    ensures forall op :: (|| op in VipDels(st.vips) || op in MemberDels(st.pools)
                          || op in PoolDels(st.pools) || op in MonitorDels(st.monitor)) ==> Removes(op)
  {
    forall op | op in VipDels(st.vips) || op in MemberDels(st.pools) || op in PoolDels(st.pools)
                || op in MonitorDels(st.monitor)
      ensures Removes(op) {
      StagesAreListed(st, op);
    }
  }

  /** A cleanup that ends without error has removed everything its status lists. */
  lemma CleanupRemoves(w: World, s: Sys, st: Status, id: Id)
    requires RunCleanup(w, s, st).ok && Covers(st, id)
    ensures !Has(RunCleanup(w, s, st).sys.dev, id)
  {
    StagesRemove(st);
    var a := CallAll(w, s, VipDels(st.vips));
    var b := CallEach(w, a.sys, MemberDels(st.pools));
    var c := CallAll(w, b, PoolDels(st.pools));
    match id
    case VipId(n) =>
      var v :| v in st.vips && v.name == n;
      VipDelsHas(st.vips, v);
      StageRemoves(w, s, VipDels(st.vips), DeleteVip(n), id);
      AbsentStays(w, a.sys, MemberDels(st.pools), id);
      AbsentStays(w, b, PoolDels(st.pools), id);
      AbsentStays(w, c.sys, MonitorDels(st.monitor), id);
    case PoolId(n) =>
      var p :| p in st.pools && p.name == n;
      PoolDelsHas(st.pools, p);
      StageRemoves(w, b, PoolDels(st.pools), DeletePool(n), id);
      AbsentStays(w, c.sys, MonitorDels(st.monitor), id);
    case MonitorId(n) =>
      StageRemoves(w, c.sys, MonitorDels(st.monitor), DeleteMonitor(n), id);
  }

  lemma CleanupLeavesNothing(w: World, s: Sys, st: Status)
    requires RunCleanup(w, s, st).ok
    ensures Gone(RunCleanup(w, s, st).sys.dev, st)
  {
    forall id | Covers(st, id) ensures !Has(RunCleanup(w, s, st).sys.dev, id) {
      CleanupRemoves(w, s, st, id);
    }
  }

  // ---------- Which calls a cleanup makes

  function KeyList(ms: seq<PoolMember>): seq<Key> {
    seq(|ms|, i requires 0 <= i < |ms| => KeyOf(ms[i]))
  }

  /** How many members with this key are recorded under this pool name. */
  function Recorded(pools: seq<Pool>, name: string, k: Key): nat {
    if pools == [] then 0
    else (if pools[0].name == name then multiset(KeyList(pools[0].members))[k] else 0) + Recorded(pools[1..], name, k)
  }

  lemma {:induction false} DelsCount(pool: string, ms: seq<PoolMember>, op: Op)
    ensures multiset(Dels(pool, ms))[op] == if op.DelMember? && op.name == pool then multiset(KeyList(ms))[op.key] else 0
  {
    if ms != [] {
      DelsCount(pool, ms[1..], op);
      assert Dels(pool, ms) == [DelMember(pool, KeyOf(ms[0]))] + Dels(pool, ms[1..]);
      assert KeyList(ms) == [KeyOf(ms[0])] + KeyList(ms[1..]);
    }
  }

  /** The member stage has one deletion for each recorded member of each pool, and nothing else. */
  lemma {:induction false} MemberDelsCount(pools: seq<Pool>, op: Op)
    ensures multiset(MemberDels(pools))[op] == if op.DelMember? then Recorded(pools, op.name, op.key) else 0
  {
    if pools != [] {
      DelsCount(pools[0].name, pools[0].members, op);
      MemberDelsCount(pools[1..], op);
    }
  }

  lemma {:induction false} VipDelsAt(vips: seq<VIP>)
    ensures |VipDels(vips)| == |vips| && forall i :: 0 <= i < |vips| ==> VipDels(vips)[i] == DeleteVip(vips[i].name)
  {
    if vips != [] { VipDelsAt(vips[1..]); }
  }

  lemma {:induction false} PoolDelsAt(pools: seq<Pool>)
    ensures |PoolDels(pools)| == |pools|
    ensures forall i :: 0 <= i < |pools| ==> PoolDels(pools)[i] == DeletePool(pools[i].name)
  {
    if pools != [] { PoolDelsAt(pools[1..]); }
  }

  /** Calls whose errors are ignored are all made, whatever fails. */
  lemma {:induction false} EachIsTried(w: World, s: Sys, ops: seq<Op>)
    ensures CallEach(w, s, ops).clock == s.clock + |ops|
    decreases |ops|
  {
    if ops != [] { EachIsTried(w, Call(w, s, ops[0]).sys, ops[1..]); }
  }

  lemma {:induction false} EachIsAll(w: World, s: Sys, ops: seq<Op>)
    requires CallAll(w, s, ops).ok
    ensures CallEach(w, s, ops) == CallAll(w, s, ops).sys
    decreases |ops|
  {
    if ops != [] { EachIsAll(w, Call(w, s, ops[0]).sys, ops[1..]); }
  }

  lemma StageLogs(w: World, s: Sys, ops: seq<Op>)
    requires FaultFree(w, s.clock) && !w.strict
    ensures var r := CallAll(w, s, ops);
            r.ok && Continues(s, r.sys) && Calls(Since(s, r.sys)) == ops && CallEach(w, s, ops) == r.sys
  {
    CallAllSucceeds(w, s, ops);
    OkCallsAre(w, s, ops);
    EachIsAll(w, s, ops);
  }

  lemma CallsJoin(a: Sys, b: Sys, c: Sys)
    requires Continues(a, b) && Continues(b, c)
    ensures Continues(a, c) && Calls(Since(a, c)) == Calls(Since(a, b)) + Calls(Since(b, c))
  {
    assert Since(a, c) == Since(a, b) + Since(b, c);
  }

  lemma CleanupCalls(w: World, s: Sys, st: Status)
    requires FaultFree(w, s.clock) && !w.strict
    ensures var r := RunCleanup(w, s, st);
            && r.ok && Continues(s, r.sys)
            && Calls(Since(s, r.sys))
               == VipDels(st.vips) + MemberDels(st.pools) + PoolDels(st.pools) + MonitorDels(st.monitor)
  {
    StageLogs(w, s, VipDels(st.vips));
    var a := CallAll(w, s, VipDels(st.vips)).sys;
    StageLogs(w, a, MemberDels(st.pools));
    var b := CallEach(w, a, MemberDels(st.pools));
    StageLogs(w, b, PoolDels(st.pools));
    var c := CallAll(w, b, PoolDels(st.pools)).sys;
    StageLogs(w, c, MonitorDels(st.monitor));
    var d := CallAll(w, c, MonitorDels(st.monitor)).sys;
    CallsJoin(s, a, b);
    CallsJoin(s, b, c);
    CallsJoin(s, c, d);
  }

  /** Each VIP in order; each recorded member once, in any order; each pool in order; the monitor. */
  ghost predicate AreStages(v: seq<Op>, m: seq<Op>, p: seq<Op>, e: seq<Op>, st: Status) {
    && |v| == |st.vips| && (forall i :: 0 <= i < |v| ==> v[i] == DeleteVip(st.vips[i].name))
    && (forall op :: multiset(m)[op] == if op.DelMember? then Recorded(st.pools, op.name, op.key) else 0)
    && |p| == |st.pools| && (forall i :: 0 <= i < |p| ==> p[i] == DeletePool(st.pools[i].name))
    && e == if st.monitor == NO_MONITOR then [] else [DeleteMonitor(st.monitor.name)]
  }

  ghost predicate IsCleanupLog(calls: seq<Op>, st: Status) {
    exists v, m, p, e :: AreStages(v, m, p, e, st) && calls == v + m + p + e
  }

  lemma StagesAreCleanupLog(st: Status)
    ensures IsCleanupLog(VipDels(st.vips) + MemberDels(st.pools) + PoolDels(st.pools) + MonitorDels(st.monitor), st)
  {
    VipDelsAt(st.vips);
    PoolDelsAt(st.pools);
    forall op: Op
      ensures multiset(MemberDels(st.pools))[op] == if op.DelMember? then Recorded(st.pools, op.name, op.key) else 0
    {
      MemberDelsCount(st.pools, op);
    }
    assert AreStages(VipDels(st.vips), MemberDels(st.pools), PoolDels(st.pools), MonitorDels(st.monitor), st);
  }

  /** Without faults, on a device that is not strict, a cleanup makes these calls. */
  lemma CleanupLogs(w: World, s: Sys, st: Status)
    requires FaultFree(w, s.clock) && !w.strict
    ensures var r := RunCleanup(w, s, st);
            r.ok && Continues(s, r.sys) && IsCleanupLog(Calls(Since(s, r.sys)), st)
  {
    CleanupCalls(w, s, st);
    StagesAreCleanupLog(st);
  }
}
