/** One pass of the reconciler over a device: what it wants for a load balancer, the configure
    phase and the finalizing phase (internal/controller/externalloadbalancer_controller.go:270-370
    and 539-585). */
module Passes {
  import opened Types
  import opened Names
  import opened Devices
  import opened Tasks
  import opened Progress
  import Rollout
  import opened Cleanup
  import opened Grounding

  /** What a pass read: the wanted address, ports and monitor, and the selected nodes. */
  datatype Want = Want(vip: string, ports: seq<int>, monitor: Monitor, nodes: seq<Node>)

  function MembersFor(nodes: seq<Node>, port: int): (ms: seq<PoolMember>)
    ensures |ms| == |nodes|
    ensures forall i :: 0 <= i < |nodes| ==> ms[i] == PoolMember(nodes[i], port)
  {
    seq(|nodes|, i requires 0 <= i < |nodes| => PoolMember(nodes[i], port))
  }

  function MonitorFor(lb: string, want: Want): Monitor {
    want.monitor.(name := MonitorName(lb))
  }

  function PoolFor(lb: string, want: Want, port: int): Pool {
    Pool(PoolName(lb, port), MembersFor(want.nodes, port), MonitorName(lb))
  }

  function VipFor(lb: string, want: Want, port: int): VIP {
    VIP(VipName(lb, port), PoolName(lb, port), want.vip, port)
  }

  function PoolsFor(lb: string, want: Want): (ps: seq<Pool>)
    ensures |ps| == |want.ports|
    ensures forall i :: 0 <= i < |ps| ==> ps[i] == PoolFor(lb, want, want.ports[i])
  {
    seq(|want.ports|, i requires 0 <= i < |want.ports| => PoolFor(lb, want, want.ports[i]))
  }

  function VipsFor(lb: string, want: Want): (vs: seq<VIP>)
    ensures |vs| == |want.ports|
    ensures forall i :: 0 <= i < |vs| ==> vs[i] == VipFor(lb, want, want.ports[i])
  {
    seq(|want.ports|, i requires 0 <= i < |want.ports| => VipFor(lb, want, want.ports[i]))
  }

  function PoolTasks(ps: seq<Pool>): (ts: seq<Task>)
    ensures |ts| == |ps|
    ensures forall i :: 0 <= i < |ps| ==> ts[i] == PoolTask(ps[i])
  {
    seq(|ps|, i requires 0 <= i < |ps| => PoolTask(ps[i]))
  }

  function VipTasks(vs: seq<VIP>): (ts: seq<Task>)
    ensures |ts| == |vs|
    ensures forall i :: 0 <= i < |vs| ==> ts[i] == VipTask(vs[i])
  {
    seq(|vs|, i requires 0 <= i < |vs| => VipTask(vs[i]))
  }

  /** The monitor, then every pool, then every VIP. */
  function TasksFor(lb: string, want: Want): seq<Task> {
    [MonitorTask(MonitorFor(lb, want))] + PoolTasks(PoolsFor(lb, want)) + VipTasks(VipsFor(lb, want))
  }

  function StatusFor(lb: string, want: Want, labels: map<string, string>): Status {
    Status(VipsFor(lb, want), want.ports, MonitorFor(lb, want), want.nodes, PoolsFor(lb, want), labels,
           |want.nodes|)
  }

  function Configure(w: World, s: Sys, ts: seq<Task>): Outcome {
    var connected := Peek(w, s);
    if !connected.ok then connected
    else
      var done := RunTasks(w, connected.sys, ts);
      if !done.ok then done else Peek(w, done.sys)
  }

  function Finalize(w: World, s: Sys, st: Status): Outcome {
    var connected := Peek(w, s);
    if !connected.ok then connected
    else
      var done := RunCleanup(w, connected.sys, st);
      if !done.ok then done else Peek(w, done.sys)
  }

  /** A whole pass on the device: configure, and if the object is being deleted, tear down. */
  function Pass(w: World, s: Sys, lb: string, want: Want, deleting: bool): Outcome {
    var r := Configure(w, s, TasksFor(lb, want));
    if r.ok && deleting then Finalize(w, r.sys, StatusFor(lb, want, map[])) else r
  }

  // ---------- The tasks of a pass

  ghost predicate Owns(lb: string, want: Want, id: Id) {
    match id
    case MonitorId(n) => n == MonitorName(lb)
    case PoolId(n) => exists p :: p in want.ports && n == PoolName(lb, p)
    case VipId(n) => exists p :: p in want.ports && n == VipName(lb, p)
  }

  lemma JoinedAt(first: Task, ps: seq<Pool>, vs: seq<VIP>, i: nat)
    requires i <= |ps| + |vs|
    ensures ([first] + PoolTasks(ps) + VipTasks(vs))[i]
            == if i == 0 then first else if i <= |ps| then PoolTask(ps[i - 1]) else VipTask(vs[i - 1 - |ps|])
  {
  }

  lemma JoinedHas(first: Task, ps: seq<Pool>, vs: seq<VIP>, t: Task)
    ensures t in [first] + PoolTasks(ps) + VipTasks(vs)
            <==> t == first || (t.PoolTask? && t.p in ps) || (t.VipTask? && t.v in vs)
  {
    var ts := [first] + PoolTasks(ps) + VipTasks(vs);
    if t in ts {
      var i :| 0 <= i < |ts| && ts[i] == t;
      JoinedAt(first, ps, vs, i);
    }
    if t == first { assert ts[0] == t; }
    if t.PoolTask? && t.p in ps {
      var i :| 0 <= i < |ps| && ps[i] == t.p;
      JoinedAt(first, ps, vs, i + 1);
    }
    if t.VipTask? && t.v in vs {
      var i :| 0 <= i < |vs| && vs[i] == t.v;
      JoinedAt(first, ps, vs, i + 1 + |ps|);
    }
  }

  lemma PoolsForHas(lb: string, want: Want, x: Pool)
    ensures x in PoolsFor(lb, want) <==> exists p :: p in want.ports && x == PoolFor(lb, want, p)
  {
    var pools := PoolsFor(lb, want);
    if x in pools {
      var i :| 0 <= i < |pools| && pools[i] == x;
      assert want.ports[i] in want.ports;
    }
    if p :| p in want.ports && x == PoolFor(lb, want, p) {
      var i :| 0 <= i < |want.ports| && want.ports[i] == p;
      assert pools[i] == x;
    }
  }

  lemma VipsForHas(lb: string, want: Want, x: VIP)
    ensures x in VipsFor(lb, want) <==> exists p :: p in want.ports && x == VipFor(lb, want, p)
  {
    var vips := VipsFor(lb, want);
    if x in vips {
      var i :| 0 <= i < |vips| && vips[i] == x;
      assert want.ports[i] in want.ports;
    }
    if p :| p in want.ports && x == VipFor(lb, want, p) {
      var i :| 0 <= i < |want.ports| && want.ports[i] == p;
      assert vips[i] == x;
    }
  }

  lemma TasksAre(lb: string, want: Want, t: Task)
    ensures t in TasksFor(lb, want) <==>
      || t == MonitorTask(MonitorFor(lb, want))
      || (exists p :: p in want.ports && t == PoolTask(PoolFor(lb, want, p)))
      || (exists p :: p in want.ports && t == VipTask(VipFor(lb, want, p)))
  {
    JoinedHas(MonitorTask(MonitorFor(lb, want)), PoolsFor(lb, want), VipsFor(lb, want), t);
    match t
    case MonitorTask(_) =>
    case PoolTask(x) => PoolsForHas(lb, want, x);
    case VipTask(x) => VipsForHas(lb, want, x);
  }

  lemma TaskObjects(lb: string, want: Want, id: Id)
    ensures Owns(lb, want, id) <==> exists t :: t in TasksFor(lb, want) && Obj(t) == id
  {
    if Owns(lb, want, id) {
      match id
      case MonitorId(n) =>
        TasksAre(lb, want, MonitorTask(MonitorFor(lb, want)));
      case PoolId(n) =>
        var p :| p in want.ports && n == PoolName(lb, p);
        TasksAre(lb, want, PoolTask(PoolFor(lb, want, p)));
        assert Obj(PoolTask(PoolFor(lb, want, p))) == id;
      case VipId(n) =>
        var p :| p in want.ports && n == VipName(lb, p);
        TasksAre(lb, want, VipTask(VipFor(lb, want, p)));
        assert Obj(VipTask(VipFor(lb, want, p))) == id;
    }
    forall t | t in TasksFor(lb, want) ensures Owns(lb, want, Obj(t)) {
      TasksAre(lb, want, t);
    }
  }

  lemma StatusPools(lb: string, want: Want, n: string)
    ensures (exists p :: p in PoolsFor(lb, want) && p.name == n) <==> Owns(lb, want, PoolId(n))
  {
    if p :| p in PoolsFor(lb, want) && p.name == n { PoolsForHas(lb, want, p); }
    if q :| q in want.ports && n == PoolName(lb, q) { PoolsForHas(lb, want, PoolFor(lb, want, q)); }
  }

  lemma StatusVips(lb: string, want: Want, n: string)
    ensures (exists v :: v in VipsFor(lb, want) && v.name == n) <==> Owns(lb, want, VipId(n))
  {
    if v :| v in VipsFor(lb, want) && v.name == n { VipsForHas(lb, want, v); }
    if q :| q in want.ports && n == VipName(lb, q) { VipsForHas(lb, want, VipFor(lb, want, q)); }
  }

  lemma StatusObjects(lb: string, want: Want, labels: map<string, string>, id: Id)
    ensures Covers(StatusFor(lb, want, labels), id) <==> Owns(lb, want, id)
  {
    match id
    case MonitorId(n) => assert MonitorName(lb)[0] == 'M';
    case PoolId(n) => StatusPools(lb, want, n);
    case VipId(n) => StatusVips(lb, want, n);
  }

  /** Repeated ports repeat the very same task. */
  lemma TasksConsistent(lb: string, want: Want)
    ensures Consistent(TasksFor(lb, want))
  {
    var ts := TasksFor(lb, want);
    forall t, u | t in ts && u in ts && Obj(t) == Obj(u) ensures t == u {
      TasksAre(lb, want, t);
      TasksAre(lb, want, u);
      if t.PoolTask? {
        var p :| p in want.ports && t == PoolTask(PoolFor(lb, want, p));
        var q :| q in want.ports && u == PoolTask(PoolFor(lb, want, q));
        PortsInjective(lb, p, q);
      }
      if t.VipTask? {
        var p :| p in want.ports && t == VipTask(VipFor(lb, want, p));
        var q :| q in want.ports && u == VipTask(VipFor(lb, want, q));
        PortsInjective(lb, p, q);
      }
    }
  }

  ghost predicate DistinctPorts(want: Want) {
    forall i, j :: 0 <= i < j < |want.ports| ==> want.ports[i] != want.ports[j]
  }

  ghost predicate DistinctHosts(want: Want) {
    forall i, j :: 0 <= i < j < |want.nodes| ==> want.nodes[i].host != want.nodes[j].host
  }

  /** Of the nodes that have to be added to a pool no two have the same address. */
  ghost predicate NewMembersDistinct(d: Device, lb: string, want: Want) {
    forall p :: p in want.ports ==>
      DistinctKeys(Missing(MembersFor(want.nodes, p), KeysAt(d, PoolName(lb, p))))
  }

  lemma NewMembersIff(d: Device, lb: string, want: Want)
    ensures NewMembersDistinct(d, lb, want) <==> AllDistinctAdds(d, TasksFor(lb, want))
  {
    forall p | p in want.ports ensures PoolTask(PoolFor(lb, want, p)) in TasksFor(lb, want) {
      TasksAre(lb, want, PoolTask(PoolFor(lb, want, p)));
    }
    if AllDistinctAdds(d, TasksFor(lb, want)) {
      forall p | p in want.ports
        ensures DistinctKeys(Missing(MembersFor(want.nodes, p), KeysAt(d, PoolName(lb, p))))
      {
        assert DistinctAdds(d, PoolTask(PoolFor(lb, want, p)));
      }
    }
    if NewMembersDistinct(d, lb, want) {
      forall t | t in TasksFor(lb, want) ensures DistinctAdds(d, t) { TasksAre(lb, want, t); }
    }
  }

  /** Different addresses suffice, whatever the device holds. */
  lemma DistinctHostsSuffice(d: Device, lb: string, want: Want)
    requires DistinctHosts(want)
    ensures NewMembersDistinct(d, lb, want)
  {
    forall p | p in want.ports ensures DistinctKeys(MembersFor(want.nodes, p)) {}
  }

  lemma PoolsDiffer(lb: string, p: int, q: int)
    requires p != q
    ensures PoolId(PoolName(lb, p)) != PoolId(PoolName(lb, q))
  {
    PortsInjective(lb, p, q);
  }

  lemma VipsDiffer(lb: string, p: int, q: int)
    requires p != q
    ensures VipId(VipName(lb, p)) != VipId(VipName(lb, q))
  {
    PortsInjective(lb, p, q);
  }

  lemma StatusDistinct(lb: string, want: Want)
    requires DistinctPorts(want)
    ensures DistinctVips(VipsFor(lb, want)) && DistinctPools(PoolsFor(lb, want))
  {
    forall i, j | 0 <= i < j < |want.ports| ensures VipsFor(lb, want)[i].name != VipsFor(lb, want)[j].name {
      VipsDiffer(lb, want.ports[i], want.ports[j]);
    }
    forall i, j | 0 <= i < j < |want.ports| ensures PoolsFor(lb, want)[i].name != PoolsFor(lb, want)[j].name {
      PoolsDiffer(lb, want.ports[i], want.ports[j]);
    }
  }

  lemma JoinedDistinct(m: Monitor, ps: seq<Pool>, vs: seq<VIP>)
    requires DistinctPools(ps) && DistinctVips(vs)
    ensures DistinctObjects([MonitorTask(m)] + PoolTasks(ps) + VipTasks(vs))
  {
    var ts := [MonitorTask(m)] + PoolTasks(ps) + VipTasks(vs);
    forall i, j | 0 <= i < j < |ts| ensures Obj(ts[i]) != Obj(ts[j]) {
      JoinedAt(MonitorTask(m), ps, vs, i);
      JoinedAt(MonitorTask(m), ps, vs, j);
    }
  }

  lemma TasksSeparate(lb: string, want: Want)
    requires DistinctPorts(want)
    ensures DistinctObjects(TasksFor(lb, want))
  {
    StatusDistinct(lb, want);
    JoinedDistinct(MonitorFor(lb, want), PoolsFor(lb, want), VipsFor(lb, want));
  }

  /** Pools that refer to the monitor and VIPs that refer to the pools, each behind what it refers to. */
  lemma JoinedGrounded(m: Monitor, ps: seq<Pool>, vs: seq<VIP>, d: Device)
    requires |vs| == |ps| && forall i :: 0 <= i < |ps| ==> ps[i].monitor == m.name && vs[i].pool == ps[i].name
    ensures Grounded(d, [MonitorTask(m)] + PoolTasks(ps) + VipTasks(vs))
  {
    var ts, n := [MonitorTask(m)] + PoolTasks(ps) + VipTasks(vs), |ps|;
    forall i | 0 <= i < |ts| && Ref(ts[i]).Some?
      ensures exists j :: 0 <= j < i && Obj(ts[j]) == Ref(ts[i]).value
    {
      var j := if i <= n then 0 else i - n;
      JoinedAt(MonitorTask(m), ps, vs, i);
      JoinedAt(MonitorTask(m), ps, vs, j);
      assert Obj(ts[j]) == Ref(ts[i]).value;
    }
  }

  lemma TasksGrounded(lb: string, want: Want, d: Device)
    ensures Grounded(d, TasksFor(lb, want))
  {
    JoinedGrounded(MonitorFor(lb, want), PoolsFor(lb, want), VipsFor(lb, want), d);
  }

  // ---------- Convergence of a configure phase

  lemma ConfigureIsRun(w: World, s: Sys, ts: seq<Task>)
    ensures var r, c := Configure(w, s, ts), Peek(w, s);
            && (if c.ok then r.sys.dev == RunTasks(w, c.sys, ts).sys.dev && r.sys.log == RunTasks(w, c.sys, ts).sys.log
                else r.sys.dev == s.dev && r.sys.log == s.log)
            && (r.ok ==> c.ok && RunTasks(w, c.sys, ts).ok)
  {
  }

  lemma ConfigureKeeps(w: World, s: Sys, ts: seq<Task>, I: Device -> bool)
    requires I(s.dev)
    requires forall d, op, t :: t in ts && Serves(op, t) && I(d) ==> I(Apply(d, op))
    ensures Throughout(s, Configure(w, s, ts).sys, I)
  {
    RunTasksKeeps(w, Peek(w, s).sys, ts, I);
  }

  lemma FinalizeKeeps(w: World, s: Sys, st: Status, I: Device -> bool)
    requires I(s.dev) && KeptByCleanup(st, I)
    ensures Throughout(s, Finalize(w, s, st).sys, I)
  {
    CleanupKeeps(w, Peek(w, s).sys, st, I);
  }

  /** The device is exactly as wanted for this load balancer, said without reference to tasks. */
  ghost predicate Configured(d: Device, lb: string, want: Want) {
    && MonitorName(lb) in d.monitors
    && d.monitors[MonitorName(lb)] == MonitorCfgOf(want.monitor)
    && forall p :: p in want.ports ==>
         && PoolName(lb, p) in d.pools
         && d.pools[PoolName(lb, p)] == PoolCfg(MonitorName(lb), set n | n in want.nodes :: Key(n.host, p))
         && VipName(lb, p) in d.vips
         && d.vips[VipName(lb, p)] == VipCfg(want.vip, p, PoolName(lb, p))
  }

  lemma MembersKeys(nodes: seq<Node>, p: int)
    ensures Keys(MembersFor(nodes, p)) == set n | n in nodes :: Key(n.host, p)
  {
    var ms := MembersFor(nodes, p);
    forall n | n in nodes ensures Key(n.host, p) in Keys(ms) {
      var i :| 0 <= i < |nodes| && nodes[i] == n;
      assert ms[i] in ms && KeyOf(ms[i]) == Key(n.host, p);
    }
  }

  lemma InSyncIsConfigured(d: Device, lb: string, want: Want)
    ensures AllInSync(d, TasksFor(lb, want)) <==> Configured(d, lb, want)
  {
    var ts := TasksFor(lb, want);
    if AllInSync(d, ts) {
      TasksAre(lb, want, MonitorTask(MonitorFor(lb, want)));
      forall p | p in want.ports
        ensures InSync(d, PoolTask(PoolFor(lb, want, p))) && InSync(d, VipTask(VipFor(lb, want, p)))
        ensures Keys(MembersFor(want.nodes, p)) == set n | n in want.nodes :: Key(n.host, p)
      {
        TasksAre(lb, want, PoolTask(PoolFor(lb, want, p)));
        TasksAre(lb, want, VipTask(VipFor(lb, want, p)));
        MembersKeys(want.nodes, p);
      }
    }
    if Configured(d, lb, want) {
      forall t | t in ts ensures InSync(d, t) {
        TasksAre(lb, want, t);
        if t.PoolTask? {
          var p :| p in want.ports && t == PoolTask(PoolFor(lb, want, p));
          MembersKeys(want.nodes, p);
        }
      }
    }
  }

  /** From any device state, an error-free configure phase leaves the monitor, every pool and every
      VIP exactly as wanted. */
  lemma ConfigureConverges(w: World, s: Sys, lb: string, want: Want)
    requires Faithful(w) && Configure(w, s, TasksFor(lb, want)).ok
    ensures Configured(Configure(w, s, TasksFor(lb, want)).sys.dev, lb, want)
  {
    TasksConsistent(lb, want);
    RunConverges(w, Peek(w, s).sys, TasksFor(lb, want));
    InSyncIsConfigured(Configure(w, s, TasksFor(lb, want)).sys.dev, lb, want);
  }

  /** On a strict device a fault-free configure phase goes through exactly if no handler has to add a
      member twice. */
  lemma ConfigureSucceedsIff(w: World, s: Sys, lb: string, want: Want)
    requires Faithful(w) && w.strict && FaultFree(w, s.clock)
    ensures Configure(w, s, TasksFor(lb, want)).ok <==> NewMembersDistinct(s.dev, lb, want)
  {
    var ts := TasksFor(lb, want);
    TasksConsistent(lb, want);
    NewMembersIff(s.dev, lb, want);
    TasksGrounded(lb, want, s.dev);
    if AllDistinctAdds(s.dev, ts) { RunSucceeds(w, Peek(w, s).sys, ts); }
    if Configure(w, s, ts).ok { RunHadDistinctAdds(w, Peek(w, s).sys, ts); }
  }

  lemma ElsewhereKeeps(d0: Device, d: Device, op: Op, id: Id)
    requires Target(op) != id && SameAt(d0, d, id)
    ensures SameAt(d0, Apply(d, op), id)
  {
  }

  lemma TasksFrame(w: World, s: Sys, ts: seq<Task>, d0: Device, id: Id)
    requires SameAt(d0, s.dev, id) && forall t :: t in ts ==> Obj(t) != id
    ensures Throughout(s, Configure(w, s, ts).sys, d => SameAt(d0, d, id))
  {
    var I := d => SameAt(d0, d, id);
    forall d, op, t | t in ts && Serves(op, t) && I(d) ensures I(Apply(d, op)) { ElsewhereKeeps(d0, d, op, id); }
    ConfigureKeeps(w, s, ts, I);
  }

  lemma ConfigureFrames(w: World, s: Sys, lb: string, want: Want, d0: Device, id: Id)
    requires !Owns(lb, want, id) && SameAt(d0, s.dev, id)
    ensures Throughout(s, Configure(w, s, TasksFor(lb, want)).sys, d => SameAt(d0, d, id))
  {
    forall t | t in TasksFor(lb, want) ensures Obj(t) != id { TaskObjects(lb, want, id); }
    TasksFrame(w, s, TasksFor(lb, want), d0, id);
  }

  lemma FinalizeFrames(w: World, s: Sys, lb: string, want: Want, d0: Device, id: Id)
    requires !Owns(lb, want, id) && SameAt(d0, s.dev, id)
    ensures Throughout(s, Finalize(w, s, StatusFor(lb, want, map[])).sys, d => SameAt(d0, d, id))
  {
    StatusObjects(lb, want, map[], id);
    var I, st := d => SameAt(d0, d, id), StatusFor(lb, want, map[]);
    forall d, op | Removes(op) && Covers(st, Target(op)) && I(d) ensures I(Apply(d, op)) {
      ElsewhereKeeps(d0, d, op, id);
    }
    FinalizeKeeps(w, s, st, I);
  }

  /** Whatever fails, no call of a pass, deleting or not, changes an object it does not own. */
  lemma PassFrames(w: World, s: Sys, lb: string, want: Want, deleting: bool, id: Id)
    requires !Owns(lb, want, id)
    ensures Throughout(s, Pass(w, s, lb, want, deleting).sys, d => SameAt(s.dev, d, id))
  {
    ConfigureFrames(w, s, lb, want, s.dev, id);
    var r := Configure(w, s, TasksFor(lb, want));
    if r.ok && deleting {
      FinalizeFrames(w, r.sys, lb, want, s.dev, id);
      ThroughoutJoins(s, r.sys, Pass(w, s, lb, want, deleting).sys, d => SameAt(s.dev, d, id));
    }
  }

  /** An error-free deleting pass leaves none of the objects it owns. */
  lemma DeletingPassRemoves(w: World, s: Sys, lb: string, want: Want, id: Id)
    requires Pass(w, s, lb, want, true).ok && Owns(lb, want, id)
    ensures !Has(Pass(w, s, lb, want, true).sys.dev, id)
  {
    var r, st := Configure(w, s, TasksFor(lb, want)), StatusFor(lb, want, map[]);
    StatusObjects(lb, want, map[], id);
    CleanupRemoves(w, Peek(w, r.sys).sys, st, id);
  }

  /** A pass over a configured device makes no mutating call until it deletes. */
  lemma ConfiguredIsQuiet(w: World, s: Sys, lb: string, want: Want)
    requires Faithful(w) && Configured(s.dev, lb, want)
    ensures Pass(w, s, lb, want, false).sys.log == s.log && Pass(w, s, lb, want, false).sys.dev == s.dev
  {
    InSyncIsConfigured(s.dev, lb, want);
    Rollout.Quiescent(w, Peek(w, s).sys, TasksFor(lb, want));
  }

  lemma ConfigureKeepsDistinctAdds(w: World, s: Sys, ts: seq<Task>)
    requires DistinctObjects(ts) && AllDistinctAdds(s.dev, ts)
    ensures AllDistinctAdds(Configure(w, s, ts).sys.dev, ts)
  {
    DistinctIsConsistent(ts);
    RunKeepsDistinctAdds(w, Peek(w, s).sys, ts, ts);
  }

  /** One configure phase, whatever fails in it: every effective call is a step closer. */
  lemma ConfigureStepsDown(w: World, s: Sys, ts: seq<Task>)
    requires Faithful(w) && DistinctObjects(ts) && AllDistinctAdds(s.dev, ts)
    ensures StepsDown(s, Configure(w, s, ts).sys, ts)
  {
    RunStepsDown(w, Peek(w, s).sys, ts);
  }

  /** The phase repeated `n` times, each time from whatever the last one left. */
  function Retry(w: World, s: Sys, ts: seq<Task>, n: nat): Outcome {
    if n == 0 then Outcome(s, false) else Configure(w, Retry(w, s, ts, n - 1).sys, ts)
  }

  lemma {:induction false} RetriesDescend(w: World, s: Sys, ts: seq<Task>, n: nat)
    requires Faithful(w) && DistinctObjects(ts) && AllDistinctAdds(s.dev, ts)
    ensures StepsDown(s, Retry(w, s, ts, n).sys, ts) && AllDistinctAdds(Retry(w, s, ts, n).sys.dev, ts)
  {
    if n > 0 {
      RetriesDescend(w, s, ts, n - 1);
      var q := Retry(w, s, ts, n - 1).sys;
      ConfigureKeepsDistinctAdds(w, q, ts);
      ConfigureStepsDown(w, q, ts);
      StepsDownJoins(s, q, Retry(w, s, ts, n).sys, ts);
    }
  }

  /** Over any number of faulty phases: effective calls plus remaining distance is constant, so
      together they make at most the initial distance of effective calls, and one of them ends
      without error only when the device is configured. */
  lemma RetriesStepDown(w: World, s: Sys, lb: string, want: Want, n: nat)
    requires Faithful(w) && DistinctPorts(want) && NewMembersDistinct(s.dev, lb, want)
    ensures var ts := TasksFor(lb, want);
            var r := Retry(w, s, ts, n);
            && StepsDown(s, r.sys, ts)
            && |r.sys.log| - |s.log| <= Dist(s.dev, ts)
            && (Dist(r.sys.dev, ts) == 0 <==> Configured(r.sys.dev, lb, want))
            && (r.ok ==> Configured(r.sys.dev, lb, want))
  {
    var ts := TasksFor(lb, want);
    var r := Retry(w, s, ts, n);
    TasksSeparate(lb, want);
    NewMembersIff(s.dev, lb, want);
    RetriesDescend(w, s, ts, n);
    if n > 0 && r.ok {
      ConfigureConverges(w, Retry(w, s, ts, n - 1).sys, lb, want);
    }
    DistZero(r.sys.dev, ts);
    InSyncIsConfigured(r.sys.dev, lb, want);
  }
}
