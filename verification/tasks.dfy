/** What one handler call has to establish on the device, the mutating calls it decides on, and the
    run of all handler calls of one pass. The imperative handlers are proved equal to these
    functions in module Handlers. */
module Tasks {
  import opened Types
  import opened Devices

  datatype Task = MonitorTask(m: Monitor) | PoolTask(p: Pool) | VipTask(v: VIP)

  function Obj(t: Task): Id {
    match t
    case MonitorTask(m) => MonitorId(m.name)
    case PoolTask(p) => PoolId(p.name)
    case VipTask(v) => VipId(v.name)
  }

  function PoolCfgOf(p: Pool): PoolCfg {
    PoolCfg(p.monitor, Keys(p.members))
  }

  /** The object of the task is on the device exactly as wanted. */
  predicate InSync(d: Device, t: Task) {
    match t
    case MonitorTask(m) => m.name in d.monitors && d.monitors[m.name] == MonitorCfgOf(m)
    case PoolTask(p) => p.name in d.pools && d.pools[p.name] == PoolCfgOf(p)
    case VipTask(v) => v.name in d.vips && d.vips[v.name] == VipCfgOf(v)
  }

  predicate AllInSync(d: Device, ts: seq<Task>) {
    forall t :: t in ts ==> InSync(d, t)
  }

  function Adds(pool: string, ms: seq<PoolMember>): seq<Op> {
    if ms == [] then [] else [AddMember(pool, KeyOf(ms[0]))] + Adds(pool, ms[1..])
  }

  function Dels(pool: string, ms: seq<PoolMember>): seq<Op> {
    if ms == [] then [] else [DelMember(pool, KeyOf(ms[0]))] + Dels(pool, ms[1..])
  }

  function RetargetOps(d: Device, p: Pool): seq<Op>
    requires p.name in d.pools
  {
    if d.pools[p.name].monitor != p.monitor then [EditPool(p.name, p.monitor)] else []
  }

  /** HandlePool on an existing pool whose members were listed as `listed`. */
  function UpdateOps(d: Device, p: Pool, listed: seq<PoolMember>): seq<Op>
    requires p.name in d.pools
  {
    RetargetOps(d, p)
    + Adds(p.name, Missing(p.members, Keys(listed)))
    + Dels(p.name, Missing(listed, Keys(p.members)))
  }

  /** The members GetPoolMembers answers with when it is the call after the next one. */
  function Listed(w: World, s: Sys, pool: string): seq<PoolMember>
    requires pool in s.dev.pools
  {
    w.listing(s.clock + 1, s.dev.pools[pool].members)
  }

  function Plan(w: World, s: Sys, t: Task): seq<Op> {
    match t
    case MonitorTask(m) =>
      if m.name !in s.dev.monitors then [CreateMonitor(m)]
      else if s.dev.monitors[m.name] != MonitorCfgOf(m) then [EditMonitor(m)]
      else []
    case PoolTask(p) =>
      if p.name !in s.dev.pools then [CreatePool(p.name, p.monitor)] + Adds(p.name, p.members)
      else UpdateOps(s.dev, p, Listed(w, s, p.name))
    case VipTask(v) =>
      if v.name !in s.dev.vips then [CreateVip(v)]
      else if s.dev.vips[v.name] != VipCfgOf(v) then [EditVip(v)]
      else []
  }

  /** The getters a handler calls before deciding. */
  function ReadAll(w: World, s: Sys, t: Task): Outcome {
    var first := Peek(w, s);
    if first.ok && t.PoolTask? && t.p.name in s.dev.pools then Peek(w, first.sys) else first
  }

  function RunTask(w: World, s: Sys, t: Task): Outcome {
    var r := ReadAll(w, s, t);
    if r.ok then CallAll(w, r.sys, Plan(w, s, t)) else r
  }

  function RunTasks(w: World, s: Sys, ts: seq<Task>): Outcome
    decreases |ts|
  {
    if ts == [] then Outcome(s, true)
    else
      var r := RunTask(w, s, ts[0]);
      if r.ok then RunTasks(w, r.sys, ts[1..]) else r
  }

  /** The calls a task may lead to: they put the wanted values on the wanted object, add wanted
      members, remove unwanted ones, and delete no object. */
  predicate Serves(op: Op, t: Task) {
    match t
    case MonitorTask(m) => op == CreateMonitor(m) || op == EditMonitor(m)
    case PoolTask(p) =>
      || op == CreatePool(p.name, p.monitor)
      || op == EditPool(p.name, p.monitor)
      || (op.AddMember? && op.name == p.name && op.key in Keys(p.members))
      || (op.DelMember? && op.name == p.name && op.key !in Keys(p.members))
    case VipTask(v) => op == CreateVip(v) || op == EditVip(v)
  }

  lemma {:induction false} AddsAre(pool: string, ms: seq<PoolMember>, op: Op)
    requires op in Adds(pool, ms)
    ensures op.AddMember? && op.name == pool && op.key in Keys(ms)
  {
    KeysFirst(ms);
    if op != Adds(pool, ms)[0] { AddsAre(pool, ms[1..], op); }
  }

  lemma {:induction false} DelsAre(pool: string, ms: seq<PoolMember>, op: Op)
    requires op in Dels(pool, ms)
    ensures op.DelMember? && op.name == pool && op.key in Keys(ms)
  {
    KeysFirst(ms);
    if op != Dels(pool, ms)[0] { DelsAre(pool, ms[1..], op); }
  }

  lemma PlanServes(w: World, s: Sys, t: Task, op: Op)
    requires op in Plan(w, s, t)
    ensures Serves(op, t)
  {
    if t.PoolTask? {
      var p := t.p;
      if p.name !in s.dev.pools {
        if op in Adds(p.name, p.members) { AddsAre(p.name, p.members, op); }
      } else {
        var listed := Listed(w, s, p.name);
        var adds, dels := Missing(p.members, Keys(listed)), Missing(listed, Keys(p.members));
        if op in Adds(p.name, adds) { AddsAre(p.name, adds, op); }
        if op in Dels(p.name, dels) { DelsAre(p.name, dels, op); }
      }
    }
  }

  /** A property kept by every call that serves one of the tasks holds at every point of their
      run, whatever fails. */
  lemma RunTaskKeeps(w: World, s: Sys, t: Task, I: Device -> bool)
    requires I(s.dev)
    requires forall d, op :: Serves(op, t) && I(d) ==> I(Apply(d, op))
    ensures Throughout(s, RunTask(w, s, t).sys, I)
  {
    var r := ReadAll(w, s, t);
    assert Throughout(s, r.sys, I);
    if r.ok {
      forall d, op | op in Plan(w, s, t) && I(d) ensures I(Apply(d, op)) {
        PlanServes(w, s, t, op);
      }
      CallAllKeeps(w, r.sys, Plan(w, s, t), I);
      ThroughoutJoins(s, r.sys, RunTask(w, s, t).sys, I);
    }
  }

  lemma {:induction false} RunTasksKeeps(w: World, s: Sys, ts: seq<Task>, I: Device -> bool)
    requires I(s.dev)
    requires forall d, op, t :: t in ts && Serves(op, t) && I(d) ==> I(Apply(d, op))
    ensures Throughout(s, RunTasks(w, s, ts).sys, I)
    decreases |ts|
  {
    if ts != [] {
      forall d, op | Serves(op, ts[0]) && I(d) ensures I(Apply(d, op)) {
        assert ts[0] in ts;
      }
      RunTaskKeeps(w, s, ts[0], I);
      var r := RunTask(w, s, ts[0]);
      if r.ok {
        forall d, op, t | t in ts[1..] && Serves(op, t) && I(d) ensures I(Apply(d, op)) {
          assert t in ts;
        }
        RunTasksKeeps(w, r.sys, ts[1..], I);
        ThroughoutJoins(s, r.sys, RunTasks(w, s, ts).sys, I);
      }
    }
  }

  // ---------- Convergence

  lemma {:induction false} ReplayAdds(d: Device, pool: string, ms: seq<PoolMember>)
    requires pool in d.pools
    ensures Replay(d, Adds(pool, ms)) == WithMembers(d, pool, d.pools[pool].members + Keys(ms))
    decreases |ms|
  {
    if ms == [] {
      assert d.pools[pool].members + Keys(ms) == d.pools[pool].members;
      assert d.pools == d.pools[pool := d.pools[pool]];
    } else {
      KeysFirst(ms);
      var op := AddMember(pool, KeyOf(ms[0]));
      var e := Apply(d, op);
      assert Adds(pool, ms)[1..] == Adds(pool, ms[1..]);
      ReplayAdds(e, pool, ms[1..]);
      assert e.pools[pool].members + Keys(ms[1..]) == d.pools[pool].members + Keys(ms);
      assert e.pools[pool := d.pools[pool].(members := d.pools[pool].members + Keys(ms))]
          == d.pools[pool := d.pools[pool].(members := d.pools[pool].members + Keys(ms))];
    }
  }

  lemma {:induction false} ReplayDels(d: Device, pool: string, ms: seq<PoolMember>)
    requires pool in d.pools
    ensures Replay(d, Dels(pool, ms)) == WithMembers(d, pool, d.pools[pool].members - Keys(ms))
    decreases |ms|
  {
    if ms == [] {
      assert d.pools[pool].members - Keys(ms) == d.pools[pool].members;
      assert d.pools == d.pools[pool := d.pools[pool]];
    } else {
      KeysFirst(ms);
      var op := DelMember(pool, KeyOf(ms[0]));
      var e := Apply(d, op);
      assert Dels(pool, ms)[1..] == Dels(pool, ms[1..]);
      ReplayDels(e, pool, ms[1..]);
      assert e.pools[pool].members - Keys(ms[1..]) == d.pools[pool].members - Keys(ms);
      assert e.pools[pool := d.pools[pool].(members := d.pools[pool].members - Keys(ms))]
          == d.pools[pool := d.pools[pool].(members := d.pools[pool].members - Keys(ms))];
    }
  }

  lemma RetargetReplay(d: Device, p: Pool)
    requires p.name in d.pools
    ensures Replay(d, RetargetOps(d, p)).pools == d.pools[p.name := PoolCfg(p.monitor, d.pools[p.name].members)]
    ensures Replay(d, RetargetOps(d, p)).monitors == d.monitors
    ensures p.monitor in d.monitors ==> AllAccepted(d, RetargetOps(d, p))
  {
    var e := RetargetOps(d, p);
    if e != [] {
      assert e[1..] == [] && Replay(d, e) == Replay(Apply(d, e[0]), []);
    }
  }

  lemma UpdateConverges(d: Device, p: Pool, listed: seq<PoolMember>)
    requires p.name in d.pools && Lists(listed, d.pools[p.name].members)
    ensures InSync(Replay(d, UpdateOps(d, p, listed)), PoolTask(p))
  {
    var e, a, b := RetargetOps(d, p), Adds(p.name, Missing(p.members, Keys(listed))),
      Dels(p.name, Missing(listed, Keys(p.members)));
    ReplayJoins(d, e + a, b);
    ReplayJoins(d, e, a);
    var d1 := Replay(d, e);
    RetargetReplay(d, p);
    ReplayAdds(d1, p.name, Missing(p.members, Keys(listed)));
    var d2 := Replay(d1, a);
    ReplayDels(d2, p.name, Missing(listed, Keys(p.members)));
    assert Replay(d2, b).pools[p.name].members == Keys(p.members);
  }

  lemma PlanConverges(w: World, s: Sys, t: Task)
    requires Faithful(w)
    ensures InSync(Replay(s.dev, Plan(w, s, t)), t)
  {
    var ops := Plan(w, s, t);
    match t
    case MonitorTask(m) => if ops != [] { assert ops[1..] == []; }
    case VipTask(v) => if ops != [] { assert ops[1..] == []; }
    case PoolTask(p) =>
      if p.name !in s.dev.pools {
        assert ops[1..] == Adds(p.name, p.members);
        ReplayAdds(Apply(s.dev, ops[0]), p.name, p.members);
        assert {} + Keys(p.members) == Keys(p.members);
      } else {
        UpdateConverges(s.dev, p, Listed(w, s, p.name));
      }
  }

  lemma TaskConverges(w: World, s: Sys, t: Task)
    requires Faithful(w)
    requires RunTask(w, s, t).ok
    ensures InSync(RunTask(w, s, t).sys.dev, t)
  {
    CallAllOk(w, ReadAll(w, s, t).sys, Plan(w, s, t));
    PlanConverges(w, s, t);
  }

  /** Tasks about the same object want the same thing of it. */
  ghost predicate Consistent(ts: seq<Task>) {
    forall t, u :: t in ts && u in ts && Obj(t) == Obj(u) ==> t == u
  }

  lemma ServingKeepsSync(d: Device, op: Op, t: Task, u: Task)
    requires Serves(op, u) && InSync(d, t)
    requires Obj(t) == Obj(u) ==> t == u
    ensures InSync(Apply(d, op), t)
  {
    if t.PoolTask? && t == u {
      assert op.AddMember? ==> d.pools[op.name].members + {op.key} == d.pools[op.name].members;
      assert op.DelMember? ==> d.pools[op.name].members - {op.key} == d.pools[op.name].members;
    }
  }

  lemma {:induction false} RunConverges(w: World, s: Sys, ts: seq<Task>)
    requires Faithful(w) && Consistent(ts)
    requires RunTasks(w, s, ts).ok
    ensures AllInSync(RunTasks(w, s, ts).sys.dev, ts)
    decreases |ts|
  {
    if ts != [] {
      var r := RunTask(w, s, ts[0]);
      TaskConverges(w, s, ts[0]);
      RunConverges(w, r.sys, ts[1..]);
      var I := d => InSync(d, ts[0]);
      forall d, op, t | t in ts[1..] && Serves(op, t) && I(d) ensures I(Apply(d, op)) {
        ServingKeepsSync(d, op, ts[0], t);
      }
      RunTasksKeeps(w, r.sys, ts[1..], I);
    }
  }

  /** Whatever fails, no call of the run touches an object that is not one of the tasks'. */
  lemma RunFrames(w: World, s: Sys, ts: seq<Task>, id: Id)
    requires forall t :: t in ts ==> Obj(t) != id
    ensures Throughout(s, RunTasks(w, s, ts).sys, d => SameAt(s.dev, d, id))
  {
    RunTasksKeeps(w, s, ts, d => SameAt(s.dev, d, id));
  }
}
