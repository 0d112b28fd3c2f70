/** How far a device is from what the tasks want, and that every effective call of every pass,
    however many passes are cut short by faults, brings it exactly one step closer. */
module Progress {
  import opened Types
  import opened Devices
  import opened Tasks

  /** Missing object, wrong fields, missing members and extra members of one task. */
  function TaskDist(d: Device, t: Task): nat {
    match t
    case MonitorTask(m) => if InSync(d, t) then 0 else 1
    case VipTask(v) => if InSync(d, t) then 0 else 1
    case PoolTask(p) =>
      var want := Keys(p.members);
      if p.name !in d.pools then 1 + |want|
      else
        (if d.pools[p.name].monitor != p.monitor then 1 else 0)
        + |want - d.pools[p.name].members| + |d.pools[p.name].members - want|
  }

  function Dist(d: Device, ts: seq<Task>): nat {
    if ts == [] then 0 else TaskDist(d, ts[0]) + Dist(d, ts[1..])
  }

  lemma TaskDistZero(d: Device, t: Task)
    ensures TaskDist(d, t) == 0 <==> InSync(d, t)
  {
    if t.PoolTask? && t.p.name in d.pools {
      var want, have := Keys(t.p.members), d.pools[t.p.name].members;
      if |want - have| == 0 && |have - want| == 0 {
        assert want - have == {} && have - want == {};
        assert want == have;
      }
      if want == have {
        assert want - have == {} && have - want == {};
      }
    }
  }

  lemma {:induction false} DistZero(d: Device, ts: seq<Task>)
    ensures Dist(d, ts) == 0 <==> AllInSync(d, ts)
  {
    if ts != [] {
      TaskDistZero(d, ts[0]);
      DistZero(d, ts[1..]);
      assert forall t :: t in ts <==> t == ts[0] || t in ts[1..];
    }
  }

  /** Every call of `ops` lowers the distance of `t` by one when its turn comes. */
  predicate Descends(d: Device, ops: seq<Op>, t: Task)
    decreases |ops|
  {
    ops == [] ||
    (TaskDist(Apply(d, ops[0]), t) == TaskDist(d, t) - 1 && Descends(Apply(d, ops[0]), ops[1..], t))
  }

  lemma FirstOfJoin(a: seq<Op>, b: seq<Op>)
    requires a != []
    ensures a + b == [a[0]] + (a[1..] + b)
  {
  }

  lemma DescendsFirst(d: Device, op: Op, rest: seq<Op>, t: Task)
    requires TaskDist(Apply(d, op), t) == TaskDist(d, t) - 1 && Descends(Apply(d, op), rest, t)
    ensures Descends(d, [op] + rest, t)
  {
    var ops := [op] + rest;
    assert ops[0] == op && ops[1..] == rest;
  }

  lemma {:induction false} DescendsJoins(d: Device, a: seq<Op>, b: seq<Op>, t: Task)
    requires Descends(d, a, t) && Descends(Replay(d, a), b, t)
    ensures Descends(d, a + b, t)
    decreases |a|
  {
    if a == [] {
      assert a + b == b;
    } else {
      DescendsJoins(Apply(d, a[0]), a[1..], b, t);
      DescendsFirst(d, a[0], a[1..] + b, t);
      FirstOfJoin(a, b);
    }
  }

  lemma AddStep(d: Device, p: Pool, k: Key)
    requires p.name in d.pools && k in Keys(p.members) - d.pools[p.name].members
    ensures TaskDist(Apply(d, AddMember(p.name, k)), PoolTask(p)) == TaskDist(d, PoolTask(p)) - 1
    ensures Accepts(d, AddMember(p.name, k))
  {
    var want, have := Keys(p.members), d.pools[p.name].members;
    assert want - (have + {k}) == (want - have) - {k};
    assert (have + {k}) - want == have - want;
  }

  lemma DelStep(d: Device, p: Pool, k: Key)
    requires p.name in d.pools && k in d.pools[p.name].members - Keys(p.members)
    ensures TaskDist(Apply(d, DelMember(p.name, k)), PoolTask(p)) == TaskDist(d, PoolTask(p)) - 1
    ensures Accepts(d, DelMember(p.name, k))
  {
    var want, have := Keys(p.members), d.pools[p.name].members;
    assert want - (have - {k}) == want - have;
    assert (have - {k}) - want == (have - want) - {k};
  }

  lemma {:induction false} AddsDescend(d: Device, p: Pool, ms: seq<PoolMember>)
    requires p.name in d.pools && DistinctKeys(ms)
    requires Keys(ms) <= Keys(p.members) - d.pools[p.name].members
    ensures Descends(d, Adds(p.name, ms), PoolTask(p)) && AllAccepted(d, Adds(p.name, ms))
    decreases |ms|
  {
    if ms != [] {
      KeysFirst(ms);
      DistinctFirst(ms);
      AddStep(d, p, KeyOf(ms[0]));
      assert Adds(p.name, ms)[1..] == Adds(p.name, ms[1..]);
      AddsDescend(Apply(d, AddMember(p.name, KeyOf(ms[0]))), p, ms[1..]);
    }
  }

  lemma {:induction false} DelsDescend(d: Device, p: Pool, ms: seq<PoolMember>)
    requires p.name in d.pools && DistinctKeys(ms)
    requires Keys(ms) <= d.pools[p.name].members - Keys(p.members)
    ensures Descends(d, Dels(p.name, ms), PoolTask(p)) && AllAccepted(d, Dels(p.name, ms))
    decreases |ms|
  {
    if ms != [] {
      KeysFirst(ms);
      DistinctFirst(ms);
      DelStep(d, p, KeyOf(ms[0]));
      assert Dels(p.name, ms)[1..] == Dels(p.name, ms[1..]);
      DelsDescend(Apply(d, DelMember(p.name, KeyOf(ms[0]))), p, ms[1..]);
    }
  }

  /** The object a task's own object refers to. */
  predicate RefReady(d: Device, t: Task) {
    match t
    case MonitorTask(_) => true
    case PoolTask(p) => p.monitor in d.monitors
    case VipTask(v) => v.pool in d.pools
  }

  function KeysAt(d: Device, pool: string): set<Key> {
    if pool in d.pools then d.pools[pool].members else {}
  }

  /** No two of the members that the task has to add have the same host and port. */
  ghost predicate DistinctAdds(d: Device, t: Task) {
    t.PoolTask? ==> DistinctKeys(Missing(t.p.members, KeysAt(d, t.p.name)))
  }

  lemma {:induction false} MissingNothing(ms: seq<PoolMember>)
    ensures Missing(ms, {}) == ms
  {
    if ms != [] { MissingNothing(ms[1..]); }
  }

  /** The more members are there, the fewer are to be added. */
  lemma {:induction false} MissingShrinks(ms: seq<PoolMember>, have: set<Key>, more: set<Key>)
    requires DistinctKeys(Missing(ms, have)) && have * Keys(ms) <= more
    ensures DistinctKeys(Missing(ms, more))
  {
    if ms != [] {
      KeysFirst(ms);
      var k, rest := KeyOf(ms[0]), Missing(ms[1..], have);
      if k !in have {
        assert Missing(ms, have)[1..] == rest;
        DistinctFirst(Missing(ms, have));
      }
      MissingShrinks(ms[1..], have, more);
      if k !in more { DistinctCons(ms[0], Missing(ms[1..], more)); }
    }
  }

  /** No call of a pass makes an addition ambiguous. */
  lemma ServingKeepsDistinctAdds(d: Device, op: Op, t: Task, u: Task)
    requires Serves(op, u) && DistinctAdds(d, t)
    requires Obj(t) == Obj(u) ==> t == u
    ensures DistinctAdds(Apply(d, op), t)
  {
    if t.PoolTask? {
      MissingShrinks(t.p.members, KeysAt(d, t.p.name), KeysAt(Apply(d, op), t.p.name));
    }
  }

  lemma RetargetDescends(d: Device, p: Pool)
    requires p.name in d.pools
    ensures Descends(d, RetargetOps(d, p), PoolTask(p))
  {
    var e := RetargetOps(d, p);
    if e != [] { assert e[1..] == []; }
  }

  /** The additions of an update, on the device that the monitor edit left. */
  lemma UpdateAdds(d: Device, p: Pool, listed: seq<PoolMember>)
    requires p.name in d.pools && Lists(listed, d.pools[p.name].members)
    requires DistinctAdds(d, PoolTask(p))
    ensures var e, a := Replay(d, RetargetOps(d, p)), Adds(p.name, Missing(p.members, Keys(listed)));
            && Descends(e, a, PoolTask(p)) && AllAccepted(e, a)
            && p.name in Replay(e, a).pools
            && Replay(e, a).pools[p.name].members == Keys(listed) + Keys(p.members)
  {
    RetargetReplay(d, p);
    AddsDescend(Replay(d, RetargetOps(d, p)), p, Missing(p.members, Keys(listed)));
    ReplayAdds(Replay(d, RetargetOps(d, p)), p.name, Missing(p.members, Keys(listed)));
  }

  /** The deletions of an update, on the device that the additions left. */
  lemma UpdateDels(d: Device, p: Pool, listed: seq<PoolMember>)
    requires p.name in d.pools && DistinctKeys(listed) && d.pools[p.name].members == Keys(listed) + Keys(p.members)
    ensures var b := Dels(p.name, Missing(listed, Keys(p.members)));
            Descends(d, b, PoolTask(p)) && AllAccepted(d, b)
  {
    DelsDescend(d, p, Missing(listed, Keys(p.members)));
  }

  lemma UpdateDescends(d: Device, p: Pool, listed: seq<PoolMember>)
    requires p.name in d.pools && Lists(listed, d.pools[p.name].members)
    requires DistinctAdds(d, PoolTask(p))
    ensures Descends(d, UpdateOps(d, p, listed), PoolTask(p))
  {
    var e, a, b := RetargetOps(d, p), Adds(p.name, Missing(p.members, Keys(listed))),
      Dels(p.name, Missing(listed, Keys(p.members)));
    RetargetDescends(d, p);
    UpdateAdds(d, p, listed);
    DescendsJoins(d, e, a, PoolTask(p));
    ReplayJoins(d, e, a);
    UpdateDels(Replay(d, e + a), p, listed);
    DescendsJoins(d, e + a, b, PoolTask(p));
  }

  lemma UpdateAccepted(d: Device, p: Pool, listed: seq<PoolMember>)
    requires p.name in d.pools && Lists(listed, d.pools[p.name].members)
    requires DistinctAdds(d, PoolTask(p)) && p.monitor in d.monitors
    ensures AllAccepted(d, UpdateOps(d, p, listed))
  {
    var e, a, b := RetargetOps(d, p), Adds(p.name, Missing(p.members, Keys(listed))),
      Dels(p.name, Missing(listed, Keys(p.members)));
    RetargetReplay(d, p);
    UpdateAdds(d, p, listed);
    ReplayJoins(d, e, a);
    UpdateDels(Replay(d, e + a), p, listed);
    ReplayJoins(d, e + a, b);
  }

  lemma CreationDescends(d: Device, p: Pool)
    requires p.name !in d.pools && DistinctKeys(p.members)
    ensures Descends(d, [CreatePool(p.name, p.monitor)] + Adds(p.name, p.members), PoolTask(p))
  {
    var op := CreatePool(p.name, p.monitor);
    CreationAdds(d, p);
    DescendsFirst(d, op, Adds(p.name, p.members), PoolTask(p));
  }

  lemma CreationAdds(d: Device, p: Pool)
    requires p.name !in d.pools && DistinctKeys(p.members)
    ensures var op, t := CreatePool(p.name, p.monitor), PoolTask(p);
            && TaskDist(Apply(d, op), t) == TaskDist(d, t) - 1
            && Descends(Apply(d, op), Adds(p.name, p.members), t)
            && AllAccepted(Apply(d, op), Adds(p.name, p.members))
  {
    assert Keys(p.members) - {} == Keys(p.members) && {} - Keys(p.members) == {};
    AddsDescend(Apply(d, CreatePool(p.name, p.monitor)), p, p.members);
  }

  lemma CreationAccepted(d: Device, p: Pool)
    requires p.name !in d.pools && DistinctKeys(p.members) && p.monitor in d.monitors
    ensures AllAccepted(d, [CreatePool(p.name, p.monitor)] + Adds(p.name, p.members))
  {
    CreationAdds(d, p);
    AcceptedFirst(d, CreatePool(p.name, p.monitor), Adds(p.name, p.members));
  }

  lemma AcceptedFirst(d: Device, op: Op, rest: seq<Op>)
    requires Accepts(d, op) && AllAccepted(Apply(d, op), rest)
    ensures AllAccepted(d, [op] + rest)
  {
    var ops := [op] + rest;
    assert ops[0] == op && ops[1..] == rest;
  }

  /** The plan of a handler goes straight down, and a strict device refuses none of it. */
  lemma PlanDescends(w: World, s: Sys, t: Task)
    requires Faithful(w) && DistinctAdds(s.dev, t)
    ensures Descends(s.dev, Plan(w, s, t), t)
    ensures RefReady(s.dev, t) ==> AllAccepted(s.dev, Plan(w, s, t))
  {
    var ops := Plan(w, s, t);
    match t
    case MonitorTask(m) => if ops != [] { assert ops[1..] == []; }
    case VipTask(v) => if ops != [] { assert ops[1..] == []; }
    case PoolTask(p) =>
      if p.name !in s.dev.pools {
        MissingNothing(p.members);
        CreationDescends(s.dev, p);
        if RefReady(s.dev, t) { CreationAccepted(s.dev, p); }
      } else {
        UpdateDescends(s.dev, p, Listed(w, s, p.name));
        if RefReady(s.dev, t) { UpdateAccepted(s.dev, p, Listed(w, s, p.name)); }
      }
  }

  /** The plan is as long as the task is far: no call too many. */
  lemma {:induction false} DescentLength(d: Device, ops: seq<Op>, t: Task)
    requires Descends(d, ops, t)
    ensures TaskDist(Replay(d, ops), t) + |ops| == TaskDist(d, t)
    decreases |ops|
  {
    if ops != [] {
      DescentLength(Apply(d, ops[0]), ops[1..], t);
    }
  }

  lemma PlanIsMinimal(w: World, s: Sys, t: Task)
    requires Faithful(w) && DistinctAdds(s.dev, t)
    ensures |Plan(w, s, t)| == TaskDist(s.dev, t)
  {
    PlanDescends(w, s, t);
    PlanConverges(w, s, t);
    DescentLength(s.dev, Plan(w, s, t), t);
    TaskDistZero(Replay(s.dev, Plan(w, s, t)), t);
  }

  // ---------- All tasks together

  ghost predicate DistinctObjects(ts: seq<Task>) {
    forall i, j :: 0 <= i < j < |ts| ==> Obj(ts[i]) != Obj(ts[j])
  }

  ghost predicate AllDistinctAdds(d: Device, ts: seq<Task>) {
    forall t :: t in ts ==> DistinctAdds(d, t)
  }

  lemma DistinctIsConsistent(ts: seq<Task>)
    requires DistinctObjects(ts)
    ensures Consistent(ts)
  {
    forall t, u | t in ts && u in ts && Obj(t) == Obj(u) ensures t == u {
      var i :| 0 <= i < |ts| && ts[i] == t;
      var j :| 0 <= j < |ts| && ts[j] == u;
      assert !(i < j) && !(j < i);
    }
  }

  lemma RunKeepsDistinctAdds(w: World, s: Sys, us: seq<Task>, ts: seq<Task>)
    requires Consistent(ts) && AllDistinctAdds(s.dev, ts) && forall u :: u in us ==> u in ts
    ensures AllDistinctAdds(RunTasks(w, s, us).sys.dev, ts)
  {
    var I := d => AllDistinctAdds(d, ts);
    forall d, op, u | u in us && Serves(op, u) && I(d) ensures I(Apply(d, op)) {
      forall t | t in ts ensures DistinctAdds(Apply(d, op), t) { ServingKeepsDistinctAdds(d, op, t, u); }
    }
    RunTasksKeeps(w, s, us, I);
  }

  lemma TaskKeepsDistinctAdds(w: World, s: Sys, u: Task, ts: seq<Task>)
    requires Consistent(ts) && AllDistinctAdds(s.dev, ts) && u in ts
    ensures AllDistinctAdds(RunTask(w, s, u).sys.dev, ts)
  {
    RunKeepsDistinctAdds(w, s, [u], ts);
    var r := RunTask(w, s, u);
    assert RunTasks(w, s, [u]).sys == r.sys;
  }

  lemma OffTarget(d: Device, op: Op, t: Task)
    requires Obj(t) != Target(op)
    ensures TaskDist(Apply(d, op), t) == TaskDist(d, t)
  {
    assert SameAt(d, Apply(d, op), Obj(t));
  }

  lemma {:induction false} ElsewhereSame(d: Device, op: Op, ts: seq<Task>)
    requires forall i :: 0 <= i < |ts| ==> Obj(ts[i]) != Target(op)
    ensures Dist(Apply(d, op), ts) == Dist(d, ts)
  {
    if ts != [] {
      OffTarget(d, op, ts[0]);
      ElsewhereSame(d, op, ts[1..]);
    }
  }

  /** A call on the object of one task changes the whole distance as it changes that task's. */
  lemma {:induction false} OneTaskMoves(d: Device, op: Op, ts: seq<Task>, i: nat)
    requires DistinctObjects(ts) && i < |ts| && Target(op) == Obj(ts[i])
    ensures Dist(Apply(d, op), ts) - Dist(d, ts) == TaskDist(Apply(d, op), ts[i]) - TaskDist(d, ts[i])
  {
    if i == 0 {
      ElsewhereSame(d, op, ts[1..]);
    } else {
      OffTarget(d, op, ts[0]);
      OneTaskMoves(d, op, ts[1..], i - 1);
    }
  }

  /** Each call between the two states lowered the distance by one, and that accounts for the whole
      difference. */
  ghost predicate StepsDown(a: Sys, b: Sys, ts: seq<Task>) {
    && Continues(a, b)
    && |b.log| + Dist(b.dev, ts) == |a.log| + Dist(a.dev, ts)
    && forall e :: e in Since(a, b) ==> Dist(e.after, ts) == Dist(e.before, ts) - 1
  }

  lemma StepsDownJoins(a: Sys, b: Sys, c: Sys, ts: seq<Task>)
    requires StepsDown(a, b, ts) && StepsDown(b, c, ts)
    ensures StepsDown(a, c, ts)
  {
    assert Since(a, c) == Since(a, b) + Since(b, c);
  }

  lemma CallStepsDown(w: World, s: Sys, op: Op, ts: seq<Task>, i: nat)
    requires DistinctObjects(ts) && i < |ts| && Target(op) == Obj(ts[i])
    requires TaskDist(Apply(s.dev, op), ts[i]) == TaskDist(s.dev, ts[i]) - 1
    ensures StepsDown(s, Call(w, s, op).sys, ts)
  {
    OneTaskMoves(s.dev, op, ts, i);
  }

  lemma {:induction false} CallsStepDown(w: World, s: Sys, ops: seq<Op>, ts: seq<Task>, i: nat)
    requires DistinctObjects(ts) && i < |ts| && Descends(s.dev, ops, ts[i])
    requires forall op :: op in ops ==> Serves(op, ts[i])
    ensures StepsDown(s, CallAll(w, s, ops).sys, ts)
    decreases |ops|
  {
    if ops != [] {
      assert ops[0] in ops;
      var r := Call(w, s, ops[0]);
      CallStepsDown(w, s, ops[0], ts, i);
      if r.ok {
        CallsStepDown(w, r.sys, ops[1..], ts, i);
        StepsDownJoins(s, r.sys, CallAll(w, s, ops).sys, ts);
      }
    }
  }

  lemma {:induction false} RunStepsDownFrom(w: World, s: Sys, ts: seq<Task>, i: nat)
    requires Faithful(w) && DistinctObjects(ts) && AllDistinctAdds(s.dev, ts) && i <= |ts|
    ensures StepsDown(s, RunTasks(w, s, ts[i..]).sys, ts)
    decreases |ts| - i
  {
    if i < |ts| {
      var r := ReadAll(w, s, ts[i]);
      assert StepsDown(s, r.sys, ts);
      if r.ok {
        PlanDescends(w, s, ts[i]);
        forall op | op in Plan(w, s, ts[i]) ensures Serves(op, ts[i]) {
          PlanServes(w, s, ts[i], op);
        }
        CallsStepDown(w, r.sys, Plan(w, s, ts[i]), ts, i);
        var q := RunTask(w, s, ts[i]);
        StepsDownJoins(s, r.sys, q.sys, ts);
        if q.ok {
          DistinctIsConsistent(ts);
          TaskKeepsDistinctAdds(w, s, ts[i], ts);
          RunStepsDownFrom(w, q.sys, ts, i + 1);
          StepsDownJoins(s, q.sys, RunTasks(w, q.sys, ts[i + 1..]).sys, ts);
          assert ts[i..][1..] == ts[i + 1..];
        }
      }
    }
  }

  /** One pass, whatever fails in it. */
  lemma RunStepsDown(w: World, s: Sys, ts: seq<Task>)
    requires Faithful(w) && DistinctObjects(ts) && AllDistinctAdds(s.dev, ts)
    ensures StepsDown(s, RunTasks(w, s, ts).sys, ts)
  {
    assert ts[0..] == ts;
    RunStepsDownFrom(w, s, ts, 0);
  }
}
