/** Tasks in an order in which every object is created before it is referred to: such a run keeps
    references intact at every call, and a strict device refuses none of its calls. */
module Grounding {
  import opened Types
  import opened Devices
  import opened Tasks
  import opened Progress

  /** The object that the task's object refers to. */
  function Ref(t: Task): Option<Id> {
    match t
    case MonitorTask(_) => None
    case PoolTask(p) => Some(MonitorId(p.monitor))
    case VipTask(v) => Some(PoolId(v.pool))
  }

  ghost predicate Grounded(d: Device, ts: seq<Task>) {
    forall i :: 0 <= i < |ts| && Ref(ts[i]).Some? ==>
      Has(d, Ref(ts[i]).value) || exists j :: 0 <= j < i && Obj(ts[j]) == Ref(ts[i]).value
  }

  lemma Weaken(a: Sys, b: Sys, I: Device -> bool, J: Device -> bool)
    requires Throughout(a, b, I) && forall d :: I(d) ==> J(d)
    ensures Throughout(a, b, J)
  {
  }

  lemma TaskKeepsObject(w: World, s: Sys, t: Task, id: Id)
    requires Has(s.dev, id)
    ensures Has(RunTask(w, s, t).sys.dev, id)
  {
    RunTaskKeeps(w, s, t, d => Has(d, id));
  }

  lemma GroundedRest(w: World, s: Sys, ts: seq<Task>)
    requires Faithful(w) && ts != [] && Grounded(s.dev, ts) && RunTask(w, s, ts[0]).ok
    ensures Grounded(RunTask(w, s, ts[0]).sys.dev, ts[1..])
  {
    var d := RunTask(w, s, ts[0]).sys.dev;
    TaskConverges(w, s, ts[0]);
    var rest := ts[1..];
    forall i | 0 <= i < |rest| && Ref(rest[i]).Some?
      ensures Has(d, Ref(rest[i]).value) || exists j :: 0 <= j < i && Obj(rest[j]) == Ref(rest[i]).value
    {
      var id := Ref(rest[i]).value;
      assert ts[i + 1] == rest[i];
      if Has(s.dev, id) {
        TaskKeepsObject(w, s, ts[0], id);
      } else {
        var j :| 0 <= j < i + 1 && Obj(ts[j]) == id;
        assert j > 0 ==> rest[j - 1] == ts[j];
      }
    }
  }

  lemma ServingKeepsReferential(d: Device, op: Op, t: Task)
    requires Serves(op, t) && Referential(d) && RefReady(d, t)
    ensures Referential(Apply(d, op)) && RefReady(Apply(d, op), t)
  {
  }

  /** At every call of a grounded run, whatever fails, every VIP's pool and every pool's monitor
      exists. */
  lemma {:induction false} RunReferential(w: World, s: Sys, ts: seq<Task>)
    requires Faithful(w) && Referential(s.dev) && Grounded(s.dev, ts)
    ensures Throughout(s, RunTasks(w, s, ts).sys, d => Referential(d))
    decreases |ts|
  {
    if ts != [] {
      var I := d => Referential(d) && RefReady(d, ts[0]);
      forall d, op | Serves(op, ts[0]) && I(d) ensures I(Apply(d, op)) {
        ServingKeepsReferential(d, op, ts[0]);
      }
      RunTaskKeeps(w, s, ts[0], I);
      var r := RunTask(w, s, ts[0]);
      Weaken(s, r.sys, I, d => Referential(d));
      if r.ok {
        GroundedRest(w, s, ts);
        RunReferential(w, r.sys, ts[1..]);
        ThroughoutJoins(s, r.sys, RunTasks(w, s, ts).sys, d => Referential(d));
      }
    }
  }

  /** Without faults a grounded run ends without error, on a strict device too. */
  lemma {:induction false} RunSucceeds(w: World, s: Sys, ts: seq<Task>)
    requires Faithful(w) && FaultFree(w, s.clock) && Grounded(s.dev, ts)
    requires w.strict ==> Consistent(ts) && AllDistinctAdds(s.dev, ts)
    ensures RunTasks(w, s, ts).ok
    ensures s.clock <= RunTasks(w, s, ts).sys.clock
    decreases |ts|
  {
    if ts != [] {
      var q := ReadAll(w, s, ts[0]);
      assert ts[0] in ts;
      if w.strict {
        PlanDescends(w, s, ts[0]);
      }
      CallAllSucceeds(w, q.sys, Plan(w, s, ts[0]));
      RunTaskKeeps(w, s, ts[0], d => true);
      GroundedRest(w, s, ts);
      if w.strict {
        TaskKeepsDistinctAdds(w, s, ts[0], ts);
        assert forall t :: t in ts[1..] ==> t in ts;
      }
      RunSucceeds(w, RunTask(w, s, ts[0]).sys, ts[1..]);
    }
  }

  lemma {:induction false} AcceptedAddsDistinct(d: Device, pool: string, ms: seq<PoolMember>)
    requires AllAccepted(d, Adds(pool, ms))
    ensures DistinctKeys(ms)
    ensures pool in d.pools ==> Keys(ms) * d.pools[pool].members == {}
    decreases |ms|
  {
    if ms != [] {
      var e := Apply(d, AddMember(pool, KeyOf(ms[0])));
      assert Adds(pool, ms)[1..] == Adds(pool, ms[1..]);
      AcceptedAddsDistinct(e, pool, ms[1..]);
      KeysFirst(ms);
      DistinctCons(ms[0], ms[1..]);
      assert [ms[0]] + ms[1..] == ms;
    }
  }

  /** A strict device lets a handler through only if the members it had to add were distinct. */
  lemma OkHadDistinctAdds(w: World, s: Sys, t: Task)
    requires Faithful(w) && w.strict && RunTask(w, s, t).ok
    ensures DistinctAdds(s.dev, t)
  {
    if t.PoolTask? {
      var p, ops := t.p, Plan(w, s, t);
      CallAllOk(w, ReadAll(w, s, t).sys, ops);
      if p.name !in s.dev.pools {
        assert ops[1..] == Adds(p.name, p.members);
        AcceptedAddsDistinct(Apply(s.dev, ops[0]), p.name, p.members);
        MissingNothing(p.members);
      } else {
        var listed := Listed(w, s, p.name);
        var e, a, b := RetargetOps(s.dev, p), Adds(p.name, Missing(p.members, Keys(listed))),
          Dels(p.name, Missing(listed, Keys(p.members)));
        ReplayJoins(s.dev, e + a, b);
        ReplayJoins(s.dev, e, a);
        AcceptedAddsDistinct(Replay(s.dev, e), p.name, Missing(p.members, Keys(listed)));
      }
    }
  }

  lemma DistinctAddsElsewhere(w: World, s: Sys, u: Task, t: Task)
    requires Obj(t) != Obj(u) && DistinctAdds(RunTask(w, s, u).sys.dev, t)
    ensures DistinctAdds(s.dev, t)
  {
    RunTaskKeeps(w, s, u, d => SameAt(s.dev, d, Obj(t)));
  }

  lemma {:induction false} RunHadDistinctAdds(w: World, s: Sys, ts: seq<Task>)
    requires Faithful(w) && w.strict && Consistent(ts) && RunTasks(w, s, ts).ok
    ensures AllDistinctAdds(s.dev, ts)
    decreases |ts|
  {
    if ts != [] {
      OkHadDistinctAdds(w, s, ts[0]);
      var r := RunTask(w, s, ts[0]).sys;
      assert forall t :: t in ts <==> t == ts[0] || t in ts[1..];
      RunHadDistinctAdds(w, r, ts[1..]);
      forall t | t in ts[1..] && Obj(t) != Obj(ts[0]) ensures DistinctAdds(s.dev, t) {
        DistinctAddsElsewhere(w, s, ts[0], t);
      }
    }
  }
}
