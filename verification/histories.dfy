/** The device log read as a history: a chain of calls, each starting where the one before it ended,
    that tells which objects are left at its end. */
module Histories {
  import opened Devices
  import opened Tasks
  import opened Cleanup
  import opened Passes

  /** The entries lead from `d` to `e`, each of them a call that `P` allows. */
  ghost predicate Leads(d: Device, log: seq<Entry>, e: Device, P: Op -> bool) {
    && (forall i :: 0 <= i < |log| ==> P(log[i].op) && log[i].after == Apply(log[i].before, log[i].op))
    && (forall i, j :: 0 <= i < |log| && 0 <= j < |log| && j == i + 1 ==> log[j].before == log[i].after)
    && (if log == [] then d == e else log[0].before == d && log[|log| - 1].after == e)
  }

  /** From `a` to `b` the device went through the logged calls one after the other, each of them one
      that `P` allows. */
  ghost predicate Chained(a: Sys, b: Sys, P: Op -> bool) {
    Continues(a, b) && Leads(a.dev, Since(a, b), b.dev, P)
  }

  lemma LeadsJoin(d: Device, l: seq<Entry>, e: Device, m: seq<Entry>, f: Device, P: Op -> bool)
    requires Leads(d, l, e, P) && Leads(e, m, f, P)
    ensures Leads(d, l + m, f, P)
  {
    var log := l + m;
    forall i, j | 0 <= i < |log| && 0 <= j < |log| && j == i + 1 ensures log[j].before == log[i].after {
      assert if i < |l| then log[i] == l[i] else log[i] == m[i - |l|];
      assert if j < |l| then log[j] == l[j] else log[j] == m[j - |l|];
    }
  }

  lemma ChainsJoin(a: Sys, b: Sys, c: Sys, P: Op -> bool)
    requires Chained(a, b, P) && Chained(b, c, P)
    ensures Chained(a, c, P)
  {
    assert Since(a, c) == Since(a, b) + Since(b, c);
    LeadsJoin(a.dev, Since(a, b), b.dev, Since(b, c), c.dev, P);
  }

  lemma PeekChains(w: World, s: Sys, P: Op -> bool)
    ensures Chained(s, Peek(w, s).sys, P)
  {
  }

  lemma CallChains(w: World, s: Sys, op: Op, P: Op -> bool)
    requires P(op)
    ensures Chained(s, Call(w, s, op).sys, P)
  {
    var r := Call(w, s, op).sys;
    assert Since(s, r) == [] || Since(s, r) == [Entry(s.dev, op, Apply(s.dev, op))];
  }

  lemma {:induction false} CallAllChains(w: World, s: Sys, ops: seq<Op>, P: Op -> bool)
    requires forall op :: op in ops ==> P(op)
    ensures Chained(s, CallAll(w, s, ops).sys, P)
    decreases |ops|
  {
    if ops != [] {
      var r := Call(w, s, ops[0]);
      CallChains(w, s, ops[0], P);
      if r.ok {
        CallAllChains(w, r.sys, ops[1..], P);
        ChainsJoin(s, r.sys, CallAll(w, s, ops).sys, P);
      }
    }
  }

  lemma {:induction false} CallEachChains(w: World, s: Sys, ops: seq<Op>, P: Op -> bool)
    requires forall op :: op in ops ==> P(op)
    ensures Chained(s, CallEach(w, s, ops), P)
    decreases |ops|
  {
    if ops != [] {
      var r := Call(w, s, ops[0]).sys;
      CallChains(w, s, ops[0], P);
      CallEachChains(w, r, ops[1..], P);
      ChainsJoin(s, r, CallEach(w, s, ops), P);
    }
  }

  lemma {:induction false} RunTasksChains(w: World, s: Sys, ts: seq<Task>, P: Op -> bool)
    requires forall op, t :: t in ts && Serves(op, t) ==> P(op)
    ensures Chained(s, RunTasks(w, s, ts).sys, P)
    decreases |ts|
  {
    if ts != [] {
      var q, r := ReadAll(w, s, ts[0]), RunTask(w, s, ts[0]);
      assert Chained(s, q.sys, P);
      if q.ok {
        forall op | op in Plan(w, s, ts[0]) ensures P(op) { PlanServes(w, s, ts[0], op); }
        CallAllChains(w, q.sys, Plan(w, s, ts[0]), P);
        ChainsJoin(s, q.sys, r.sys, P);
      }
      if r.ok {
        RunTasksChains(w, r.sys, ts[1..], P);
        ChainsJoin(s, r.sys, RunTasks(w, s, ts).sys, P);
      }
    }
  }

  lemma ConfigureChains(w: World, s: Sys, ts: seq<Task>, P: Op -> bool)
    requires forall op, t :: t in ts && Serves(op, t) ==> P(op)
    ensures Chained(s, Configure(w, s, ts).sys, P)
  {
    var c := Peek(w, s);
    PeekChains(w, s, P);
    if c.ok {
      var r := RunTasks(w, c.sys, ts);
      RunTasksChains(w, c.sys, ts, P);
      PeekChains(w, r.sys, P);
      ChainsJoin(s, c.sys, r.sys, P);
      ChainsJoin(s, r.sys, Peek(w, r.sys).sys, P);
    }
  }

  lemma CleanupChains(w: World, s: Sys, st: Status, P: Op -> bool)
    requires forall op :: Removes(op) ==> P(op)
    ensures Chained(s, RunCleanup(w, s, st).sys, P)
  {
    StagesRemove(st);
    var r := RunCleanup(w, s, st).sys;
    var a := CallAll(w, s, VipDels(st.vips));
    CallAllChains(w, s, VipDels(st.vips), P);
    if a.ok {
      var b := CallEach(w, a.sys, MemberDels(st.pools));
      CallEachChains(w, a.sys, MemberDels(st.pools), P);
      ChainsJoin(s, a.sys, b, P);
      var c := CallAll(w, b, PoolDels(st.pools));
      CallAllChains(w, b, PoolDels(st.pools), P);
      ChainsJoin(s, b, c.sys, P);
      if c.ok {
        CallAllChains(w, c.sys, MonitorDels(st.monitor), P);
        ChainsJoin(s, c.sys, r, P);
      }
    }
  }

  lemma FinalizeChains(w: World, s: Sys, st: Status, P: Op -> bool)
    requires forall op :: Removes(op) ==> P(op)
    ensures Chained(s, Finalize(w, s, st).sys, P)
  {
    var c := Peek(w, s);
    PeekChains(w, s, P);
    if c.ok {
      var r := RunCleanup(w, c.sys, st);
      CleanupChains(w, c.sys, st, P);
      PeekChains(w, r.sys, P);
      ChainsJoin(s, c.sys, r.sys, P);
      ChainsJoin(s, r.sys, Peek(w, r.sys).sys, P);
    }
  }

  lemma PassChains(w: World, s: Sys, lb: string, want: Want, deleting: bool)
    ensures Chained(s, Pass(w, s, lb, want, deleting).sys, _ => true)
  {
    var r := Configure(w, s, TasksFor(lb, want));
    ConfigureChains(w, s, TasksFor(lb, want), _ => true);
    if r.ok && deleting {
      FinalizeChains(w, r.sys, StatusFor(lb, want, map[]), _ => true);
      ChainsJoin(s, r.sys, Pass(w, s, lb, want, deleting).sys, _ => true);
    }
  }

  // ---------- The fate of one object

  /** The object a call brings into being. */
  predicate Creates(op: Op, id: Id) {
    (op.CreateMonitor? || op.CreatePool? || op.CreateVip?) && Target(op) == id
  }

  predicate NeverRemoved(log: seq<Entry>, from: nat, id: Id) {
    forall j :: from <= j < |log| ==> !RemovesObject(log[j].op, id)
  }

  /** The object was there at the start and never removed, or created on the way and not removed
      since. */
  ghost predicate Survives(d: Device, log: seq<Entry>, id: Id) {
    || (Has(d, id) && NeverRemoved(log, 0, id))
    || exists i :: 0 <= i < |log| && Creates(log[i].op, id) && NeverRemoved(log, i + 1, id)
  }

  lemma OneCallDecides(d: Device, op: Op, id: Id)
    ensures Has(Apply(d, op), id) <==> Creates(op, id) || (Has(d, id) && !RemovesObject(op, id))
  {
  }

  lemma SurvivesOneMore(d: Device, log: seq<Entry>, e: Entry, id: Id)
    ensures Survives(d, log + [e], id) <==> Creates(e.op, id) || (Survives(d, log, id) && !RemovesObject(e.op, id))
  {
    var more := log + [e];
    assert more[|log|] == e;
    if Survives(d, log, id) && !RemovesObject(e.op, id) {
      if i :| 0 <= i < |log| && Creates(log[i].op, id) && NeverRemoved(log, i + 1, id) {
        assert more[i] == log[i] && NeverRemoved(more, i + 1, id);
      }
    }
    if Creates(e.op, id) { assert NeverRemoved(more, |log| + 1, id); }
    if i :| 0 <= i < |more| && Creates(more[i].op, id) && NeverRemoved(more, i + 1, id) {
      if i < |log| {
        assert more[i] == log[i];
        assert NeverRemoved(log, i + 1, id) by {
          forall j | i + 1 <= j < |log| ensures !RemovesObject(log[j].op, id) { assert more[j] == log[j]; }
        }
      }
    }
    if NeverRemoved(more, 0, id) {
      forall j | 0 <= j < |log| ensures !RemovesObject(log[j].op, id) { assert more[j] == log[j]; }
    }
  }

  lemma {:induction false} FateUpTo(a: Sys, b: Sys, k: nat, id: Id)
    requires Chained(a, b, _ => true) && k <= |Since(a, b)|
    ensures Has(if k == 0 then a.dev else Since(a, b)[k - 1].after, id) <==> Survives(a.dev, Since(a, b)[..k], id)
  {
    var log := Since(a, b);
    if k > 0 {
      FateUpTo(a, b, k - 1, id);
      assert log[..k] == log[..k - 1] + [log[k - 1]];
      SurvivesOneMore(a.dev, log[..k - 1], log[k - 1], id);
      OneCallDecides(log[k - 1].before, log[k - 1].op, id);
    }
  }

  /** An object is on the device at the end exactly if it was there at the start and never removed, or
      was created on the way and not removed since. */
  lemma Fate(a: Sys, b: Sys, id: Id)
    requires Chained(a, b, _ => true)
    ensures Has(b.dev, id) <==> Survives(a.dev, Since(a, b), id)
  {
    var log := Since(a, b);
    FateUpTo(a, b, |log|, id);
    assert log[..|log|] == log;
  }
}
