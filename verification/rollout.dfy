/** What an update of one existing pool looks like call by call, and that there is nothing left to
    call once the device is in sync. */
module Rollout {
  import opened Types
  import opened Devices
  import opened Tasks

  // ---------- Make before break

  /** Member set of the pool while it is rolled from `have` to `want`. */
  predicate Between(d: Device, pool: string, have: set<Key>, want: set<Key>) {
    pool in d.pools && have * want <= d.pools[pool].members <= have + want
  }

  /** The bounds of one step: nothing old is gone while members are being added, everything new is
      there while members are being removed. */
  predicate MakeBeforeBreak(e: Entry, pool: string, have: set<Key>, want: set<Key>) {
    && Between(e.before, pool, have, want)
    && Between(e.after, pool, have, want)
    && (if e.op.DelMember? then
          want <= e.before.pools[pool].members && want <= e.after.pools[pool].members
        else
          have <= e.after.pools[pool].members)
  }

  lemma {:induction false} EntriesAreCalls(w: World, s: Sys, ops: seq<Op>)
    ensures var r := CallAll(w, s, ops).sys;
            Continues(s, r) && forall e :: e in Since(s, r) ==> e.op in ops && e.after == Apply(e.before, e.op)
    decreases |ops|
  {
    if ops != [] {
      var r := Call(w, s, ops[0]);
      if r.ok {
        EntriesAreCalls(w, r.sys, ops[1..]);
        var q := CallAll(w, s, ops).sys;
        assert Since(s, q) == Since(s, r.sys) + Since(r.sys, q);
      }
    }
  }

  /** The calls before the deletions of an update. */
  function Makes(d: Device, p: Pool, listed: seq<PoolMember>): seq<Op>
    requires p.name in d.pools
  {
    RetargetOps(d, p) + Adds(p.name, Missing(p.members, Keys(listed)))
  }

  function Breaks(p: Pool, listed: seq<PoolMember>): seq<Op> {
    Dels(p.name, Missing(listed, Keys(p.members)))
  }

  lemma MakesAre(d: Device, p: Pool, listed: seq<PoolMember>, op: Op)
    requires p.name in d.pools && op in Makes(d, p, listed)
    ensures op == EditPool(p.name, p.monitor)
            || (op.AddMember? && op.name == p.name && op.key in Keys(p.members))
  {
    var adds := Missing(p.members, Keys(listed));
    if op in Adds(p.name, adds) { AddsAre(p.name, adds, op); }
  }

  lemma BreaksAre(p: Pool, listed: seq<PoolMember>, op: Op)
    requires op in Breaks(p, listed)
    ensures op.DelMember? && op.name == p.name && op.key in Keys(listed) - Keys(p.members)
  {
    DelsAre(p.name, Missing(listed, Keys(p.members)), op);
  }

  predicate Growing(d: Device, pool: string, have: set<Key>, want: set<Key>) {
    Between(d, pool, have, want) && have <= d.pools[pool].members
  }

  predicate Shrinking(d: Device, pool: string, have: set<Key>, want: set<Key>) {
    Between(d, pool, have, want) && want <= d.pools[pool].members
  }

  /** Every call between the two states is a step of the roll. */
  ghost predicate Rolls(a: Sys, b: Sys, pool: string, have: set<Key>, want: set<Key>) {
    Continues(a, b) && forall e :: e in Since(a, b) ==> MakeBeforeBreak(e, pool, have, want)
  }

  lemma MakesRoll(w: World, s: Sys, p: Pool, listed: seq<PoolMember>)
    requires p.name in s.dev.pools
    ensures var have, want, r := s.dev.pools[p.name].members, Keys(p.members), CallAll(w, s, Makes(s.dev, p, listed));
            Rolls(s, r.sys, p.name, have, want) && Growing(r.sys.dev, p.name, have, want)
  {
    var have, want, ops := s.dev.pools[p.name].members, Keys(p.members), Makes(s.dev, p, listed);
    var I := d => Growing(d, p.name, have, want);
    forall d, op | op in ops && I(d) ensures I(Apply(d, op)) {
      MakesAre(s.dev, p, listed, op);
    }
    CallAllKeeps(w, s, ops, I);
    EntriesAreCalls(w, s, ops);
    var r := CallAll(w, s, ops).sys;
    forall e | e in Since(s, r) ensures MakeBeforeBreak(e, p.name, have, want) {
      MakesAre(s.dev, p, listed, e.op);
      assert I(e.before) && I(e.after);
    }
  }

  lemma BreaksRoll(w: World, s: Sys, p: Pool, listed: seq<PoolMember>, have: set<Key>)
    requires have == Keys(listed) && Shrinking(s.dev, p.name, have, Keys(p.members))
    ensures var want, r := Keys(p.members), CallAll(w, s, Breaks(p, listed));
            Rolls(s, r.sys, p.name, have, want) && Shrinking(r.sys.dev, p.name, have, want)
  {
    var want, ops := Keys(p.members), Breaks(p, listed);
    var I := d => Shrinking(d, p.name, have, want);
    forall d, op | op in ops && I(d) ensures I(Apply(d, op)) {
      BreaksAre(p, listed, op);
    }
    CallAllKeeps(w, s, ops, I);
    EntriesAreCalls(w, s, ops);
    var r := CallAll(w, s, ops).sys;
    forall e | e in Since(s, r) ensures MakeBeforeBreak(e, p.name, have, want) {
      BreaksAre(p, listed, e.op);
      assert I(e.before) && I(e.after);
    }
  }

  lemma UpdateRolls(w: World, s: Sys, p: Pool, listed: seq<PoolMember>)
    requires p.name in s.dev.pools && Lists(listed, s.dev.pools[p.name].members)
    ensures var have, want, r := s.dev.pools[p.name].members, Keys(p.members),
              CallAll(w, s, Makes(s.dev, p, listed) + Breaks(p, listed)).sys;
            Rolls(s, r, p.name, have, want) && Between(r.dev, p.name, have, want)
  {
    var a, b := Makes(s.dev, p, listed), Breaks(p, listed);
    var m, r := CallAll(w, s, a), CallAll(w, s, a + b);
    MakesRoll(w, s, p, listed);
    CallAllJoins(w, s, a, b);
    if m.ok {
      CallAllOk(w, s, a);
      AddsComplete(s.dev, p, listed);
      BreaksRoll(w, m.sys, p, listed, s.dev.pools[p.name].members);
      assert Since(s, r.sys) == Since(s, m.sys) + Since(m.sys, r.sys);
    }
  }

  /** At every call of an update of an existing pool, faults included. */
  lemma UpdateMakesBeforeBreaking(w: World, s: Sys, p: Pool)
    requires Faithful(w) && p.name in s.dev.pools
    ensures var r, have := RunTask(w, s, PoolTask(p)).sys, s.dev.pools[p.name].members;
            Rolls(s, r, p.name, have, Keys(p.members)) && Between(r.dev, p.name, have, Keys(p.members))
  {
    var q, listed := ReadAll(w, s, PoolTask(p)), Listed(w, s, p.name);
    if q.ok {
      UpdateRolls(w, q.sys, p, listed);
    }
  }

  /** After the additions everything wanted is present. */
  lemma AddsComplete(d: Device, p: Pool, listed: seq<PoolMember>)
    requires p.name in d.pools && Lists(listed, d.pools[p.name].members)
    ensures var a := RetargetOps(d, p) + Adds(p.name, Missing(p.members, Keys(listed)));
            p.name in Replay(d, a).pools && Keys(p.members) <= Replay(d, a).pools[p.name].members
  {
    var e, adds := RetargetOps(d, p), Missing(p.members, Keys(listed));
    ReplayJoins(d, e, Adds(p.name, adds));
    RetargetReplay(d, p);
    ReplayAdds(Replay(d, e), p.name, adds);
  }

  /** A pool that has members and is to have members is never empty on the way. */
  lemma NeverEmptyOnTheWay(w: World, s: Sys, p: Pool, e: Entry)
    requires Faithful(w) && p.name in s.dev.pools
    requires s.dev.pools[p.name].members != {} && p.members != []
    requires Continues(s, RunTask(w, s, PoolTask(p)).sys)
    requires e in Since(s, RunTask(w, s, PoolTask(p)).sys)
    ensures p.name in e.after.pools && e.after.pools[p.name].members != {}
  {
    UpdateMakesBeforeBreaking(w, s, p);
    assert KeyOf(p.members[0]) in Keys(p.members);
  }

  // ---------- Minimality and quiescence

  /** The calls made to the device, in order. */
  function Calls(log: seq<Entry>): seq<Op> {
    seq(|log|, i requires 0 <= i < |log| => log[i].op)
  }

  lemma {:induction false} AddsOnce(pool: string, ms: seq<PoolMember>, k: Key)
    requires DistinctKeys(ms)
    ensures multiset(Adds(pool, ms))[AddMember(pool, k)] == if k in Keys(ms) then 1 else 0
  {
    if ms != [] {
      KeysFirst(ms);
      DistinctFirst(ms);
      AddsOnce(pool, ms[1..], k);
      assert Adds(pool, ms) == [AddMember(pool, KeyOf(ms[0]))] + Adds(pool, ms[1..]);
    }
  }

  lemma {:induction false} DelsOnce(pool: string, ms: seq<PoolMember>, k: Key)
    requires DistinctKeys(ms)
    ensures multiset(Dels(pool, ms))[DelMember(pool, k)] == if k in Keys(ms) then 1 else 0
  {
    if ms != [] {
      KeysFirst(ms);
      DistinctFirst(ms);
      DelsOnce(pool, ms[1..], k);
      assert Dels(pool, ms) == [DelMember(pool, KeyOf(ms[0]))] + Dels(pool, ms[1..]);
    }
  }

  lemma PlanIsExact(w: World, s: Sys, p: Pool, op: Op)
    requires Faithful(w) && p.name in s.dev.pools && DistinctKeys(Missing(p.members, s.dev.pools[p.name].members))
    ensures var have, want := s.dev.pools[p.name].members, Keys(p.members);
            multiset(Plan(w, s, PoolTask(p)))[op]
            == if || (op.AddMember? && op.name == p.name && op.key in want - have)
                  || (op.DelMember? && op.name == p.name && op.key in have - want)
                  || (op == EditPool(p.name, p.monitor) && s.dev.pools[p.name].monitor != p.monitor)
               then 1 else 0
  {
    var have, want := s.dev.pools[p.name].members, Keys(p.members);
    var listed := Listed(w, s, p.name);
    var e, adds, dels := RetargetOps(s.dev, p), Missing(p.members, Keys(listed)), Missing(listed, want);
    var A, D := Adds(p.name, adds), Dels(p.name, dels);
    assert Plan(w, s, PoolTask(p)) == e + A + D;
    if op in A { AddsAre(p.name, adds, op); }
    if op in D { DelsAre(p.name, dels, op); }
    if op.AddMember? && op.name == p.name { AddsOnce(p.name, adds, op.key); }
    if op.DelMember? && op.name == p.name { DelsOnce(p.name, dels, op.key); }
  }

  /** The calls of a handler that ends without error are its plan, each made once and in order. */
  lemma {:induction false} OkCallsAre(w: World, s: Sys, ops: seq<Op>)
    requires CallAll(w, s, ops).ok
    ensures Continues(s, CallAll(w, s, ops).sys)
    ensures Calls(Since(s, CallAll(w, s, ops).sys)) == ops
    decreases |ops|
  {
    if ops != [] {
      var r := Call(w, s, ops[0]);
      OkCallsAre(w, r.sys, ops[1..]);
      var q := CallAll(w, s, ops).sys;
      assert Since(s, q) == Since(s, r.sys) + Since(r.sys, q);
    }
  }

  /** Cut short or not, the calls of a handler are its plan from the beginning. */
  lemma {:induction false} CallsArePrefix(w: World, s: Sys, ops: seq<Op>)
    ensures Continues(s, CallAll(w, s, ops).sys)
    ensures Calls(Since(s, CallAll(w, s, ops).sys)) <= ops
    decreases |ops|
  {
    if ops != [] {
      var r := Call(w, s, ops[0]);
      assert Since(s, r.sys) == [] || Calls(Since(s, r.sys)) == [ops[0]];
      if r.ok {
        CallsArePrefix(w, r.sys, ops[1..]);
        var q := CallAll(w, s, ops).sys;
        assert Since(s, q) == Since(s, r.sys) + Since(r.sys, q);
        assert Calls(Since(s, q)) == [ops[0]] + Calls(Since(r.sys, q));
      }
    }
  }

  /** At every point of an update, faults included: the monitor comes first, the deletions come last. */
  lemma UpdateIsOrdered(w: World, s: Sys, p: Pool)
    requires p.name in s.dev.pools
    ensures var r := RunTask(w, s, PoolTask(p)).sys;
            && Continues(s, r)
            && var calls := Calls(Since(s, r));
               && (forall i :: 0 <= i < |calls| && calls[i].EditPool? ==> i == 0)
               && (forall i, j :: 0 <= i < j < |calls| && calls[i].DelMember? ==> calls[j].DelMember?)
               && (calls != [] && s.dev.pools[p.name].monitor != p.monitor ==> calls[0].EditPool?)
  {
    var q := ReadAll(w, s, PoolTask(p));
    if q.ok {
      var listed := Listed(w, s, p.name);
      var adds, dels := Missing(p.members, Keys(listed)), Missing(listed, Keys(p.members));
      var e, a, d := RetargetOps(s.dev, p), Adds(p.name, adds), Dels(p.name, dels);
      CallsArePrefix(w, q.sys, Plan(w, s, PoolTask(p)));
      assert Plan(w, s, PoolTask(p)) == e + a + d;
      forall i | 0 <= i < |a| ensures a[i].AddMember? { AddsAre(p.name, adds, a[i]); }
      forall i | 0 <= i < |d| ensures d[i].DelMember? { DelsAre(p.name, dels, d[i]); }
    }
  }

  /** An update of an existing pool that has no member to add twice and ends without error has made one
      creation for each member of want - have, one deletion for each member of have - want, an edit
      just when the monitor differed, and no other call. */
  lemma UpdateIsExact(w: World, s: Sys, p: Pool, op: Op)
    requires Faithful(w) && p.name in s.dev.pools && DistinctKeys(Missing(p.members, s.dev.pools[p.name].members))
    requires RunTask(w, s, PoolTask(p)).ok
    ensures var r, have, want := RunTask(w, s, PoolTask(p)).sys, s.dev.pools[p.name].members, Keys(p.members);
            && Continues(s, r)
            && multiset(Calls(Since(s, r)))[op]
               == if || (op.AddMember? && op.name == p.name && op.key in want - have)
                     || (op.DelMember? && op.name == p.name && op.key in have - want)
                     || (op == EditPool(p.name, p.monitor) && s.dev.pools[p.name].monitor != p.monitor)
                  then 1 else 0
  {
    OkCallsAre(w, ReadAll(w, s, PoolTask(p)).sys, Plan(w, s, PoolTask(p)));
    PlanIsExact(w, s, p, op);
  }

  lemma InSyncPlansNothing(w: World, s: Sys, t: Task)
    requires Faithful(w)
    ensures Plan(w, s, t) == [] <==> InSync(s.dev, t)
  {
    if t.PoolTask? && t.p.name in s.dev.pools {
      var p, listed := t.p, Listed(w, s, t.p.name);
      var e, a, b := RetargetOps(s.dev, p), Missing(p.members, Keys(listed)), Missing(listed, Keys(p.members));
      assert Plan(w, s, t) == [] <==> e == [] && a == [] && b == [];
      NothingMissing(p.members, Keys(listed));
      NothingMissing(listed, Keys(p.members));
    }
  }

  /** A pass over a device that is already in sync makes no mutating call, whatever fails. */
  lemma {:induction false} Quiescent(w: World, s: Sys, ts: seq<Task>)
    requires Faithful(w) && AllInSync(s.dev, ts)
    ensures RunTasks(w, s, ts).sys.log == s.log && RunTasks(w, s, ts).sys.dev == s.dev
    decreases |ts|
  {
    if ts != [] {
      InSyncPlansNothing(w, s, ts[0]);
      var r := RunTask(w, s, ts[0]);
      if r.ok {
        Quiescent(w, r.sys, ts[1..]);
      }
    }
  }

  /** A second pass after a successful one makes no mutating call. */
  lemma SecondPassIsSilent(w: World, s: Sys, ts: seq<Task>)
    requires Faithful(w) && Consistent(ts) && RunTasks(w, s, ts).ok
    ensures var r := RunTasks(w, s, ts).sys; RunTasks(w, r, ts).sys.log == r.log
  {
    RunConverges(w, s, ts);
    Quiescent(w, RunTasks(w, s, ts).sys, ts);
  }
}
