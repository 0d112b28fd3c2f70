/** The requests of a phase, the ones that change nothing included: how many there are, and that no error
    but those of the member deletions is passed over
    (internal/controller/externalloadbalancer_controller.go:270-370, 539-585). */
module Requests {
  import opened Types
  import opened Devices
  import opened Tasks
  import opened Cleanup
  import opened Passes
  import Rollout

  /** None of these requests failed. */
  ghost predicate AllWell(w: World, from: nat, to: nat) {
    from <= to && forall k: nat :: from <= k < to ==> w.fault(k) == NoFault
  }

  lemma {:induction false} OkCallsWell(w: World, s: Sys, ops: seq<Op>)
    requires CallAll(w, s, ops).ok
    ensures CallAll(w, s, ops).sys.clock == s.clock + |ops|
    ensures AllWell(w, s.clock, s.clock + |ops|)
    decreases |ops|
  {
    if ops != [] { OkCallsWell(w, Call(w, s, ops[0]).sys, ops[1..]); }
  }

  /** The getters of a handler: two for a pool that is there, otherwise one. */
  function Reads(d: Device, t: Task): nat {
    if t.PoolTask? && t.p.name in d.pools then 2 else 1
  }

  lemma OkTaskWell(w: World, s: Sys, t: Task)
    requires RunTask(w, s, t).ok
    ensures RunTask(w, s, t).sys.clock == s.clock + Reads(s.dev, t) + |Plan(w, s, t)|
    ensures AllWell(w, s.clock, RunTask(w, s, t).sys.clock)
  {
    OkCallsWell(w, ReadAll(w, s, t).sys, Plan(w, s, t));
  }

  lemma {:induction false} OkRunWell(w: World, s: Sys, ts: seq<Task>)
    requires RunTasks(w, s, ts).ok
    ensures AllWell(w, s.clock, RunTasks(w, s, ts).sys.clock)
    decreases |ts|
  {
    if ts != [] {
      OkTaskWell(w, s, ts[0]);
      OkRunWell(w, RunTask(w, s, ts[0]).sys, ts[1..]);
    }
  }

  /** A configure phase that ends without error had none: every request from Connect to Close went
      through. */
  lemma ConfigureHidesNoError(w: World, s: Sys, ts: seq<Task>)
    requires Configure(w, s, ts).ok
    ensures AllWell(w, s.clock, Configure(w, s, ts).sys.clock)
  {
    var c := Peek(w, s).sys;
    var r := RunTasks(w, c, ts).sys;
    OkRunWell(w, c, ts);
    OnePeekWell(w, s);
    OnePeekWell(w, r);
    WellJoins(w, s.clock, c.clock, r.clock);
    WellJoins(w, s.clock, r.clock, r.clock + 1);
  }

  lemma OnePeekWell(w: World, s: Sys)
    requires Peek(w, s).ok
    ensures Peek(w, s).sys.clock == s.clock + 1 && AllWell(w, s.clock, s.clock + 1)
  {
  }

  lemma WellJoins(w: World, a: nat, b: nat, c: nat)
    requires AllWell(w, a, b) && AllWell(w, b, c)
    ensures AllWell(w, a, c)
  {
  }

  function AllReads(ts: seq<Task>): nat {
    if ts == [] then 0 else (if ts[0].PoolTask? then 2 else 1) + AllReads(ts[1..])
  }

  lemma {:induction false} AllReadsJoin(a: seq<Task>, b: seq<Task>)
    ensures AllReads(a + b) == AllReads(a) + AllReads(b)
  {
    if a == [] {
      assert a + b == b;
    } else {
      assert (a + b)[1..] == a[1..] + b;
      AllReadsJoin(a[1..], b);
    }
  }

  lemma {:induction false} AllReadsOf(ts: seq<Task>)
    ensures (forall t :: t in ts ==> t.PoolTask?) ==> AllReads(ts) == 2 * |ts|
    ensures (forall t :: t in ts ==> !t.PoolTask?) ==> AllReads(ts) == |ts|
  {
    if ts != [] { AllReadsOf(ts[1..]); }
  }

  lemma {:induction false} SyncedRunReads(w: World, s: Sys, ts: seq<Task>)
    requires Faithful(w) && AllInSync(s.dev, ts) && RunTasks(w, s, ts).ok
    ensures RunTasks(w, s, ts).sys.clock == s.clock + AllReads(ts)
    decreases |ts|
  {
    if ts != [] {
      OkTaskWell(w, s, ts[0]);
      Rollout.InSyncPlansNothing(w, s, ts[0]);
      SyncedRunReads(w, RunTask(w, s, ts[0]).sys, ts[1..]);
    }
  }

  lemma JoinedReads(m: Monitor, ps: seq<Pool>, vs: seq<VIP>)
    ensures AllReads([MonitorTask(m)] + PoolTasks(ps) + VipTasks(vs)) == 1 + 2 * |ps| + |vs|
  {
    AllReadsJoin([MonitorTask(m)] + PoolTasks(ps), VipTasks(vs));
    AllReadsJoin([MonitorTask(m)], PoolTasks(ps));
    AllReadsOf([MonitorTask(m)]);
    AllReadsOf(PoolTasks(ps));
    AllReadsOf(VipTasks(vs));
  }

  /** Over a configured device a phase that ends without error is Connect, one read of the monitor, two
      of each pool, one of each VIP, and Close. */
  lemma ConfiguredPassReads(w: World, s: Sys, lb: string, want: Want)
    requires Faithful(w) && Configured(s.dev, lb, want) && Configure(w, s, TasksFor(lb, want)).ok
    ensures Configure(w, s, TasksFor(lb, want)).sys.clock == s.clock + 3 + 3 * |want.ports|
  {
    InSyncIsConfigured(s.dev, lb, want);
    SyncedRunReads(w, Peek(w, s).sys, TasksFor(lb, want));
    JoinedReads(MonitorFor(lb, want), PoolsFor(lb, want), VipsFor(lb, want));
  }

  // ---------- The finalizing phase

  function MemberCount(pools: seq<Pool>): nat {
    if pools == [] then 0 else |pools[0].members| + MemberCount(pools[1..])
  }

  lemma {:induction false} DelsLength(pool: string, ms: seq<PoolMember>)
    ensures |Dels(pool, ms)| == |ms|
  {
    if ms != [] { DelsLength(pool, ms[1..]); }
  }

  lemma {:induction false} MemberDelsLength(pools: seq<Pool>)
    ensures |MemberDels(pools)| == MemberCount(pools)
  {
    if pools != [] {
      DelsLength(pools[0].name, pools[0].members);
      MemberDelsLength(pools[1..]);
    }
  }

  /** A finalizing phase that ends without error made one request for each recorded thing, Connect and
      Close besides, and only requests of the member stage may have failed. */
  lemma FinalizeHidesMemberErrorsOnly(w: World, s: Sys, st: Status)
    requires Finalize(w, s, st).ok
    ensures var r, members, first := Finalize(w, s, st).sys, MemberCount(st.pools), s.clock + 1 + |st.vips|;
            && r.clock == first + members + |st.pools| + (if st.monitor == NO_MONITOR then 0 else 1) + 1
            && AllWell(w, s.clock, first) && AllWell(w, first + members, r.clock)
  {
    var c := Peek(w, s).sys;
    var a := CallAll(w, c, VipDels(st.vips)).sys;
    VipDelsAt(st.vips);
    OkCallsWell(w, c, VipDels(st.vips));
    MemberStageLength(w, a, st.pools);
    var b := CallEach(w, a, MemberDels(st.pools));
    LastStagesWell(w, b, st);
    var d := CallAll(w, CallAll(w, b, PoolDels(st.pools)).sys, MonitorDels(st.monitor)).sys;
    OnePeekWell(w, s);
    OnePeekWell(w, d);
    WellJoins(w, s.clock, c.clock, a.clock);
    WellJoins(w, b.clock, d.clock, d.clock + 1);
  }

  lemma MemberStageLength(w: World, s: Sys, pools: seq<Pool>)
    ensures CallEach(w, s, MemberDels(pools)).clock == s.clock + MemberCount(pools)
  {
    EachIsTried(w, s, MemberDels(pools));
    MemberDelsLength(pools);
  }

  lemma LastStagesWell(w: World, s: Sys, st: Status)
    requires CallAll(w, s, PoolDels(st.pools)).ok
    requires CallAll(w, CallAll(w, s, PoolDels(st.pools)).sys, MonitorDels(st.monitor)).ok
    ensures var r := CallAll(w, CallAll(w, s, PoolDels(st.pools)).sys, MonitorDels(st.monitor)).sys;
            && r.clock == s.clock + |st.pools| + (if st.monitor == NO_MONITOR then 0 else 1)
            && AllWell(w, s.clock, r.clock)
  {
    PoolDelsAt(st.pools);
    OkCallsWell(w, s, PoolDels(st.pools));
    OkCallsWell(w, CallAll(w, s, PoolDels(st.pools)).sys, MonitorDels(st.monitor));
  }
}
