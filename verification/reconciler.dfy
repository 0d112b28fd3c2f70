/** The reconciler as it runs: requests to the API server and provider calls in the order of the
    source, proved to do what module Lifecycle says
    (internal/controller/externalloadbalancer_controller.go:115-486, 539-612). */
module Reconciler {
  import opened Types
  import opened Names
  import opened Devices
  import opened Tasks
  import opened Cleanup
  import opened Passes
  import opened Lifecycle
  import opened Handlers
  import Nodes

  /** The API server, as far as one load balancer object is concerned. */
  class ApiServer {
    const world: ApiWorld
    var store: Option<Lb>
    var rev: nat
    var clock: nat
    ghost var log: seq<ApiEntry>

    constructor (world: ApiWorld)
      ensures this.world == world && State() == Api(None, 0, 0, [])
    {
      this.world, this.store, this.rev, this.clock, this.log := world, None, 0, 0, [];
    }

    ghost function State(): Api
      reads this
    {
      Api(store, rev, clock, log)
    }

    method WriteObject(after: Option<Lb>, ghost s: Sys)
      modifies this
      ensures State() == Write(old(State()), after, s)
    {
      log := log + [ApiEntry(store, after, s)];
      store := after;
      rev := rev + 1;
    }

    /** One action of a user or of another controller. */
    method Interfere(step: EnvStep, ghost s: Sys)
      modifies this
      ensures State() == Act(old(State()), step, s)
    {
      match step
      case CreateObject(spec, fs) =>
        if store.None? {
          WriteObject(Some(Lb(spec, EMPTY_STATUS, false, fs, rev + 1)), s);
        }
      case ChangeSpec(spec) =>
        if store.Some? {
          WriteObject(Some(store.value.(spec := spec, version := rev + 1)), s);
        }
      case RequestDeletion =>
        if store.Some? {
          WriteObject(Settle(store.value.(deleting := true, version := rev + 1)), s);
        }
      case SetFinalizers(fs) =>
        if store.Some? && (FINALIZER in fs <==> FINALIZER in store.value.finalizers)
           && (store.value.deleting ==> forall f :: f in fs ==> f in store.value.finalizers) {
          WriteObject(Settle(store.value.(finalizers := fs, version := rev + 1)), s);
        }
    }

    /** A request comes in after whatever the others did before it. */
    method Receive(ghost s: Sys) returns (fault: Fault)
      modifies this
      ensures State() == Arrive(world, old(State()), s) && fault == world.fault(old(clock))
    {
      var steps := world.env(clock);
      ghost var all := ActAll(State(), steps, s);
      for i := 0 to |steps|
        invariant clock == old(clock)
        invariant all == ActAll(State(), steps[i..], s)
      {
        assert steps[i..][0] == steps[i] && steps[i..][1..] == steps[i + 1..];
        assert ActAll(State(), steps[i..], s) == ActAll(Act(State(), steps[i], s), steps[i + 1..], s);
        ghost var before := State();
        Interfere(steps[i], s);
        assert State() == Act(before, steps[i], s);
      }
      assert steps[|steps|..] == [];
      fault := world.fault(clock);
      clock := clock + 1;
    }

    method Query(ghost s: Sys) returns (ok: bool)
      modifies this
      ensures (State(), ok) == Ask(world, old(State()), s)
    {
      var fault := Receive(s);
      ok := fault == NoFault;
    }

    method Get(ghost s: Sys) returns (got: Fetched)
      modifies this
      ensures (State(), got) == Fetch(world, old(State()), s)
    {
      var fault := Receive(s);
      got := if fault != NoFault then Failed else if store.Some? then Found(store.value) else NotFound;
    }

    method UpdateStatus(o: Lb, ghost s: Sys) returns (stored: Option<Lb>)
      modifies this
      ensures (State(), stored) == PutStatus(world, old(State()), o, s)
    {
      var fault := Receive(s);
      if fault == FailBefore || store.None? || store.value.version != o.version {
        return None;
      }
      var written := store.value.(status := o.status, version := rev + 1);
      WriteObject(Some(written), s);
      stored := if fault == NoFault then Some(written) else None;
    }

    method Update(o: Lb, ghost s: Sys) returns (ok: bool)
      modifies this
      ensures (State(), ok) == Put(world, old(State()), o, s)
    {
      var fault := Receive(s);
      if fault == FailBefore || store.None? || store.value.version != o.version {
        return false;
      }
      var written := store.value.(spec := o.spec, finalizers := o.finalizers, version := rev + 1);
      WriteObject(Settle(written), s);
      ok := fault == NoFault;
    }
  }

  /** `contains`: whether `s` is in the list. */
  method Contains(list: seq<string>, s: string) returns (found: bool)
    ensures found <==> s in list
  {
    for i := 0 to |list|
      invariant s !in list[..i]
    {
      assert list[..i + 1] == list[..i] + [list[i]];
      if list[i] == s {
        return true;
      }
    }
    assert list[..|list|] == list;
    return false;
  }

  class LoadBalancerReconciler {
    const lb: string
    const api: ApiServer
    const provider: Provider
    const backend: BackendController

    ghost predicate Valid()
      reads this
    {
      backend.provider == provider
    }

    constructor (lb: string, api: ApiServer, provider: Provider)
      ensures Valid() && this.lb == lb && this.api == api && this.provider == provider
      ensures fresh(this) && fresh(backend)
    {
      this.lb, this.api, this.provider := lb, api, provider;
      backend := new BackendController(provider);
    }

    ghost function Both(): Worlds {
      Worlds(api.world, provider.world)
    }

    ghost function State(): Cluster
      reads api, provider
    {
      Cluster(api.State(), provider.State())
    }

    method Members(nodes: seq<Node>, port: int) returns (members: seq<PoolMember>)
      ensures members == MembersFor(nodes, port)
    {
      members := [];
      for j := 0 to |nodes|
        invariant members == MembersFor(nodes, port)[..j]
      {
        members := members + [PoolMember(nodes[j], port)];
      }
    }

    /** The pool of the `i`-th port. */
    method HandleNextPool(want: Want, i: nat) returns (pool: Pool, ok: bool)
      requires Valid() && i < |want.ports|
      modifies provider
      ensures pool == PoolsFor(lb, want)[i]
      ensures var ts := PoolTasks(PoolsFor(lb, want));
              RunTasks(provider.world, old(provider.State()), ts[i..])
              == if ok then RunTasks(provider.world, provider.State(), ts[i + 1..]) else Outcome(provider.State(), false)
    {
      var port := want.ports[i];
      var members := Members(want.nodes, port);
      pool := Pool(PoolName(lb, port), members, MonitorName(lb));
      NextTask(provider.world, provider.State(), PoolTasks(PoolsFor(lb, want)), i);
      ok := backend.HandlePool(pool, MonitorFor(lb, want));
    }

    /** One pool per port, in order; stops at the first that fails. */
    method HandlePools(want: Want) returns (pools: seq<Pool>, ok: bool)
      requires Valid()
      modifies provider
      ensures ok ==> pools == PoolsFor(lb, want)
      ensures Outcome(provider.State(), ok)
              == RunTasks(provider.world, old(provider.State()), PoolTasks(PoolsFor(lb, want)))
    {
      pools := [];
      ghost var ts := PoolTasks(PoolsFor(lb, want));
      ghost var all := RunTasks(provider.world, provider.State(), ts);
      assert ts[0..] == ts;
      for i := 0 to |want.ports|
        invariant pools == PoolsFor(lb, want)[..i]
        invariant all == RunTasks(provider.world, provider.State(), ts[i..])
      {
        var pool;
        pool, ok := HandleNextPool(want, i);
        if !ok {
          return;
        }
        pools := pools + [pool];
      }
      assert ts[|want.ports|..] == [];
      ok := true;
    }

    method HandleNextVip(want: Want, i: nat) returns (vip: VIP, ok: bool)
      requires Valid() && i < |want.ports|
      modifies provider
      ensures vip == VipsFor(lb, want)[i]
      ensures var ts := VipTasks(VipsFor(lb, want));
              RunTasks(provider.world, old(provider.State()), ts[i..])
              == if ok then RunTasks(provider.world, provider.State(), ts[i + 1..]) else Outcome(provider.State(), false)
    {
      var port := want.ports[i];
      vip := VIP(VipName(lb, port), PoolName(lb, port), want.vip, port);
      NextTask(provider.world, provider.State(), VipTasks(VipsFor(lb, want)), i);
      ok := backend.HandleVip(vip);
    }

    method HandleVips(want: Want) returns (vips: seq<VIP>, ok: bool)
      requires Valid()
      modifies provider
      ensures ok ==> vips == VipsFor(lb, want)
      ensures Outcome(provider.State(), ok)
              == RunTasks(provider.world, old(provider.State()), VipTasks(VipsFor(lb, want)))
    {
      vips := [];
      ghost var ts := VipTasks(VipsFor(lb, want));
      ghost var all := RunTasks(provider.world, provider.State(), ts);
      assert ts[0..] == ts;
      for i := 0 to |want.ports|
        invariant vips == VipsFor(lb, want)[..i]
        invariant all == RunTasks(provider.world, provider.State(), ts[i..])
      {
        var vip;
        vip, ok := HandleNextVip(want, i);
        if !ok {
          return;
        }
        vips := vips + [vip];
      }
      assert ts[|want.ports|..] == [];
      ok := true;
    }

    /** Connect, monitor, pools, VIPs, Close. */
    method ConfigureDevice(want: Want) returns (pools: seq<Pool>, vips: seq<VIP>, ok: bool)
      requires Valid()
      modifies provider
      ensures ok ==> pools == PoolsFor(lb, want) && vips == VipsFor(lb, want)
      ensures Outcome(provider.State(), ok) == Configure(provider.world, old(provider.State()), TasksFor(lb, want))
    {
      pools, vips := [], [];
      ok := provider.Connect();
      if !ok {
        return;
      }
      ghost var w, s := provider.world, provider.State();
      ghost var m := [MonitorTask(MonitorFor(lb, want))];
      ghost var ps, vs := PoolTasks(PoolsFor(lb, want)), VipTasks(VipsFor(lb, want));
      RunTasksJoins(w, s, m + ps, vs);
      RunTasksJoins(w, s, m, ps);
      assert m[1..] == [];
      ok := backend.HandleMonitors(MonitorFor(lb, want));
      if !ok {
        return;
      }
      assert provider.State() == RunTasks(w, s, m).sys;
      pools, ok := HandlePools(want);
      if !ok {
        return;
      }
      vips, ok := HandleVips(want);
      if !ok {
        return;
      }
      ok := provider.Close();
    }

    method FinalizeLoadBalancer(st: Status) returns (ok: bool)
      requires Valid()
      modifies provider
      ensures Outcome(provider.State(), ok) == Finalize(provider.world, old(provider.State()), st)
    {
      ok := provider.Connect();
      if !ok {
        return;
      }
      ok := backend.HandleCleanup(st);
      if !ok {
        return;
      }
      ok := provider.Close();
    }

    /** From the deletion mark on. */
    method FinishPass(cur: Lb) returns (ok: bool)
      requires Valid()
      modifies api, provider
      ensures Step(State(), ok) == Conclude(Both(), old(State()), cur)
    {
      var carries := Contains(cur.finalizers, FINALIZER);
      if cur.deleting {
        if carries {
          ok := FinalizeLoadBalancer(cur.status);
          if !ok {
            return;
          }
          ok := api.Update(cur.(finalizers := Without(cur.finalizers, FINALIZER)), provider.State());
          return;
        }
        return true;
      }
      if !carries {
        ok := api.Update(cur.(finalizers := cur.finalizers + [FINALIZER]), provider.State());
        return;
      }
      return true;
    }

    /** From CreateBackend to the status update, then FinishPass. */
    method DrivePass(obj: Lb, want: Want, labels: map<string, string>) returns (ok: bool)
      requires Valid()
      modifies api, provider
      ensures Step(State(), ok) == Drive(Both(), lb, old(State()), obj, want, labels)
    {
      ok := provider.Ask();
      if !ok {
        return;
      }
      var pools, vips;
      pools, vips, ok := ConfigureDevice(want);
      if !ok {
        return;
      }
      var got := api.Get(provider.State());
      var cur := if got.Found? then got.o else obj.(spec := obj.spec.(monitor := MonitorFor(lb, want)));
      var status := Status(vips, cur.spec.ports, MonitorFor(lb, want), want.nodes, pools, labels, |want.nodes|);
      assert status == NewStatus(lb, want, labels, cur);
      var stored := api.UpdateStatus(cur.(status := status), provider.State());
      if stored.None? {
        return false;
      }
      ok := FinishPass(stored.value);
    }

    method Reconcile() returns (ok: bool)
      requires Valid()
      modifies api, provider
      ensures Step(State(), ok) == Lifecycle.Reconcile(Both(), lb, old(State()))
    {
      ok := api.Query(provider.State());
      if !ok {
        return;
      }
      var got := api.Get(provider.State());
      if got.NotFound? {
        return true;
      }
      if got.Failed? {
        return false;
      }
      var obj := got.o;
      ok := api.Query(provider.State());
      if !ok {
        return;
      }
      if obj.spec.kind == "" && obj.spec.nodeLabels.None? {
        return false;
      }
      var labels := Nodes.ComputeLabels(obj.spec.kind, obj.spec.nodeLabels);
      var listed := Nodes.Matching(api.world.nodes(api.clock), labels);
      ok := api.Query(provider.State());
      if !ok {
        return;
      }
      var nodes := Nodes.SelectNodes(listed, labels);
      ok := DrivePass(obj, WantOf(obj.spec, nodes), labels);
    }
  }

  lemma NextTask(w: World, s: Sys, ts: seq<Task>, i: nat)
    requires i < |ts|
    ensures var r := RunTask(w, s, ts[i]);
            RunTasks(w, s, ts[i..]) == if r.ok then RunTasks(w, r.sys, ts[i + 1..]) else r
  {
    assert ts[i..][0] == ts[i] && ts[i..][1..] == ts[i + 1..];
  }

  lemma {:induction false} RunTasksJoins(w: World, s: Sys, a: seq<Task>, b: seq<Task>)
    ensures RunTasks(w, s, a + b)
            == if RunTasks(w, s, a).ok then RunTasks(w, RunTasks(w, s, a).sys, b) else RunTasks(w, s, a)
    decreases |a|
  {
    if a == [] {
      assert a + b == b;
    } else {
      assert (a + b)[1..] == a[1..] + b;
      RunTasksJoins(w, RunTask(w, s, a[0]).sys, a[1..], b);
    }
  }
}
