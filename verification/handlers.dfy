/** The generic backend controller, as it issues provider calls
    (internal/controller/backend/backend_controller/backend_controller.go). */
module Handlers {
  import opened Types
  import opened Devices
  import opened Tasks
  import opened Cleanup

  /** A provider that honours the comments of the interface, in front of one device. */
  class Provider {
    const world: World
    var dev: Device
    var clock: nat
    ghost var log: seq<Entry>

    constructor (world: World, dev: Device)
      ensures this.world == world && State() == Sys(dev, 0, [])
    {
      this.world, this.dev, this.clock, this.log := world, dev, 0, [];
    }

    ghost function State(): Sys
      reads this
    {
      Sys(dev, clock, log)
    }

    /** One round trip that does not change the device. */
    method Ask() returns (ok: bool)
      modifies this
      ensures Outcome(State(), ok) == Peek(world, old(State()))
    {
      ok := world.fault(clock) == NoFault;
      clock := clock + 1;
    }

    /** One round trip that may change the device. */
    method Perform(op: Op) returns (ok: bool)
      modifies this
      ensures Outcome(State(), ok) == Call(world, old(State()), op)
    {
      var fault := world.fault(clock);
      clock := clock + 1;
      if fault == FailBefore || (world.strict && !Accepts(dev, op)) {
        return false;
      }
      log := log + [Entry(dev, op, Apply(dev, op))];
      dev := Apply(dev, op);
      ok := fault == NoFault;
    }

    method Connect() returns (ok: bool)
      modifies this
      ensures Outcome(State(), ok) == Peek(world, old(State()))
    {
      ok := Ask();
    }

    method Close() returns (ok: bool)
      modifies this
      ensures Outcome(State(), ok) == Peek(world, old(State()))
    {
      ok := Ask();
    }

    method GetMonitor(monitor: Monitor) returns (m: Option<Monitor>, ok: bool)
      modifies this
      ensures Outcome(State(), ok) == Peek(world, old(State()))
      ensures m.Some? <==> monitor.name in dev.monitors
      ensures m.Some? ==> m.value.name == monitor.name && MonitorCfgOf(m.value) == dev.monitors[monitor.name]
    {
      ok := Ask();
      if monitor.name in dev.monitors {
        var c := dev.monitors[monitor.name];
        m := Some(Monitor(monitor.name, c.path, c.port, c.kind));
      } else {
        m := None;
      }
    }

    /** The pool without its members: those are fetched by GetPoolMembers. */
    method GetPool(pool: Pool) returns (p: Option<Pool>, ok: bool)
      modifies this
      ensures Outcome(State(), ok) == Peek(world, old(State()))
      ensures p == if pool.name in dev.pools then Some(Pool(pool.name, [], dev.pools[pool.name].monitor)) else None
    {
      ok := Ask();
      p := if pool.name in dev.pools then Some(Pool(pool.name, [], dev.pools[pool.name].monitor)) else None;
    }

    method GetPoolMembers(pool: Pool) returns (p: Pool, ok: bool)
      requires pool.name in dev.pools
      modifies this
      ensures Outcome(State(), ok) == Peek(world, old(State()))
      ensures p == pool.(members := world.listing(old(clock), dev.pools[pool.name].members))
      ensures Faithful(world) ==> Lists(p.members, dev.pools[pool.name].members)
    {
      p := pool.(members := world.listing(clock, dev.pools[pool.name].members));
      ok := Ask();
    }

    method GetVip(vip: VIP) returns (v: Option<VIP>, ok: bool)
      modifies this
      ensures Outcome(State(), ok) == Peek(world, old(State()))
      ensures v.Some? <==> vip.name in dev.vips
      ensures v.Some? ==> v.value.name == vip.name && VipCfgOf(v.value) == dev.vips[vip.name]
    {
      ok := Ask();
      if vip.name in dev.vips {
        var c := dev.vips[vip.name];
        v := Some(VIP(vip.name, c.pool, c.ip, c.port));
      } else {
        v := None;
      }
    }
  }

  /** Whether `arr` has a member with the host and port of `m`. */
  method ContainsMember(arr: seq<PoolMember>, m: PoolMember) returns (found: bool)
    ensures found <==> exists i :: 0 <= i < |arr| && arr[i].node.host == m.node.host && arr[i].port == m.port
    ensures found <==> KeyOf(m) in Keys(arr)
  {
    for i := 0 to |arr|
      invariant forall j :: 0 <= j < i ==> KeyOf(arr[j]) != KeyOf(m)
    {
      if arr[i].node.host == m.node.host && arr[i].port == m.port {
        assert arr[i] in arr && KeyOf(arr[i]) == KeyOf(m);
        return true;
      }
    }
    return false;
  }

  /** The members of `ms` that `have` lacks, in order: the two loops of HandlePool. */
  method Lacking(ms: seq<PoolMember>, have: seq<PoolMember>) returns (r: seq<PoolMember>)
    ensures r == Missing(ms, Keys(have))
  {
    r := [];
    for i := 0 to |ms|
      invariant r + Missing(ms[i..], Keys(have)) == Missing(ms, Keys(have))
    {
      var found := ContainsMember(have, ms[i]);
      assert ms[i..][0] == ms[i] && ms[i..][1..] == ms[i + 1..];
      if !found {
        r := r + [ms[i]];
      }
    }
    assert ms[|ms|..] == [];
  }

  class BackendController {
    const provider: Provider

    constructor (provider: Provider)
      ensures this.provider == provider
    {
      this.provider := provider;
    }

    method HandleMonitors(monitor: Monitor) returns (ok: bool)
      modifies provider
      ensures Outcome(provider.State(), ok) == RunTask(provider.world, old(provider.State()), MonitorTask(monitor))
    {
      var m;
      m, ok := provider.GetMonitor(monitor);
      if !ok {
        return;
      }
      if m.Some? {
        if monitor.port != m.value.port || monitor.path != m.value.path || monitor.kind != m.value.kind {
          ghost var s := provider.State();
          ok := provider.Perform(EditMonitor(monitor));
          OneCall(provider.world, s, EditMonitor(monitor));
        }
        return;
      }
      ghost var s := provider.State();
      ok := provider.Perform(CreateMonitor(monitor));
      OneCall(provider.world, s, CreateMonitor(monitor));
    }

    method HandleVip(v: VIP) returns (ok: bool)
      modifies provider
      ensures Outcome(provider.State(), ok) == RunTask(provider.world, old(provider.State()), VipTask(v))
    {
      var vs;
      vs, ok := provider.GetVip(v);
      if !ok {
        return;
      }
      if vs.Some? {
        if v.port != vs.value.port || v.ip != vs.value.ip || v.pool != vs.value.pool {
          ghost var s := provider.State();
          ok := provider.Perform(EditVip(v));
          OneCall(provider.world, s, EditVip(v));
        }
        return;
      }
      ghost var s := provider.State();
      ok := provider.Perform(CreateVip(v));
      OneCall(provider.world, s, CreateVip(v));
    }

    /** Creates `ms` in the pool one after the other; `rest` is what the caller will do next. */
    method CreateMembers(pool: string, ms: seq<PoolMember>, ghost rest: seq<Op>) returns (ok: bool)
      modifies provider
      ensures if ok then CallAll(provider.world, old(provider.State()), Adds(pool, ms) + rest)
                         == CallAll(provider.world, provider.State(), rest)
              else CallAll(provider.world, old(provider.State()), Adds(pool, ms) + rest)
                   == Outcome(provider.State(), false)
    {
      ghost var all := CallAll(provider.world, provider.State(), Adds(pool, ms) + rest);
      for i := 0 to |ms|
        invariant all == CallAll(provider.world, provider.State(), Adds(pool, ms[i..]) + rest)
      {
        ghost var todo := Adds(pool, ms[i..]) + rest;
        assert ms[i..][0] == ms[i] && ms[i..][1..] == ms[i + 1..];
        assert todo[0] == AddMember(pool, KeyOf(ms[i])) && todo[1..] == Adds(pool, ms[i + 1..]) + rest;
        ok := provider.Perform(AddMember(pool, KeyOf(ms[i])));
        if !ok {
          return;
        }
      }
      assert Adds(pool, ms[|ms|..]) + rest == rest;
      ok := true;
    }

    method DeleteMembers(pool: string, ms: seq<PoolMember>) returns (ok: bool)
      modifies provider
      ensures Outcome(provider.State(), ok) == CallAll(provider.world, old(provider.State()), Dels(pool, ms))
    {
      ghost var all := CallAll(provider.world, provider.State(), Dels(pool, ms));
      for i := 0 to |ms|
        invariant all == CallAll(provider.world, provider.State(), Dels(pool, ms[i..]))
      {
        assert ms[i..][0] == ms[i] && ms[i..][1..] == ms[i + 1..];
        assert Dels(pool, ms[i..])[1..] == Dels(pool, ms[i + 1..]);
        ok := provider.Perform(DelMember(pool, KeyOf(ms[i])));
        if !ok {
          return;
        }
      }
      assert Dels(pool, ms[|ms|..]) == [];
      ok := true;
    }

    /** HandlePool once the pool was found and its members were listed: adds, then removes. */
    method UpdatePool(pool: Pool, configured: Pool) returns (ok: bool)
      requires pool.name in provider.dev.pools && configured.monitor == provider.dev.pools[pool.name].monitor
      modifies provider
      ensures Outcome(provider.State(), ok)
              == CallAll(provider.world, old(provider.State()), UpdateOps(old(provider.dev), pool, configured.members))
    {
      var addMembers := Lacking(pool.members, configured.members);
      var delMembers := Lacking(configured.members, pool.members);
      ghost var adds, dels := Adds(pool.name, addMembers), Dels(pool.name, delMembers);
      RetargetThen(provider.world, provider.State(), pool, adds + dels);
      assert UpdateOps(provider.dev, pool, configured.members)
          == RetargetOps(provider.dev, pool) + (adds + dels);
      if pool.monitor != configured.monitor {
        ok := provider.Perform(EditPool(pool.name, pool.monitor));
        if !ok {
          return;
        }
      }
      ok := CreateMembers(pool.name, addMembers, dels);
      if !ok {
        return;
      }
      ok := DeleteMembers(pool.name, delMembers);
    }

    method HandlePool(pool: Pool, monitor: Monitor) returns (ok: bool)
      modifies provider
      ensures Outcome(provider.State(), ok) == RunTask(provider.world, old(provider.State()), PoolTask(pool))
    {
      var p;
      p, ok := provider.GetPool(pool);
      if !ok {
        return;
      }
      if p.Some? {
        var configured;
        configured, ok := provider.GetPoolMembers(p.value);
        if !ok {
          return;
        }
        ok := UpdatePool(pool, configured);
        return;
      }
      ghost var plan := [CreatePool(pool.name, pool.monitor)] + Adds(pool.name, pool.members);
      assert plan[1..] == Adds(pool.name, pool.members) + [];
      ok := provider.Perform(CreatePool(pool.name, pool.monitor));
      if !ok {
        return;
      }
      ok := CreateMembers(pool.name, pool.members, []);
    }

    /** Drops the members of one pool; `rest` is what the caller will do next. */
    method DropMembersOf(p: Pool, ghost rest: seq<Op>)
      modifies provider
      ensures CallEach(provider.world, old(provider.State()), Dels(p.name, p.members) + rest)
              == CallEach(provider.world, provider.State(), rest)
    {
      ghost var all := CallEach(provider.world, provider.State(), Dels(p.name, p.members) + rest);
      for j := 0 to |p.members|
        invariant all == CallEach(provider.world, provider.State(), Dels(p.name, p.members[j..]) + rest)
      {
        ghost var todo := Dels(p.name, p.members[j..]) + rest;
        assert p.members[j..][0] == p.members[j] && p.members[j..][1..] == p.members[j + 1..];
        assert todo[0] == DelMember(p.name, KeyOf(p.members[j])) && todo[1..] == Dels(p.name, p.members[j + 1..]) + rest;
        var _ := provider.Perform(DelMember(p.name, KeyOf(p.members[j])));
      }
      assert Dels(p.name, p.members[|p.members|..]) + rest == rest;
    }

    /** The member loop of the cleanup, whose errors are only logged. */
    method DropMembers(pools: seq<Pool>)
      modifies provider
      ensures provider.State() == CallEach(provider.world, old(provider.State()), MemberDels(pools))
    {
      ghost var all := CallEach(provider.world, provider.State(), MemberDels(pools));
      for i := 0 to |pools|
        invariant all == CallEach(provider.world, provider.State(), MemberDels(pools[i..]))
      {
        var p := pools[i];
        assert pools[i..][0] == p && pools[i..][1..] == pools[i + 1..];
        DropMembersOf(p, MemberDels(pools[i + 1..]));
      }
      assert MemberDels(pools[|pools|..]) == [];
    }

    method HandleCleanup(st: Status) returns (ok: bool)
      modifies provider
      ensures Outcome(provider.State(), ok) == RunCleanup(provider.world, old(provider.State()), st)
    {
      ghost var vips := CallAll(provider.world, provider.State(), VipDels(st.vips));
      for i := 0 to |st.vips|
        invariant vips == CallAll(provider.world, provider.State(), VipDels(st.vips[i..]))
      {
        assert st.vips[i..][0] == st.vips[i] && st.vips[i..][1..] == st.vips[i + 1..];
        assert VipDels(st.vips[i..])[1..] == VipDels(st.vips[i + 1..]);
        ok := provider.Perform(DeleteVip(st.vips[i].name));
        if !ok {
          return;
        }
      }
      assert VipDels(st.vips[|st.vips|..]) == [];
      DropMembers(st.pools);
      ghost var pools := CallAll(provider.world, provider.State(), PoolDels(st.pools));
      for i := 0 to |st.pools|
        invariant pools == CallAll(provider.world, provider.State(), PoolDels(st.pools[i..]))
      {
        assert st.pools[i..][0] == st.pools[i] && st.pools[i..][1..] == st.pools[i + 1..];
        assert PoolDels(st.pools[i..])[1..] == PoolDels(st.pools[i + 1..]);
        ok := provider.Perform(DeletePool(st.pools[i].name));
        if !ok {
          return;
        }
      }
      assert PoolDels(st.pools[|st.pools|..]) == [];
      ok := true;
      if st.monitor != NO_MONITOR {
        ghost var s := provider.State();
        ok := provider.Perform(DeleteMonitor(st.monitor.name));
        OneCall(provider.world, s, DeleteMonitor(st.monitor.name));
      }
    }
  }

  lemma OneCall(w: World, s: Sys, op: Op)
    ensures CallAll(w, s, [op]) == Call(w, s, op)
  {
    assert [op][1..] == [];
  }

  /** An update starts with the monitor edit, if there is one. */
  lemma RetargetThen(w: World, s: Sys, p: Pool, rest: seq<Op>)
    requires p.name in s.dev.pools
    ensures var edit := Call(w, s, EditPool(p.name, p.monitor));
            CallAll(w, s, RetargetOps(s.dev, p) + rest)
            == if s.dev.pools[p.name].monitor == p.monitor then CallAll(w, s, rest)
               else if edit.ok then CallAll(w, edit.sys, rest) else edit
  {
    OneCall(w, s, EditPool(p.name, p.monitor));
    CallAllJoins(w, s, RetargetOps(s.dev, p), rest);
  }
}
