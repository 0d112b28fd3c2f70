/** Passes of load balancers over one HAProxy: when a configure phase and a whole deleting pass go
    through, and what is running over a sequence of passes that share the provider
    (internal/controller/externalloadbalancer_controller.go:273-439, 539-585). */
module HAProxyRuns {
  import opened Types
  import opened HAProxyConfig
  import opened HAProxyTeardown
  import opened Names
  import opened Passes
  import Isolation

  // ---------- When a configure phase goes through

  lemma PoolFrame(c: Config, m: Monitor, p: Pool)
    requires PoolResult(Some(c), m, p).Some?
    ensures var r := PoolResult(Some(c), m, p).value;
            r.frontends == c.frontends && p.name in r.backends && forall n :: n != p.name ==> SameBackend(c, r, n)
  {
  }

  /** The backend becomes what handling the pool alone would make of it. */
  ghost predicate Becomes(c: Config, m: Monitor, p: Pool, r: Config) {
    && PoolResult(Some(c), m, p).Some? && p.name in r.backends
    && r.backends[p.name] == PoolResult(Some(c), m, p).value.backends[p.name]
  }

  /** How a pool is handled depends on its own backend only. */
  lemma PoolDependsOnBackend(c: Config, d: Config, m: Monitor, p: Pool, r: Config)
    requires SameBackend(c, d, p.name)
    ensures PoolFits(c, p) <==> PoolFits(d, p)
    ensures Becomes(d, m, p, r) ==> Becomes(c, m, p, r)
  {
    PoolSucceedsIff(c, m, p);
    PoolSucceedsIff(d, m, p);
  }

  lemma DistinctRest(ps: seq<Pool>)
    requires ps != [] && DistinctPools(ps)
    ensures DistinctPools(ps[1..]) && forall q :: q in ps[1..] ==> q.name != ps[0].name
  {
    forall q | q in ps[1..] ensures q.name != ps[0].name {
      var j :| 0 <= j < |ps[1..]| && ps[1..][j] == q;
      assert ps[j + 1] == q;
    }
  }

  lemma {:induction false} OtherPoolsFrame(c: Config, m: Monitor, ps: seq<Pool>, n: string)
    requires PoolsResult(Some(c), m, ps).Some? && forall p :: p in ps ==> p.name != n
    ensures SameBackend(c, PoolsResult(Some(c), m, ps).value, n)
    decreases |ps|
  {
    if ps != [] {
      var d := PoolResult(Some(c), m, ps[0]);
      NoneStays(m, ps[1..], []);
      PoolFrame(c, m, ps[0]);
      OtherPoolsFrame(d.value, m, ps[1..], n);
    }
  }

  /** With distinct names, each pool is handled as if it were the only one. */
  lemma {:induction false} PoolsSucceedIff(c: Config, m: Monitor, ps: seq<Pool>)
    requires DistinctPools(ps)
    ensures PoolsResult(Some(c), m, ps).Some? <==> forall p :: p in ps ==> PoolFits(c, p)
    ensures PoolsResult(Some(c), m, ps).Some? ==>
              var r := PoolsResult(Some(c), m, ps).value;
              && r.frontends == c.frontends
              && (forall p :: p in ps ==> Becomes(c, m, p, r))
    decreases |ps|
  {
    if ps != [] {
      var p, rest := ps[0], ps[1..];
      var d := PoolResult(Some(c), m, p);
      PoolSucceedsIff(c, m, p);
      NoneStays(m, rest, []);
      DistinctRest(ps);
      assert forall q :: q in ps <==> q == p || q in rest;
      if d.Some? {
        PoolFrame(c, m, p);
        PoolsSucceedIff(d.value, m, rest);
        var all := PoolsResult(Some(c), m, ps);
        forall q | q in rest
          ensures PoolFits(d.value, q) <==> PoolFits(c, q)
          ensures all.Some? ==> Becomes(c, m, q, all.value)
        {
          PoolDependsOnBackend(c, d.value, m, q, if all.Some? then all.value else c);
        }
        if all.Some? {
          OtherPoolsFrame(d.value, m, rest, p.name);
        }
      }
    }
  }

  predicate VipFits(c: Config, v: VIP) {
    v.name in c.frontends ==> c.frontends[v.name].bind.Some?
  }

  lemma {:induction false} VipsSucceedIff(c: Config, vs: seq<VIP>)
    ensures VipsResult(Some(c), vs).Some? <==> forall v :: v in vs ==> VipFits(c, v)
    ensures VipsResult(Some(c), vs).Some? ==>
              var r := VipsResult(Some(c), vs).value;
              && r.backends == c.backends
              && (forall v :: v in vs ==> v.name in r.frontends)
              && (forall n :: n in c.frontends ==> n in r.frontends)
              && (forall n :: n in r.frontends && (n in c.frontends ==> c.frontends[n].bind.Some?) ==>
                    r.frontends[n].bind.Some?)
    decreases |vs|
  {
    if vs != [] {
      var v, rest := vs[0], vs[1..];
      NoneStaysVips(rest);
      assert forall u :: u in vs <==> u == v || u in rest;
      var d := VipResult(Some(c), v);
      assert v in vs && (d.Some? <==> VipFits(c, v));
      if d.Some? {
        VipsSucceedIff(d.value, rest);
        forall u | u in rest ensures VipFits(d.value, u) <==> VipFits(c, u) {}
        assert VipsResult(Some(c), vs) == VipsResult(d, rest);
        assert (forall u :: u in vs ==> VipFits(c, u)) <==> (forall u :: u in rest ==> VipFits(c, u));
      }
    }
  }

  /** Every pool's additions are free of name clashes, and no wanted frontend is there without bind. */
  ghost predicate Configurable(c: Config, ps: seq<Pool>, vs: seq<VIP>) {
    (forall p :: p in ps ==> PoolFits(c, p)) && forall v :: v in vs ==> VipFits(c, v)
  }

  lemma ConfigureSucceedsIff(c: Config, m: Monitor, ps: seq<Pool>, vs: seq<VIP>)
    requires DistinctPools(ps)
    ensures ConfigureResult(c, m, ps, vs).Some? <==> Configurable(c, ps, vs)
  {
    PoolsSucceedIff(c, m, ps);
    NoneStaysVips(vs);
    if PoolsResult(Some(c), m, ps).Some? { VipsSucceedIff(PoolsResult(Some(c), m, ps).value, vs); }
  }

  lemma ConfiguredBackends(c: Config, m: Monitor, ps: seq<Pool>, vs: seq<VIP>)
    requires DistinctPools(ps) && ConfigureResult(c, m, ps, vs).Some?
    ensures var e := ConfigureResult(c, m, ps, vs).value;
            (forall v :: v in vs ==> v.name in e.frontends) && forall p :: p in ps ==> Becomes(c, m, p, e)
  {
    PoolsSucceedIff(c, m, ps);
    NoneStaysVips(vs);
    var d := PoolsResult(Some(c), m, ps).value;
    VipsSucceedIff(d, vs);
    forall p | p in ps ensures Becomes(c, m, p, ConfigureResult(c, m, ps, vs).value) {
      assert Becomes(c, m, p, d);
    }
  }

  // ---------- When a deleting pass goes through

  /** What the status tells of a pool after its update: the servers from before if the backend existed,
      the wanted members if it was created. */
  ghost predicate Told(c: Config, p: Pool, q: Pool) {
    && q.name == p.name && q.monitor == p.monitor
    && if p.name in c.backends then Reports(q.members, c.backends[p.name].servers) else q.members == p.members
  }

  ghost predicate AllTold(c: Config, ps: seq<Pool>, qs: seq<Pool>) {
    |qs| == |ps| && forall i :: 0 <= i < |ps| ==> Told(c, ps[i], qs[i])
  }

  /** The first `i` pools are handled and told, the others are as they were. */
  ghost predicate ToldSoFar(c: Config, d: Config, want: seq<Pool>, status: seq<Pool>, i: nat) {
    && |status| == i <= |want|
    && (forall j :: i <= j < |want| ==> SameBackend(c, d, want[j].name))
    && forall j :: 0 <= j < i ==> Told(c, want[j], status[j])
  }

  lemma ToldNext(c: Config, d: Config, m: Monitor, want: seq<Pool>, status: seq<Pool>, i: nat, told: Pool)
    requires DistinctPools(want) && i < |want| && ToldSoFar(c, d, want, status, i)
    requires PoolResult(Some(d), m, want[i]).Some? && Told(d, want[i], told)
    ensures ToldSoFar(c, PoolResult(Some(d), m, want[i]).value, want, status + [told], i + 1)
  {
    PoolFrame(d, m, want[i]);
    var e := PoolResult(Some(d), m, want[i]).value;
    forall j | i + 1 <= j < |want| ensures SameBackend(c, e, want[j].name) {
      assert SameBackend(c, d, want[j].name) && SameBackend(d, e, want[j].name);
    }
    assert SameBackend(c, d, want[i].name);
  }

  /** No server of the pools' backends has to go. */
  ghost predicate NothingUnwanted(c: Config, ps: seq<Pool>) {
    forall p :: p in ps && p.name in c.backends ==> Unwanted(c.backends[p.name].servers, Keys(p.members)) == {}
  }

  lemma ReportedNames(ms: seq<PoolMember>, servers: map<string, Server>)
    requires Reports(ms, servers)
    ensures DistinctNames(ms) && NamesOf(ms) == servers.Keys
  {
    var names :| OrdersNames(names, servers.Keys) && ms == MemberList(names, servers);
    MemberListIs(names, servers);
    forall n | n in servers ensures n in NamesOf(ms) {
      var i :| 0 <= i < |names| && names[i] == n;
      assert ms[i] in ms && ms[i].node.name == n;
    }
  }

  /** The status's members are all there to be deleted exactly if the update removed none. */
  lemma ToldIsDroppable(c: Config, m: Monitor, p: Pool, q: Pool, e: Config)
    requires Told(c, p, q) && Becomes(c, m, p, e)
    ensures Droppable(e, q) <==> NothingUnwanted(c, [p])
  {
    if p.name in c.backends {
      var was := c.backends[p.name].servers;
      var base := if p.monitor != CHANGED then Restamp(was, m) else was;
      var adds, drop := Missing(p.members, ServerKeys(was)), Unwanted(was, Keys(p.members));
      AddServersIs(base, adds, m);
      ReportedNames(q.members, was);
      assert e.backends[p.name].servers.Keys == AddServers(base, adds, m).value.Keys - drop;
      assert base.Keys == was.Keys;
      assert q.members != [] ==> q.members[0].node.name in NamesOf(q.members);
      assert was.Keys <= e.backends[p.name].servers.Keys <==> drop == {};
      assert p in [p];
    } else {
      AddServersIs(map[], p.members, m);
      PoolSucceedsIff(c, m, p);
    }
  }

  /** The teardown that follows a configure phase goes through exactly if no VIP is listed twice and the
      configure phase had no server to remove. */
  lemma TeardownAfterConfigureIff(c: Config, m: Monitor, ps: seq<Pool>, vs: seq<VIP>, status: seq<Pool>)
    requires DistinctPools(ps) && ConfigureResult(c, m, ps, vs).Some? && AllTold(c, ps, status)
    ensures Removable(ConfigureResult(c, m, ps, vs).value, vs, status) <==> DistinctVips(vs) && NothingUnwanted(c, ps)
  {
    var e := ConfigureResult(c, m, ps, vs).value;
    ConfiguredBackends(c, m, ps, vs);
    forall i | 0 <= i < |ps|
      ensures status[i].name in e.backends && (Droppable(e, status[i]) <==> NothingUnwanted(c, [ps[i]]))
    {
      assert ps[i] in ps;
      ToldIsDroppable(c, m, ps[i], status[i], e);
    }
    assert NothingUnwanted(c, ps) <==> forall i :: 0 <= i < |ps| ==> NothingUnwanted(c, [ps[i]]) by {
      forall i | 0 <= i < |ps| ensures ps[i] in ps && ps[i] in [ps[i]] {}
    }
    forall i | 0 <= i < |ps| ensures status[i] in status {}
  }

  ghost predicate NoneForced(ps: seq<Pool>) {
    forall p :: p in ps ==> p.monitor != CHANGED
  }

  lemma DeletingPassIff(c: Config, m: Monitor, ps: seq<Pool>, vs: seq<VIP>, status: seq<Pool>)
    requires ConfigureResult(c, m, ps, vs).Some? && SameNames(status, ps) && NoneForced(ps)
    requires DistinctPools(ps) ==> AllTold(c, ps, status)
    ensures Removable(ConfigureResult(c, m, ps, vs).value, vs, status)
            <==> DistinctPools(ps) && DistinctVips(vs) && Configurable(c, ps, vs) && NothingUnwanted(c, ps)
  {
    assert DistinctPools(status) <==> DistinctPools(ps);
    if DistinctPools(ps) {
      ConfigureSucceedsIff(c, m, ps, vs);
      TeardownAfterConfigureIff(c, m, ps, vs, status);
    }
  }

  /** A pool that trades its only node for another one: the configure phase goes through, the teardown in
      the same pass does not. */
  lemma TradedNodeBlocksTeardown(m: Monitor, status: seq<Pool>)
    requires var was := Server("10.0.0.1", 80, 0, false);
             var c := Config(map["Pool-a-80" := Backend(None, map["one" := was])], map[]);
             var p := Pool("Pool-a-80", [PoolMember(Node("two", "10.0.0.2", map[]), 80)], "Monitor-a");
             AllTold(c, [p], status)
    ensures var was := Server("10.0.0.1", 80, 0, false);
            var c := Config(map["Pool-a-80" := Backend(None, map["one" := was])], map[]);
            var p := Pool("Pool-a-80", [PoolMember(Node("two", "10.0.0.2", map[]), 80)], "Monitor-a");
            && ConfigureResult(c, m, [p], []).Some?
            && !Removable(ConfigureResult(c, m, [p], []).value, [], status)
  {
    var was := Server("10.0.0.1", 80, 0, false);
    var c := Config(map["Pool-a-80" := Backend(None, map["one" := was])], map[]);
    var x := PoolMember(Node("two", "10.0.0.2", map[]), 80);
    var p := Pool("Pool-a-80", [x], "Monitor-a");
    assert Missing([x], ServerKeys(c.backends[p.name].servers)) == [x] by {
      assert [x][1..] == [] && KeyOf(x) !in ServerKeys(c.backends[p.name].servers);
    }
    ConfigureSucceedsIff(c, m, [p], []);
    TeardownAfterConfigureIff(c, m, [p], [], status);
    assert p in [p] && "one" in Unwanted(c.backends[p.name].servers, Keys(p.members)) by {
      assert ServerKey(was) == Key("10.0.0.1", 80) && Keys([x]) == {Key("10.0.0.2", 80)};
    }
  }

  /** A configured configuration can be configured again, with no server to remove: the pass after a
      failed deleting pass goes through. */
  lemma ConfiguredIsClear(c: Config, m: Monitor, ps: seq<Pool>, vs: seq<VIP>)
    requires DistinctPools(ps) && NoneForced(ps) && ConfigureResult(c, m, ps, vs).Some?
    ensures var e := ConfigureResult(c, m, ps, vs).value; Configurable(e, ps, vs) && NothingUnwanted(e, ps)
  {
    var e := ConfigureResult(c, m, ps, vs).value;
    forall p | p in ps
      ensures PoolFits(e, p)
      ensures p.name in e.backends && Unwanted(e.backends[p.name].servers, Keys(p.members)) == {}
    {
      ConfiguredServersAreChecked(c, m, ps, vs, p);
      var servers := e.backends[p.name].servers;
      NothingMissing(p.members, ServerKeys(servers));
      forall n | n in servers ensures ServerKey(servers[n]) in Keys(p.members) {
        assert ServerKey(servers[n]) in ServerKeys(servers);
      }
    }
    NoneStaysVips(vs);
    PoolsSucceedIff(c, m, ps);
    VipsSucceedIff(PoolsResult(Some(c), m, ps).value, vs);
  }

  // ---------- Passes that share the provider

  datatype Job = Job(monitor: Monitor, pools: seq<Pool>, vips: seq<VIP>, deleting: bool)

  function Last(commits: seq<Config>): Config
    requires commits != []
  {
    commits[|commits| - 1]
  }

  /** What a pass, with any faults, adds to the configurations that were running: nothing, the fully
      configured one, or that and the fully cleaned one. */
  ghost predicate PassTrace(before: seq<Config>, after: seq<Config>, j: Job, ok: bool)
    requires before != []
  {
    var configured := ConfigureResult(Last(before), j.monitor, j.pools, j.vips);
    || (after == before && !ok)
    || (configured.Some? && after == before + [configured.value] && (ok ==> !j.deleting))
    || (j.deleting && configured.Some? && CleanResult(configured.value, j.vips, j.pools).Some?
        && after == before + [configured.value, CleanResult(configured.value, j.vips, j.pools).value])
  }

  /** `commits` are the configurations running during the jobs; `marks[i]` of them before job `i`. */
  ghost predicate Trace(commits: seq<Config>, marks: seq<nat>, jobs: seq<Job>, oks: seq<bool>) {
    && |oks| == |jobs| && |marks| == |jobs| + 1 && marks[|jobs|] == |commits|
    && (forall i :: 0 <= i <= |jobs| ==> 1 <= marks[i] <= |commits|)
    && forall i :: 0 <= i < |jobs| ==> PassTrace(commits[..marks[i]], commits[..marks[i + 1]], jobs[i], oks[i])
  }

  lemma TraceGrows(commits: seq<Config>, marks: seq<nat>, jobs: seq<Job>, oks: seq<bool>, after: seq<Config>, j: Job, ok: bool)
    requires Trace(commits, marks, jobs, oks) && commits != [] && PassTrace(commits, after, j, ok)
    ensures commits <= after && Trace(after, marks + [|after|], jobs + [j], oks + [ok])
  {
    var n, more := |jobs|, marks + [|after|];
    assert commits[..marks[n]] == commits && after[..more[n]] == commits && after[..more[n + 1]] == after;
    forall i | 0 <= i < n ensures PassTrace(after[..more[i]], after[..more[i + 1]], jobs[i], oks[i]) {
      assert after[..more[i]] == commits[..marks[i]] && after[..more[i + 1]] == commits[..marks[i + 1]];
    }
  }

  lemma CleanedIs(c: Config, vs: seq<VIP>, ps: seq<Pool>)
    requires CleanResult(c, vs, ps).Some?
    ensures var r := CleanResult(c, vs, ps).value;
            && (forall v :: v in vs ==> v.name !in r.frontends) && (forall p :: p in ps ==> p.name !in r.backends)
            && (forall n :: (forall p :: p in ps ==> p.name != n) ==> SameBackend(c, r, n))
            && (forall n :: (forall v :: v in vs ==> v.name != n) ==> SameFrontend(c, r, n))
  {
    var r := CleanResult(c, vs, ps).value;
    DropFrontendsIff(c, vs);
    NoneStays(Monitor("", "", 0, ""), ps, vs);
    var d := DropFrontends(Some(c), vs).value;
    forall n ensures SameBackend(c, r, n) || exists p :: p in ps && p.name == n { DroppedBackend(d, ps, n); }
    forall p | p in ps ensures p.name !in r.backends { DroppedBackend(d, ps, p.name); }
    DroppedBackend(d, ps, "");
    forall n ensures SameFrontend(c, r, n) || exists v :: v in vs && v.name == n { DroppedFrontend(c, vs, n); }
  }

  /** Everything but the pools and the VIPs of the job is as it was. */
  ghost predicate OthersSame(c: Config, d: Config, j: Job) {
    && (forall n :: (forall p :: p in j.pools ==> p.name != n) ==> SameBackend(c, d, n))
    && forall n :: (forall v :: v in j.vips ==> v.name != n) ==> SameFrontend(c, d, n)
  }

  lemma ConfiguredLeavesOthers(c: Config, j: Job)
    requires ConfigureResult(c, j.monitor, j.pools, j.vips).Some?
    ensures OthersSame(c, ConfigureResult(c, j.monitor, j.pools, j.vips).value, j)
  {
    ConfiguredVipsAreRouted(c, j.monitor, j.pools, j.vips);
    VipsNeedDraft(j.monitor, j.pools, j.vips, c);
    var d := PoolsResult(Some(c), j.monitor, j.pools).value;
    VipsLeaveBackends(d, j.vips);
    forall n | forall p :: p in j.pools ==> p.name != n
      ensures SameBackend(c, ConfigureResult(c, j.monitor, j.pools, j.vips).value, n)
    {
      OtherPoolsFrame(c, j.monitor, j.pools, n);
    }
  }

  /** What a configure phase that goes through leaves. */
  lemma PhaseResult(c: Config, m: Monitor, ps: seq<Pool>, vs: seq<VIP>)
    ensures ConfigureResult(c, m, ps, vs).Some? ==>
              var r := ConfigureResult(c, m, ps, vs).value;
              && OthersSame(c, r, Job(m, ps, vs, false))
              && (ConsistentVips(vs) ==> forall v :: v in vs ==> Routes(r, v))
              && (ConsistentPools(ps) && NoneForced(ps) ==> forall p :: p in ps ==> Serves(r, m, p))
  {
    if ConfigureResult(c, m, ps, vs).Some? {
      ConfiguredLeavesOthers(c, Job(m, ps, vs, false));
      ConfiguredVipsAreRouted(c, m, ps, vs);
      forall p | p in ps && ConsistentPools(ps) && NoneForced(ps)
        ensures Serves(ConfigureResult(c, m, ps, vs).value, m, p)
      {
        ConfiguredServersAreChecked(c, m, ps, vs, p);
      }
    }
  }

  /** At every moment of a pass, faults included, everything but its own pools and VIPs is as it was. */
  lemma PassLeavesOthers(before: seq<Config>, after: seq<Config>, j: Job, ok: bool)
    requires before != [] && PassTrace(before, after, j, ok)
    ensures before <= after && forall k :: |before| <= k < |after| ==> OthersSame(Last(before), after[k], j)
  {
    var c := Last(before);
    if after != before {
      ConfiguredLeavesOthers(c, j);
      var configured := ConfigureResult(c, j.monitor, j.pools, j.vips).value;
      if |after| == |before| + 2 {
        var cleaned := after[|before| + 1];
        CleanedIs(configured, j.vips, j.pools);
        forall n | forall p :: p in j.pools ==> p.name != n ensures SameBackend(c, cleaned, n) {
          assert SameBackend(c, configured, n) && SameBackend(configured, cleaned, n);
        }
        forall n | forall v :: v in j.vips ==> v.name != n ensures SameFrontend(c, cleaned, n) {
          assert SameFrontend(c, configured, n) && SameFrontend(configured, cleaned, n);
        }
      }
    }
  }

  /** What a pass leaves: everything of others as it was; without error its own objects in place, or gone
      if it was deleting. */
  lemma PassConclusion(before: seq<Config>, after: seq<Config>, j: Job, ok: bool)
    requires before != [] && PassTrace(before, after, j, ok)
    ensures after != [] && OthersSame(Last(before), Last(after), j)
    ensures ok && !j.deleting && ConsistentPools(j.pools) && NoneForced(j.pools) ==>
              forall p :: p in j.pools ==> Serves(Last(after), j.monitor, p)
    ensures ok && !j.deleting && ConsistentVips(j.vips) ==> forall v :: v in j.vips ==> Routes(Last(after), v)
    ensures ok && j.deleting ==> (forall p :: p in j.pools ==> p.name !in Last(after).backends)
                                 && forall v :: v in j.vips ==> v.name !in Last(after).frontends
  {
    PassLeavesOthers(before, after, j, ok);
    if ok {
      PhaseResult(Last(before), j.monitor, j.pools, j.vips);
      if j.deleting { CleanedIs(ConfigureResult(Last(before), j.monitor, j.pools, j.vips).value, j.vips, j.pools); }
    }
  }

  /** The pool is served and the VIP leads to its pool. */
  ghost predicate InPlace(c: Config, m: Monitor, p: Pool, v: VIP) {
    Serves(c, m, p) && Routes(c, v)
  }

  lemma OwnObjectsInPlace(before: seq<Config>, after: seq<Config>, j: Job, p: Pool, v: VIP)
    requires before != [] && PassTrace(before, after, j, true) && !j.deleting
    requires p in j.pools && ConsistentPools(j.pools) && NoneForced(j.pools)
    requires v in j.vips && ConsistentVips(j.vips)
    ensures before < after && InPlace(Last(after), j.monitor, p, v)
  {
    ConfiguredServersAreChecked(Last(before), j.monitor, j.pools, j.vips, p);
    ConfiguredVipsAreRouted(Last(before), j.monitor, j.pools, j.vips);
  }

  /** The job names neither the pool nor the VIP. */
  ghost predicate Apart(j: Job, p: Pool, v: VIP) {
    (forall q :: q in j.pools ==> q.name != p.name) && forall u :: u in j.vips ==> u.name != v.name
  }

  lemma StaysInPlace(before: seq<Config>, after: seq<Config>, j: Job, ok: bool, m: Monitor, p: Pool, v: VIP)
    requires before != [] && PassTrace(before, after, j, ok) && InPlace(Last(before), m, p, v) && Apart(j, p, v)
    ensures before <= after && forall k :: |before| <= k < |after| ==> InPlace(after[k], m, p, v)
  {
    PassLeavesOthers(before, after, j, ok);
    forall k | |before| <= k < |after| ensures InPlace(after[k], m, p, v) {
      assert SameBackend(Last(before), after[k], p.name) && SameFrontend(Last(before), after[k], v.name);
    }
  }

  lemma {:induction false} InPlaceUpTo(commits: seq<Config>, marks: seq<nat>, jobs: seq<Job>, oks: seq<bool>, i: nat, l: nat, p: Pool, v: VIP)
    requires Trace(commits, marks, jobs, oks) && i < l <= |jobs|
    requires oks[i] && !jobs[i].deleting && p in jobs[i].pools && v in jobs[i].vips
    requires ConsistentPools(jobs[i].pools) && NoneForced(jobs[i].pools) && ConsistentVips(jobs[i].vips)
    requires forall j :: i < j < l ==> Apart(jobs[j], p, v)
    ensures marks[i + 1] <= marks[l]
    ensures forall k :: marks[i + 1] - 1 <= k < marks[l] ==> InPlace(commits[k], jobs[i].monitor, p, v)
    decreases l
  {
    if l == i + 1 {
      OwnObjectsInPlace(commits[..marks[i]], commits[..marks[i + 1]], jobs[i], p, v);
    } else {
      InPlaceUpTo(commits, marks, jobs, oks, i, l - 1, p, v);
      var before, after := commits[..marks[l - 1]], commits[..marks[l]];
      assert PassTrace(before, after, jobs[l - 1], oks[l - 1]);
      assert Last(before) == commits[marks[l - 1] - 1];
      StaysInPlace(before, after, jobs[l - 1], oks[l - 1], jobs[i].monitor, p, v);
      forall k | marks[i + 1] - 1 <= k < marks[l] ensures InPlace(commits[k], jobs[i].monitor, p, v) {
        assert k >= |before| ==> after[k] == commits[k];
      }
    }
  }

  /** Whoever used the provider before or after: from the moment a pass has ended without error, and
      until a pass names the pool or the VIP again, every configuration that runs has exactly the pool's
      members, each checked as the pool's own monitor says, and the VIP leads to its pool. */
  lemma ServedEverSince(commits: seq<Config>, marks: seq<nat>, jobs: seq<Job>, oks: seq<bool>, i: nat, p: Pool, v: VIP, k: nat)
    requires Trace(commits, marks, jobs, oks) && i < |jobs|
    requires oks[i] && !jobs[i].deleting && p in jobs[i].pools && v in jobs[i].vips
    requires ConsistentPools(jobs[i].pools) && NoneForced(jobs[i].pools) && ConsistentVips(jobs[i].vips)
    requires forall j :: i < j < |jobs| ==> Apart(jobs[j], p, v)
    requires marks[i + 1] - 1 <= k < |commits|
    ensures Serves(commits[k], jobs[i].monitor, p) && Routes(commits[k], v)
  {
    InPlaceUpTo(commits, marks, jobs, oks, i, |jobs|, p, v);
  }

  // ---------- Load balancers by name

  function JobOf(j: Isolation.Job): Job {
    Job(MonitorFor(j.lb, j.want), PoolsFor(j.lb, j.want), VipsFor(j.lb, j.want), j.deleting)
  }

  lemma OwnPoolsFit(j: Isolation.Job)
    ensures ConsistentPools(JobOf(j).pools) && NoneForced(JobOf(j).pools)
  {
    forall p | p in JobOf(j).pools ensures p.monitor != CHANGED {
      PoolsForHas(j.lb, j.want, p);
      assert MonitorName(j.lb)[0] == 'M';
    }
    forall p, q | p in JobOf(j).pools && q in JobOf(j).pools && p.name == q.name ensures p == q {
      PoolsForHas(j.lb, j.want, p);
      PoolsForHas(j.lb, j.want, q);
      var a :| a in j.want.ports && p == PoolFor(j.lb, j.want, a);
      var b :| b in j.want.ports && q == PoolFor(j.lb, j.want, b);
      PortsInjective(j.lb, a, b);
    }
  }

  lemma OwnVipsFit(j: Isolation.Job)
    ensures ConsistentVips(JobOf(j).vips)
  {
    forall u, v | u in JobOf(j).vips && v in JobOf(j).vips && u.name == v.name ensures u == v {
      VipsForHas(j.lb, j.want, u);
      VipsForHas(j.lb, j.want, v);
      var a :| a in j.want.ports && u == VipFor(j.lb, j.want, a);
      var b :| b in j.want.ports && v == VipFor(j.lb, j.want, b);
      PortsInjective(j.lb, a, b);
    }
  }

  lemma OtherNameIsApart(j: Isolation.Job, lb: string, want: Want, port: nat)
    requires j.lb != lb && Isolation.RealPorts(j.want)
    ensures Apart(JobOf(j), PoolFor(lb, want, port), VipFor(lb, want, port))
  {
    forall q | q in JobOf(j).pools ensures q.name != PoolName(lb, port) {
      PoolsForHas(j.lb, j.want, q);
      var a :| a in j.want.ports && q == PoolFor(j.lb, j.want, a);
      NamesInjective(lb, port, j.lb, a);
    }
    forall u | u in JobOf(j).vips ensures u.name != VipName(lb, port) {
      VipsForHas(j.lb, j.want, u);
      var a :| a in j.want.ports && u == VipFor(j.lb, j.want, a);
      NamesInjective(lb, port, j.lb, a);
    }
  }

  /** The monitor lives in one provider object that all load balancers of its kind use in turn; still
      each one's servers are checked by its own monitor, and its VIPs lead to its pools, as long as the
      others have other names. */
  lemma OwnMonitorEverSince(commits: seq<Config>, marks: seq<nat>, js: seq<Isolation.Job>, oks: seq<bool>, i: nat, port: int, k: nat)
    requires Trace(commits, marks, seq(|js|, l requires 0 <= l < |js| => JobOf(js[l])), oks) && i < |js|
    requires oks[i] && !js[i].deleting && port in js[i].want.ports && marks[i + 1] - 1 <= k < |commits|
    requires Isolation.RealPorts(js[i].want)
    requires forall j :: i < j < |js| ==> js[j].lb != js[i].lb && Isolation.RealPorts(js[j].want)
    ensures Serves(commits[k], MonitorFor(js[i].lb, js[i].want), PoolFor(js[i].lb, js[i].want, port))
    ensures Routes(commits[k], VipFor(js[i].lb, js[i].want, port))
  {
    var jobs := seq(|js|, l requires 0 <= l < |js| => JobOf(js[l]));
    var lb, want := js[i].lb, js[i].want;
    OwnPoolsFit(js[i]);
    OwnVipsFit(js[i]);
    PoolsForHas(lb, want, PoolFor(lb, want, port));
    VipsForHas(lb, want, VipFor(lb, want, port));
    forall j | i < j < |jobs| ensures Apart(jobs[j], PoolFor(lb, want, port), VipFor(lb, want, port)) {
      OtherNameIsApart(js[j], lb, want, port);
    }
    ServedEverSince(commits, marks, jobs, oks, i, PoolFor(lb, want, port), VipFor(lb, want, port), k);
  }
}
