/** When a cleanup of a HAProxy configuration goes through, and when a pass that configures and then
    deletes does (internal/controller/backend/backend_controller/backend_controller.go:413-485). */
module HAProxyTeardown {
  import opened Types
  import opened HAProxyConfig

  ghost predicate OrdersNames(names: seq<string>, s: set<string>) {
    && (forall n :: n in names <==> n in s)
    && forall i, j :: 0 <= i < j < |names| ==> names[i] != names[j]
  }

  /** The members report exactly these servers. */
  ghost predicate Reports(ms: seq<PoolMember>, servers: map<string, Server>) {
    exists names :: OrdersNames(names, servers.Keys) && ms == MemberList(names, servers)
  }

  lemma MemberListIs(names: seq<string>, servers: map<string, Server>)
    requires OrdersNames(names, servers.Keys)
    ensures Keys(MemberList(names, servers)) == ServerKeys(servers)
    ensures DistinctNames(MemberList(names, servers))
    ensures forall x :: x in MemberList(names, servers) ==>
              x.node.name in servers && KeyOf(x) == ServerKey(servers[x.node.name])
  {
    var ms := MemberList(names, servers);
    forall k | k in ServerKeys(servers) ensures k in Keys(ms) {
      var n :| n in servers && ServerKey(servers[n]) == k;
      var i :| 0 <= i < |names| && names[i] == n;
      assert ms[i] in ms && KeyOf(ms[i]) == k;
    }
  }

  ghost function NamesOf(ms: seq<PoolMember>): set<string> {
    set x | x in ms :: x.node.name
  }

  ghost predicate DistinctNames(ms: seq<PoolMember>) {
    forall i, j :: 0 <= i < j < |ms| ==> ms[i].node.name != ms[j].node.name
  }

  lemma {:induction false} DropServersIs(c: Config, pool: string, ms: seq<PoolMember>)
    requires pool in c.backends && DistinctNames(ms) && NamesOf(ms) <= c.backends[pool].servers.Keys
    ensures DropServers(Some(c), pool, ms) == Some(SetServers(c, pool, c.backends[pool].servers - NamesOf(ms)))
    decreases |ms|
  {
    if ms == [] {
      assert c.backends[pool].servers - NamesOf(ms) == c.backends[pool].servers;
      assert c.backends[pool := c.backends[pool]] == c.backends;
    } else {
      var n, rest := ms[0].node.name, ms[1..];
      assert ms[0] in ms && n in NamesOf(ms);
      var e := SetServers(c, pool, c.backends[pool].servers - {n});
      forall x | x in rest ensures x.node.name in e.backends[pool].servers && x in ms {
        var j :| 0 <= j < |rest| && rest[j] == x;
        assert ms[j + 1] == x && x in ms && x.node.name in NamesOf(ms);
      }
      DropServersIs(e, pool, rest);
      assert NamesOf(ms) == {n} + NamesOf(rest) by {
        assert forall x :: x in ms <==> x == ms[0] || x in rest;
      }
      assert c.backends[pool].servers - {n} - NamesOf(rest) == c.backends[pool].servers - NamesOf(ms);
      assert SetServers(e, pool, c.backends[pool].servers - NamesOf(ms))
          == SetServers(c, pool, c.backends[pool].servers - NamesOf(ms));
    }
  }

  ghost predicate SameNames(ps: seq<Pool>, qs: seq<Pool>) {
    |ps| == |qs| && forall i :: 0 <= i < |ps| ==> ps[i].name == qs[i].name && ps[i].monitor == qs[i].monitor
  }

  lemma SameNamesNext(ps: seq<Pool>, qs: seq<Pool>, i: nat, p: Pool)
    requires i < |qs| && SameNames(ps, qs[..i]) && p.name == qs[i].name && p.monitor == qs[i].monitor
    ensures SameNames(ps + [p], qs[..i + 1])
  {
    assert qs[..i + 1] == qs[..i] + [qs[i]];
  }

  /** Which backends go depends on the names of the pools only. */
  lemma {:induction false} BackendsByName(d: Option<Config>, ps: seq<Pool>, qs: seq<Pool>)
    requires SameNames(ps, qs)
    ensures DropBackends(d, ps) == DropBackends(d, qs)
    decreases |ps|
  {
    if ps != [] {
      BackendsByName(Do(d, DeleteBackend(ps[0].name)), ps[1..], qs[1..]);
    }
  }

  lemma NamesDecide(d: Option<Config>, vs: seq<VIP>, ps: seq<Pool>, qs: seq<Pool>)
    requires SameNames(ps, qs)
    ensures DropBackends(DropFrontends(d, vs), ps) == DropBackends(DropFrontends(d, vs), qs)
  {
    BackendsByName(DropFrontends(d, vs), ps, qs);
  }

  /** `e` is `c` with some servers of the listed pools gone. */
  ghost predicate Thinned(c: Config, e: Config, ps: seq<Pool>) {
    && e.frontends == c.frontends && e.backends.Keys == c.backends.Keys
    && forall n :: n in c.backends && (forall p :: p in ps ==> p.name != n) ==> e.backends[n] == c.backends[n]
  }

  /** Once the backends go, it no longer matters which of their servers went before. */
  lemma {:induction false} ThinningIsInvisible(c: Config, e: Config, left: seq<Pool>)
    requires e.frontends == c.frontends && e.backends.Keys == c.backends.Keys
    requires forall n :: n in c.backends && (forall p :: p in left ==> p.name != n) ==> e.backends[n] == c.backends[n]
    ensures DropBackends(Some(e), left) == DropBackends(Some(c), left)
    decreases |left|
  {
    if left == [] {
      assert e.backends == c.backends;
    } else {
      var p := left[0];
      NoneStays(Monitor("", "", 0, ""), left[1..], []);
      if p.name in c.backends {
        var c1, e1 := c.(backends := c.backends - {p.name}), e.(backends := e.backends - {p.name});
        forall n | n in c1.backends && (forall q :: q in left[1..] ==> q.name != n)
          ensures e1.backends[n] == c1.backends[n]
        {
          assert forall q :: q in left ==> q == p || q in left[1..];
        }
        ThinningIsInvisible(c1, e1, left[1..]);
      }
    }
  }

  // ---------- When a cleanup goes through

  lemma {:induction false} DropServersIff(c: Config, pool: string, ms: seq<PoolMember>)
    ensures DropServers(Some(c), pool, ms).Some?
            <==> ms == [] || (pool in c.backends && DistinctNames(ms) && NamesOf(ms) <= c.backends[pool].servers.Keys)
    decreases |ms|
  {
    if ms != [] {
      var n, rest := ms[0].node.name, ms[1..];
      var d := Do(Some(c), DeleteServer(pool, n));
      ServersNoneStays(pool, rest);
      if d.Some? { DropServersIff(d.value, pool, rest); }
      if DropServers(Some(c), pool, ms).Some? {
        forall x | x in ms ensures x.node.name in c.backends[pool].servers {
          assert x == ms[0] || (x in rest && x.node.name in NamesOf(rest));
        }
        forall i, j | 0 <= i < j < |ms| ensures ms[i].node.name != ms[j].node.name {
          assert ms[j] == rest[j - 1] && ms[j].node.name in NamesOf(rest);
          if i > 0 { assert ms[i] == rest[i - 1]; }
        }
      }
      if pool in c.backends && DistinctNames(ms) && NamesOf(ms) <= c.backends[pool].servers.Keys {
        DropServersIs(c, pool, ms);
      }
    }
  }

  /** Every server that the pool lists is there, and listed once. */
  ghost predicate Droppable(c: Config, p: Pool) {
    && DistinctNames(p.members)
    && (p.members != [] ==> p.name in c.backends && NamesOf(p.members) <= c.backends[p.name].servers.Keys)
  }

  lemma DropOnePool(c: Config, p: Pool)
    ensures DropServers(Some(c), p.name, p.members).Some? <==> Droppable(c, p)
    ensures DropServers(Some(c), p.name, p.members).Some? ==>
              var d := DropServers(Some(c), p.name, p.members).value;
              && d.frontends == c.frontends && d.backends.Keys == c.backends.Keys
              && forall q: Pool :: q.name != p.name ==> (Droppable(d, q) <==> Droppable(c, q))
  {
    DropServersIff(c, p.name, p.members);
    if Droppable(c, p) && p.members != [] { DropServersIs(c, p.name, p.members); }
  }

  lemma {:induction false} DropAllServersIff(c: Config, ps: seq<Pool>)
    requires DistinctPools(ps)
    ensures DropAllServers(Some(c), ps).Some? <==> forall p :: p in ps ==> Droppable(c, p)
    ensures DropAllServers(Some(c), ps).Some? ==>
              && DropAllServers(Some(c), ps).value.frontends == c.frontends
              && DropAllServers(Some(c), ps).value.backends.Keys == c.backends.Keys
    decreases |ps|
  {
    if ps != [] {
      var p, rest := ps[0], ps[1..];
      var d := DropServers(Some(c), p.name, p.members);
      DropOnePool(c, p);
      NoneStays(Monitor("", "", 0, ""), rest, []);
      assert forall q :: q in ps <==> q == p || q in rest;
      if d.Some? {
        DropAllServersIff(d.value, rest);
        forall q | q in rest ensures Droppable(d.value, q) <==> Droppable(c, q) {
          var j :| 0 <= j < |rest| && rest[j] == q;
          assert ps[j + 1] == q;
        }
      }
    }
  }

  lemma {:induction false} DropBackendsIff(c: Config, ps: seq<Pool>)
    ensures DropBackends(Some(c), ps).Some? <==> DistinctPools(ps) && forall p :: p in ps ==> p.name in c.backends
    decreases |ps|
  {
    if ps != [] {
      var p, rest := ps[0], ps[1..];
      NoneStays(Monitor("", "", 0, ""), rest, []);
      assert forall q :: q in ps <==> q == p || q in rest;
      if p.name in c.backends {
        DropBackendsIff(c.(backends := c.backends - {p.name}), rest);
        if DropBackends(Some(c), ps).Some? {
          forall i, j | 0 <= i < j < |ps| ensures ps[i].name != ps[j].name {
            assert ps[j] == rest[j - 1] && ps[j] in rest;
            if i > 0 { assert ps[i] == rest[i - 1]; }
          }
        }
        if DistinctPools(ps) && forall q :: q in ps ==> q.name in c.backends {
          forall q | q in rest ensures q.name in c.backends - {p.name} {
            var j :| 0 <= j < |rest| && rest[j] == q;
            assert ps[j + 1] == q;
          }
        }
      }
    }
  }

  lemma {:induction false} DroppedBackend(c: Config, ps: seq<Pool>, n: string)
    requires DropBackends(Some(c), ps).Some?
    ensures var r := DropBackends(Some(c), ps).value;
            && r.frontends == c.frontends
            && (if exists p :: p in ps && p.name == n then n !in r.backends else SameBackend(c, r, n))
            && (n in r.backends ==> n in c.backends)
    decreases |ps|
  {
    if ps != [] {
      var p, rest := ps[0], ps[1..];
      NoneStays(Monitor("", "", 0, ""), rest, []);
      assert forall q :: q in ps <==> q == p || q in rest;
      DroppedBackend(c.(backends := c.backends - {p.name}), rest, n);
    }
  }

  lemma {:induction false} DropFrontendsIff(c: Config, vs: seq<VIP>)
    ensures DropFrontends(Some(c), vs).Some? <==> DistinctVips(vs) && forall v :: v in vs ==> v.name in c.frontends
    ensures DropFrontends(Some(c), vs).Some? ==>
              var r := DropFrontends(Some(c), vs).value;
              && r.backends == c.backends
              && (forall v :: v in vs ==> v.name !in r.frontends)
              && (forall n :: n in r.frontends ==> n in c.frontends)
    decreases |vs|
  {
    if vs != [] {
      var v, rest := vs[0], vs[1..];
      NoneStaysVips(rest);
      assert forall u :: u in vs <==> u == v || u in rest;
      if v.name in c.frontends {
        DropFrontendsIff(c.(frontends := c.frontends - {v.name}), rest);
        if DropFrontends(Some(c), vs).Some? {
          forall i, j | 0 <= i < j < |vs| ensures vs[i].name != vs[j].name {
            assert vs[j] == rest[j - 1] && vs[j] in rest;
            if i > 0 { assert vs[i] == rest[i - 1]; }
          }
        }
        if DistinctVips(vs) && forall u :: u in vs ==> u.name in c.frontends {
          forall u | u in rest ensures u.name in c.frontends - {v.name} {
            var j :| 0 <= j < |rest| && rest[j] == u;
            assert vs[j + 1] == u;
          }
        }
      }
    }
  }

  lemma {:induction false} DroppedFrontend(c: Config, vs: seq<VIP>, n: string)
    requires DropFrontends(Some(c), vs).Some?
    ensures var r := DropFrontends(Some(c), vs).value;
            if exists v :: v in vs && v.name == n then n !in r.frontends else SameFrontend(c, r, n)
    decreases |vs|
  {
    if vs != [] {
      var v, rest := vs[0], vs[1..];
      NoneStaysVips(rest);
      assert forall u :: u in vs <==> u == v || u in rest;
      var d := c.(frontends := c.frontends - {v.name});
      DropFrontendsIff(d, rest);
      DroppedFrontend(d, rest, n);
      if v.name == n { GoneStaysGone(d, rest, n); }
    }
  }

  lemma GoneStaysGone(c: Config, vs: seq<VIP>, n: string)
    requires DropFrontends(Some(c), vs).Some? && n !in c.frontends
    ensures n !in DropFrontends(Some(c), vs).value.frontends
  {
    DropFrontendsIff(c, vs);
  }

  /** Everything that the status lists is there, and listed once. */
  ghost predicate Removable(c: Config, vs: seq<VIP>, ps: seq<Pool>) {
    && DistinctVips(vs) && DistinctPools(ps)
    && (forall v :: v in vs ==> v.name in c.frontends)
    && (forall p :: p in ps ==> p.name in c.backends && Droppable(c, p))
  }

  /** The requests of a cleanup, the ignored ones included, as HAProxy takes them. */
  function CleanupResult(c: Config, vs: seq<VIP>, ps: seq<Pool>): Option<Config> {
    DropBackends(DropAllServers(DropFrontends(Some(c), vs), ps), ps)
  }

  /** A cleanup goes through exactly if every frontend, backend and server it lists is there and listed
      once: one member that is not there blocks all of it. */
  lemma CleanupSucceedsIff(c: Config, vs: seq<VIP>, ps: seq<Pool>)
    ensures CleanupResult(c, vs, ps).Some? <==> Removable(c, vs, ps)
  {
    var m := Monitor("", "", 0, "");
    var d := DropFrontends(Some(c), vs);
    DropFrontendsIff(c, vs);
    NoneStays(m, ps, vs);
    if d.Some? {
      var e := DropAllServers(d, ps);
      if e.Some? { DropBackendsIff(e.value, ps); }
      if DistinctPools(ps) { DropAllServersIff(d.value, ps); }
    }
  }
}
