/** HAProxy configurations, the Dataplane requests that change them, and what the handlers make of a
    configuration when nothing fails. None stands for a transaction that is gone or for a refused
    request (internal/controller/backend/haproxy/haproxy_controller.go). */
module HAProxyConfig {
  import opened Types

  /** A server is identified by its name, not by host and port. */
  datatype Server = Server(host: string, port: int, checkPort: int, checkSsl: bool)

  datatype Backend = Backend(check: Option<string>, servers: map<string, Server>)

  datatype Bind = Bind(ip: string, port: int)

  datatype Frontend = Frontend(backend: string, bind: Option<Bind>)

  datatype Config = Config(backends: map<string, Backend>, frontends: map<string, Frontend>)

  datatype Request =
    | CreateBackend(name: string, check: Option<string>)
    | ReplaceBackend(name: string, check: Option<string>)
    | DeleteBackend(name: string)
    | CreateServer(backend: string, name: string, server: Server)
    | ReplaceServer(backend: string, name: string, server: Server)
    | DeleteServer(backend: string, name: string)
    | CreateFrontend(name: string, backend: string)
    | CreateBind(name: string, bind: Bind)
    | ReplaceFrontend(name: string, frontend: Frontend)
    | DeleteFrontend(name: string)

  function SetServers(c: Config, backend: string, servers: map<string, Server>): Config
    requires backend in c.backends
  {
    c.(backends := c.backends[backend := c.backends[backend].(servers := servers)])
  }

  function Do(d: Option<Config>, r: Request): Option<Config> {
    match d
    case None => None
    case Some(c) =>
      match r
      case CreateBackend(n, check) =>
        if n in c.backends then None else Some(c.(backends := c.backends[n := Backend(check, map[])]))
      case ReplaceBackend(n, check) =>
        if n in c.backends then Some(c.(backends := c.backends[n := c.backends[n].(check := check)])) else None
      case DeleteBackend(n) => if n in c.backends then Some(c.(backends := c.backends - {n})) else None
      case CreateServer(b, n, s) =>
        if b in c.backends && n !in c.backends[b].servers then
          Some(SetServers(c, b, c.backends[b].servers[n := s]))
        else None
      case ReplaceServer(b, n, s) =>
        if b in c.backends && n in c.backends[b].servers then
          Some(SetServers(c, b, c.backends[b].servers[n := s]))
        else None
      case DeleteServer(b, n) =>
        if b in c.backends && n in c.backends[b].servers then
          Some(SetServers(c, b, c.backends[b].servers - {n}))
        else None
      case CreateFrontend(n, b) =>
        if n in c.frontends then None else Some(c.(frontends := c.frontends[n := Frontend(b, None)]))
      case CreateBind(n, bind) =>
        if n in c.frontends && c.frontends[n].bind.None? then
          Some(c.(frontends := c.frontends[n := c.frontends[n].(bind := Some(bind))]))
        else None
      case ReplaceFrontend(n, f) =>
        if n in c.frontends then Some(c.(frontends := c.frontends[n := f])) else None
      case DeleteFrontend(n) => if n in c.frontends then Some(c.(frontends := c.frontends - {n})) else None
  }

  /** The health check of a backend: httpchk for http and https monitors, none otherwise. */
  function CheckOf(m: Monitor): Option<string> {
    if m.kind == "http" || m.kind == "https" then Some(m.path) else None
  }

  function Stamp(host: string, port: int, m: Monitor): Server {
    Server(host, port, m.port, m.kind == "https")
  }

  function Restamp(servers: map<string, Server>, m: Monitor): map<string, Server> {
    map n | n in servers :: Stamp(servers[n].host, servers[n].port, m)
  }

  function ServerKey(s: Server): Key {
    Key(s.host, s.port)
  }

  function ServerKeys(servers: map<string, Server>): set<Key> {
    set n | n in servers :: ServerKey(servers[n])
  }

  /** The servers as GetPoolMembers reports them, in the order of `names`. */
  function MemberList(names: seq<string>, servers: map<string, Server>): (ms: seq<PoolMember>)
    requires forall n :: n in names ==> n in servers
    ensures |ms| == |names|
    ensures forall i :: 0 <= i < |ms| ==>
              ms[i] == PoolMember(Node(names[i], servers[names[i]].host, map[]), servers[names[i]].port)
  {
    seq(|names|, i requires 0 <= i < |names| =>
      PoolMember(Node(names[i], servers[names[i]].host, map[]), servers[names[i]].port))
  }

  /** Creates a server for each member; refused as soon as a name is taken. */
  function AddServers(servers: map<string, Server>, ms: seq<PoolMember>, m: Monitor): Option<map<string, Server>>
    decreases |ms|
  {
    if ms == [] then Some(servers)
    else if ms[0].node.name in servers then None
    else AddServers(servers[ms[0].node.name := Stamp(ms[0].node.host, ms[0].port, m)], ms[1..], m)
  }

  /** The names of the servers that no wanted member asks for. */
  function Unwanted(servers: map<string, Server>, want: set<Key>): set<string> {
    set n | n in servers && ServerKey(servers[n]) !in want
  }

  const CHANGED := "changed"

  /** HandlePool without faults. */
  function PoolResult(d: Option<Config>, m: Monitor, p: Pool): Option<Config> {
    match d
    case None => None
    case Some(c) =>
      if p.name in c.backends then
        var was := c.backends[p.name];
        var base := if p.monitor != CHANGED then Backend(CheckOf(m), Restamp(was.servers, m)) else was;
        match AddServers(base.servers, Missing(p.members, ServerKeys(was.servers)), m)
        case None => None
        case Some(servers) =>
          Some(c.(backends := c.backends[p.name := base.(servers := servers - Unwanted(was.servers, Keys(p.members)))]))
      else
        match AddServers(map[], p.members, m)
        case None => None
        case Some(servers) => Some(c.(backends := c.backends[p.name := Backend(CheckOf(m), servers)]))
  }

  /** HandleVIP without faults. */
  function VipResult(d: Option<Config>, v: VIP): Option<Config> {
    match d
    case None => None
    case Some(c) =>
      var f := Frontend(v.pool, Some(Bind(v.ip, v.port)));
      if v.name in c.frontends && c.frontends[v.name].bind.None? then None
      else Some(c.(frontends := c.frontends[v.name := f]))
  }

  function PoolsResult(d: Option<Config>, m: Monitor, ps: seq<Pool>): Option<Config>
    decreases |ps|
  {
    if ps == [] then d else PoolsResult(PoolResult(d, m, ps[0]), m, ps[1..])
  }

  function VipsResult(d: Option<Config>, vs: seq<VIP>): Option<Config>
    decreases |vs|
  {
    if vs == [] then d else VipsResult(VipResult(d, vs[0]), vs[1..])
  }

  function ConfigureResult(c: Config, m: Monitor, ps: seq<Pool>, vs: seq<VIP>): Option<Config> {
    VipsResult(PoolsResult(Some(c), m, ps), vs)
  }

  function DropFrontends(d: Option<Config>, vs: seq<VIP>): Option<Config>
    decreases |vs|
  {
    if vs == [] then d else DropFrontends(Do(d, DeleteFrontend(vs[0].name)), vs[1..])
  }

  function DropServers(d: Option<Config>, backend: string, ms: seq<PoolMember>): Option<Config>
    decreases |ms|
  {
    if ms == [] then d else DropServers(Do(d, DeleteServer(backend, ms[0].node.name)), backend, ms[1..])
  }

  function DropAllServers(d: Option<Config>, ps: seq<Pool>): Option<Config>
    decreases |ps|
  {
    if ps == [] then d else DropAllServers(DropServers(d, ps[0].name, ps[0].members), ps[1..])
  }

  function DropBackends(d: Option<Config>, ps: seq<Pool>): Option<Config>
    decreases |ps|
  {
    if ps == [] then d else DropBackends(Do(d, DeleteBackend(ps[0].name)), ps[1..])
  }

  /** What a cleanup aims at: the frontends and backends gone, whatever their servers. */
  function CleanResult(c: Config, vs: seq<VIP>, ps: seq<Pool>): Option<Config> {
    DropBackends(DropFrontends(Some(c), vs), ps)
  }

  lemma {:induction false} NoneStays(m: Monitor, ps: seq<Pool>, vs: seq<VIP>)
    ensures PoolsResult(None, m, ps) == None && VipsResult(None, vs) == None
    ensures DropFrontends(None, vs) == None && DropBackends(None, ps) == None && DropAllServers(None, ps) == None
    decreases |ps| + |vs|
  {
    if ps != [] {
      NoneStays(m, ps[1..], vs);
      ServersNoneStays(ps[0].name, ps[0].members);
    } else if vs != [] {
      NoneStays(m, ps, vs[1..]);
    }
    if vs != [] { NoneStaysVips(vs); }
  }

  lemma {:induction false} NoneStaysVips(vs: seq<VIP>)
    ensures VipsResult(None, vs) == None && DropFrontends(None, vs) == None
  {
    if vs != [] { NoneStaysVips(vs[1..]); }
  }

  lemma {:induction false} ServersNoneStays(backend: string, ms: seq<PoolMember>)
    ensures DropServers(None, backend, ms) == None
  {
    if ms != [] { ServersNoneStays(backend, ms[1..]); }
  }

  // ---------- The members of a handled pool

  ghost predicate FreshNames(ms: seq<PoolMember>, servers: map<string, Server>) {
    && (forall i :: 0 <= i < |ms| ==> ms[i].node.name !in servers)
    && (forall i, j :: 0 <= i < j < |ms| ==> ms[i].node.name != ms[j].node.name)
  }

  /** Adding members goes through exactly if their names are new and differ; then each is there with
      the monitor's check, and nothing else has changed. */
  lemma {:induction false} AddServersIs(servers: map<string, Server>, ms: seq<PoolMember>, m: Monitor)
    ensures AddServers(servers, ms, m).Some? <==> FreshNames(ms, servers)
    ensures AddServers(servers, ms, m).Some? ==>
              var r := AddServers(servers, ms, m).value;
              && r.Keys == servers.Keys + (set x | x in ms :: x.node.name)
              && (forall n :: n in servers ==> r[n] == servers[n])
              && (forall x :: x in ms ==> r[x.node.name] == Stamp(x.node.host, x.port, m))
    decreases |ms|
  {
    if ms != [] {
      var x, rest := ms[0], ms[1..];
      var next := servers[x.node.name := Stamp(x.node.host, x.port, m)];
      AddServersIs(next, rest, m);
      if FreshNames(ms, servers) {
        forall i | 0 <= i < |rest| ensures rest[i].node.name !in next { assert rest[i] == ms[i + 1]; }
        forall i, j | 0 <= i < j < |rest| ensures rest[i].node.name != rest[j].node.name {
          assert rest[i] == ms[i + 1] && rest[j] == ms[j + 1];
        }
      }
      if x.node.name !in servers && FreshNames(rest, next) {
        forall i | 0 <= i < |ms| ensures ms[i].node.name !in servers {
          if i > 0 { assert ms[i] == rest[i - 1]; }
        }
        forall i, j | 0 <= i < j < |ms| ensures ms[i].node.name != ms[j].node.name {
          assert ms[j] == rest[j - 1];
          if i > 0 { assert ms[i] == rest[i - 1]; }
        }
        assert forall y :: y in ms <==> y == x || y in rest;
      }
    }
  }

  lemma {:induction false} MissingIs(ms: seq<PoolMember>, have: set<Key>, x: PoolMember)
    ensures x in Missing(ms, have) <==> x in ms && KeyOf(x) !in have
  {
    if ms != [] {
      MissingIs(ms[1..], have, x);
      assert x in ms <==> x == ms[0] || x in ms[1..];
    }
  }

  /** No member that has to be added bears the name of a configured server, or of another added
      member. */
  ghost predicate PoolFits(c: Config, p: Pool) {
    if p.name in c.backends then
      FreshNames(Missing(p.members, ServerKeys(c.backends[p.name].servers)), c.backends[p.name].servers)
    else FreshNames(p.members, map[])
  }

  /** That is exactly when a pool is handled without error. */
  lemma PoolSucceedsIff(c: Config, m: Monitor, p: Pool)
    ensures PoolResult(Some(c), m, p).Some? <==> PoolFits(c, p)
  {
    if p.name in c.backends {
      var was := c.backends[p.name].servers;
      var base := if p.monitor != CHANGED then Restamp(was, m) else was;
      var adds := Missing(p.members, ServerKeys(was));
      AddServersIs(base, adds, m);
      assert base.Keys == was.Keys;
      assert FreshNames(adds, base) <==> FreshNames(adds, was);
    } else {
      AddServersIs(map[], p.members, m);
    }
  }

  /** A node whose address changed while it was configured can therefore not be updated: its name is
      taken by its own old server. */
  lemma MovedNodeIsStuck(c: Config, m: Monitor, p: Pool, x: PoolMember)
    requires p.name in c.backends && x in p.members
    requires x.node.name in c.backends[p.name].servers
    requires KeyOf(x) !in ServerKeys(c.backends[p.name].servers)
    ensures PoolResult(Some(c), m, p).None?
  {
    var adds := Missing(p.members, ServerKeys(c.backends[p.name].servers));
    MissingIs(p.members, ServerKeys(c.backends[p.name].servers), x);
    var i :| 0 <= i < |adds| && adds[i] == x;
    PoolSucceedsIff(c, m, p);
  }

  /** The servers carry this monitor's check port and TLS setting. */
  predicate Checked(servers: map<string, Server>, m: Monitor) {
    forall n :: n in servers ==> servers[n].checkPort == m.port && (servers[n].checkSsl <==> m.kind == "https")
  }

  /** The backend of the pool exists, has exactly the wanted members, all checked by the monitor. */
  ghost predicate Serves(c: Config, m: Monitor, p: Pool) {
    && p.name in c.backends
    && ServerKeys(c.backends[p.name].servers) == Keys(p.members)
    && c.backends[p.name].check == (if m.kind == "http" || m.kind == "https" then Some(m.path) else None)
    && Checked(c.backends[p.name].servers, m)
  }

  lemma AddedKeys(base: map<string, Server>, adds: seq<PoolMember>, m: Monitor, drop: set<string>, want: set<Key>)
    requires AddServers(base, adds, m).Some?
    requires drop == Unwanted(base, want) && Keys(adds) == want - ServerKeys(base)
    ensures ServerKeys(AddServers(base, adds, m).value - drop) == want
    ensures Checked(base, m) ==> Checked(AddServers(base, adds, m).value - drop, m)
  {
    AddServersIs(base, adds, m);
    var all := AddServers(base, adds, m).value;
    var r := all - drop;
    forall n | n in r
      ensures ServerKey(r[n]) in want
      ensures Checked(base, m) ==> r[n].checkPort == m.port && (r[n].checkSsl <==> m.kind == "https")
    {
      if n !in base {
        var x :| x in adds && x.node.name == n;
        assert r[n] == Stamp(x.node.host, x.port, m) && ServerKey(r[n]) == KeyOf(x);
        assert KeyOf(x) in Keys(adds);
      } else {
        assert r[n] == base[n];
      }
    }
    forall k | k in want ensures k in ServerKeys(r) {
      if k in ServerKeys(base) {
        var n :| n in base && ServerKey(base[n]) == k;
        assert n in r && r[n] == base[n];
      } else {
        assert k in Keys(adds);
        var x :| x in adds && KeyOf(x) == k;
        assert x.node.name in r && ServerKey(r[x.node.name]) == k;
      }
    }
  }

  lemma RestampKeys(servers: map<string, Server>, m: Monitor, want: set<Key>)
    ensures ServerKeys(Restamp(servers, m)) == ServerKeys(servers)
    ensures Unwanted(Restamp(servers, m), want) == Unwanted(servers, want)
    ensures Checked(Restamp(servers, m), m)
  {
    var r := Restamp(servers, m);
    forall n | n in servers ensures ServerKey(r[n]) == ServerKey(servers[n]) {}
    forall k | k in ServerKeys(servers) ensures k in ServerKeys(r) {
      var n :| n in servers && ServerKey(servers[n]) == k;
      assert n in r;
    }
  }

  predicate SameBackend(c: Config, d: Config, n: string) {
    (n in c.backends <==> n in d.backends) && (n in c.backends ==> c.backends[n] == d.backends[n])
  }

  /** A handled pool has exactly the members its caller passed in, every server checked by the
      monitor that the provider holds, and no other backend is touched. */
  lemma PoolIsServed(c: Config, m: Monitor, p: Pool)
    requires p.monitor != CHANGED && PoolResult(Some(c), m, p).Some?
    ensures var r := PoolResult(Some(c), m, p).value;
            && Serves(r, m, p)
            && r.frontends == c.frontends
            && forall n :: n != p.name ==> SameBackend(c, r, n)
  {
    if p.name in c.backends {
      var was := c.backends[p.name].servers;
      RestampKeys(was, m, Keys(p.members));
      AddedKeys(Restamp(was, m), Missing(p.members, ServerKeys(was)), m, Unwanted(was, Keys(p.members)), Keys(p.members));
    } else {
      var none: map<string, Server> := map[];
      assert ServerKeys(none) == {} && Unwanted(none, Keys(p.members)) == {};
      AddedKeys(none, p.members, m, {}, Keys(p.members));
      var all := AddServers(none, p.members, m).value;
      assert all - {} == all;
    }
  }

  // ---------- The frontend of a handled VIP

  /** The frontend leads to the VIP's pool and listens on its address and port. */
  predicate Routes(c: Config, v: VIP) {
    v.name in c.frontends && c.frontends[v.name].backend == v.pool && c.frontends[v.name].bind == Some(Bind(v.ip, v.port))
  }

  ghost predicate ConsistentVips(vs: seq<VIP>) {
    forall u, v :: u in vs && v in vs && u.name == v.name ==> u == v
  }

  predicate SameFrontend(c: Config, d: Config, n: string) {
    (n in c.frontends <==> n in d.frontends) && (n in c.frontends ==> c.frontends[n] == d.frontends[n])
  }

  lemma {:induction false} OtherVipsFrame(c: Config, vs: seq<VIP>, n: string)
    requires VipsResult(Some(c), vs).Some? && forall v :: v in vs ==> v.name != n
    ensures SameFrontend(c, VipsResult(Some(c), vs).value, n)
    decreases |vs|
  {
    if vs != [] {
      NoneStaysVips(vs[1..]);
      assert vs[0] in vs;
      OtherVipsFrame(VipResult(Some(c), vs[0]).value, vs[1..], n);
    }
  }

  lemma {:induction false} VipsAreRouted(c: Config, vs: seq<VIP>, v: VIP)
    requires VipsResult(Some(c), vs).Some? && ConsistentVips(vs) && v in vs
    ensures Routes(VipsResult(Some(c), vs).value, v)
    decreases |vs|
  {
    var d, rest := VipResult(Some(c), vs[0]), vs[1..];
    NoneStaysVips(rest);
    assert forall u :: u in rest ==> u in vs;
    if v in rest {
      VipsAreRouted(d.value, rest, v);
    } else {
      assert v == vs[0] && forall u :: u in rest ==> u.name != v.name;
      OtherVipsFrame(d.value, rest, v.name);
    }
  }

  lemma {:induction false} VipsNeedDraft(m: Monitor, ps: seq<Pool>, vs: seq<VIP>, c: Config)
    requires ConfigureResult(c, m, ps, vs).Some?
    ensures PoolsResult(Some(c), m, ps).Some? && PoolsResult(Some(c), m, ps).value.frontends == c.frontends
    decreases |ps|
  {
    NoneStaysVips(vs);
    if ps != [] {
      NoneStays(m, ps[1..], vs);
      VipsNeedDraft(m, ps[1..], vs, PoolResult(Some(c), m, ps[0]).value);
    }
  }

  /** After an error-free configure phase every wanted VIP leads to its pool, and no other frontend has
      changed. */
  lemma ConfiguredVipsAreRouted(c: Config, m: Monitor, ps: seq<Pool>, vs: seq<VIP>)
    requires ConfigureResult(c, m, ps, vs).Some?
    ensures var r := ConfigureResult(c, m, ps, vs).value;
            && (ConsistentVips(vs) ==> forall v :: v in vs ==> Routes(r, v))
            && forall n :: (forall v :: v in vs ==> v.name != n) ==> SameFrontend(c, r, n)
  {
    VipsNeedDraft(m, ps, vs, c);
    var d := PoolsResult(Some(c), m, ps).value;
    var r := ConfigureResult(c, m, ps, vs).value;
    forall v | v in vs && ConsistentVips(vs) ensures Routes(r, v) { VipsAreRouted(d, vs, v); }
    forall n | forall v :: v in vs ==> v.name != n ensures SameFrontend(c, r, n) { OtherVipsFrame(d, vs, n); }
  }

  // ---------- A whole configure phase

  ghost predicate ConsistentPools(ps: seq<Pool>) {
    forall p, q :: p in ps && q in ps && p.name == q.name ==> p == q
  }

  lemma {:induction false} PoolsAreServed(c: Config, m: Monitor, ps: seq<Pool>, p: Pool)
    requires (forall q :: q in ps ==> q.monitor != CHANGED) && PoolsResult(Some(c), m, ps).Some?
    requires ConsistentPools(ps)
    requires p in ps || (Serves(c, m, p) && forall q :: q in ps ==> q.name != p.name)
    ensures Serves(PoolsResult(Some(c), m, ps).value, m, p)
    decreases |ps|
  {
    if ps != [] {
      var q, rest := ps[0], ps[1..];
      assert q in ps;
      var d := PoolResult(Some(c), m, q);
      NoneStays(m, rest, []);
      PoolIsServed(c, m, q);
      assert forall x :: x in rest ==> x in ps;
      if p !in rest {
        if p in ps {
          assert p == q;
          forall x | x in rest ensures x.name != p.name { assert x in ps; }
        }
      }
      PoolsAreServed(d.value, m, rest, p);
    }
  }

  lemma {:induction false} VipsLeaveBackends(c: Config, vs: seq<VIP>)
    requires VipsResult(Some(c), vs).Some?
    ensures VipsResult(Some(c), vs).value.backends == c.backends
    decreases |vs|
  {
    if vs != [] {
      NoneStaysVips(vs[1..]);
      VipsLeaveBackends(VipResult(Some(c), vs[0]).value, vs[1..]);
    }
  }

  /** Whatever monitor the provider held before, every server of every pool of a fully configured
      configuration is checked as this load balancer's own monitor says. */
  lemma ConfiguredServersAreChecked(c: Config, m: Monitor, ps: seq<Pool>, vs: seq<VIP>, p: Pool)
    requires ConfigureResult(c, m, ps, vs).Some? && ConsistentPools(ps)
    requires p in ps && forall q :: q in ps ==> q.monitor != CHANGED
    ensures Serves(ConfigureResult(c, m, ps, vs).value, m, p)
  {
    var d := PoolsResult(Some(c), m, ps);
    NoneStaysVips(vs);
    PoolsAreServed(c, m, ps, p);
    VipsLeaveBackends(d.value, vs);
  }
}
