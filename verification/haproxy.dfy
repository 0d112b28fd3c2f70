/** The HAProxy provider: every change goes to a draft, only Close makes a draft the running
    configuration, and every error throws the draft away
    (internal/controller/backend/haproxy/haproxy_controller.go). */
module HAProxy {
  import opened Types
  import opened Devices
  import opened HAProxyConfig
  import opened HAProxyTeardown
  import opened HAProxyRuns
  import Handlers

  /** A pool as the handlers pass it around: by reference. */
  class PoolObject {
    const name: string
    const monitor: string
    var members: seq<PoolMember>

    constructor (name: string, monitor: string, members: seq<PoolMember>)
      ensures this.name == name && this.monitor == monitor && this.members == members
    {
      this.name, this.monitor, this.members := name, monitor, members;
    }

    function Value(): Pool
      reads this
    {
      Pool(name, members, monitor)
    }
  }

  /** What an operation promises: without error the draft is the wanted one, and when nothing fails
      from outside, an error means that no draft is wanted. */
  predicate Delivers(want: Option<Config>, draft: Option<Config>, ok: bool, clear: bool) {
    (ok ==> want.Some? && draft == want) && (clear ==> (ok <==> want.Some?))
  }

  // ---------- Draft-level meaning of the member loops

  function EditResult(d: Option<Config>, m: Monitor, pool: string): Option<Config> {
    match d
    case None => None
    case Some(c) =>
      if pool in c.backends then
        Some(c.(backends := c.backends[pool := Backend(CheckOf(m), Restamp(c.backends[pool].servers, m))]))
      else None
  }

  function AddTo(d: Option<Config>, pool: string, ms: seq<PoolMember>, m: Monitor): Option<Config>
    decreases |ms|
  {
    if ms == [] then d
    else AddTo(Do(d, CreateServer(pool, ms[0].node.name, Stamp(ms[0].node.host, ms[0].port, m))), pool, ms[1..], m)
  }

  lemma {:induction false} AddToIs(d: Option<Config>, pool: string, ms: seq<PoolMember>, m: Monitor)
    requires d.Some? ==> pool in d.value.backends
    ensures AddTo(d, pool, ms, m)
            == if d.None? then None
               else match AddServers(d.value.backends[pool].servers, ms, m)
                 case None => None
                 case Some(servers) => Some(SetServers(d.value, pool, servers))
    decreases |ms|
  {
    if ms == [] {
      if d.Some? {
        assert d.value.backends[pool := d.value.backends[pool]] == d.value.backends;
      }
    } else {
      var e := Do(d, CreateServer(pool, ms[0].node.name, Stamp(ms[0].node.host, ms[0].port, m)));
      AddToIs(e, pool, ms[1..], m);
      if e.Some? {
        match AddServers(e.value.backends[pool].servers, ms[1..], m)
        case None =>
        case Some(servers) => assert SetServers(e.value, pool, servers) == SetServers(d.value, pool, servers);
      }
    }
  }

  lemma {:induction false} MissingKeepsDistinct(ms: seq<PoolMember>, have: set<Key>)
    requires DistinctNames(ms)
    ensures DistinctNames(Missing(ms, have))
  {
    if ms != [] {
      var rest := Missing(ms[1..], have);
      MissingKeepsDistinct(ms[1..], have);
      forall x | x in rest ensures x.node.name != ms[0].node.name {
        var j :| 0 <= j < |ms[1..]| && ms[1..][j] == x;
        assert ms[j + 1] == x;
      }
    }
  }

  /** The members that HandlePool deletes are those of the unwanted servers. */
  lemma DroppedNames(names: seq<string>, servers: map<string, Server>, want: set<Key>)
    requires OrdersNames(names, servers.Keys)
    ensures var dels := Missing(MemberList(names, servers), want);
            DistinctNames(dels) && NamesOf(dels) == Unwanted(servers, want)
  {
    var listed := MemberList(names, servers);
    var dels := Missing(listed, want);
    MemberListIs(names, servers);
    MissingKeepsDistinct(listed, want);
    forall x | x in dels ensures x.node.name in Unwanted(servers, want) {
      MissingIs(listed, want, x);
    }
    forall n | n in Unwanted(servers, want) ensures n in NamesOf(dels) {
      var i :| 0 <= i < |names| && names[i] == n;
      MissingIs(listed, want, listed[i]);
      assert listed[i] in dels;
    }
  }

  lemma AddDropIs(e: Config, pool: string, adds: seq<PoolMember>, dels: seq<PoolMember>, m: Monitor)
    requires pool in e.backends && DistinctNames(dels) && NamesOf(dels) <= e.backends[pool].servers.Keys
    ensures DropServers(AddTo(Some(e), pool, adds, m), pool, dels)
            == match AddServers(e.backends[pool].servers, adds, m)
               case None => None
               case Some(all) => Some(SetServers(e, pool, all - NamesOf(dels)))
  {
    AddToIs(Some(e), pool, adds, m);
    ServersNoneStays(pool, dels);
    AddServersIs(e.backends[pool].servers, adds, m);
    match AddServers(e.backends[pool].servers, adds, m)
    case None =>
    case Some(all) =>
      var added := SetServers(e, pool, all);
      DropServersIs(added, pool, dels);
      assert SetServers(added, pool, all - NamesOf(dels)) == SetServers(e, pool, all - NamesOf(dels));
  }

  /** Editing, adding and dropping one after the other is what PoolResult says. */
  lemma UpdateIsPoolResult(c: Config, m: Monitor, p: Pool, names: seq<string>)
    requires p.name in c.backends && OrdersNames(names, c.backends[p.name].servers.Keys)
    ensures var servers := c.backends[p.name].servers;
            var listed := MemberList(names, servers);
            var edited := if p.monitor != CHANGED then EditResult(Some(c), m, p.name) else Some(c);
            var added := AddTo(edited, p.name, Missing(p.members, Keys(listed)), m);
            DropServers(added, p.name, Missing(listed, Keys(p.members))) == PoolResult(Some(c), m, p)
  {
    var servers := c.backends[p.name].servers;
    var listed := MemberList(names, servers);
    MemberListIs(names, servers);
    DroppedNames(names, servers, Keys(p.members));
    var e := if p.monitor != CHANGED then EditResult(Some(c), m, p.name).value else c;
    var adds, dels := Missing(p.members, Keys(listed)), Missing(listed, Keys(p.members));
    assert e.backends[p.name].servers.Keys == servers.Keys;
    AddDropIs(e, p.name, adds, dels, m);
    match AddServers(e.backends[p.name].servers, adds, m)
    case None =>
    case Some(all) => SetTwice(c, e, p.name, all - NamesOf(dels));
  }

  lemma SetTwice(c: Config, e: Config, pool: string, servers: map<string, Server>)
    requires pool in e.backends && e == c.(backends := e.backends)
    requires e.backends == c.backends[pool := e.backends[pool]]
    ensures SetServers(e, pool, servers)
            == c.(backends := c.backends[pool := e.backends[pool].(servers := servers)])
  {
  }

  function EditAll(d: Option<Config>, pool: string, ms: seq<PoolMember>, m: Monitor): Option<Config>
    decreases |ms|
  {
    if ms == [] then d
    else EditAll(Do(d, ReplaceServer(pool, ms[0].node.name, Stamp(ms[0].node.host, ms[0].port, m))), pool, ms[1..], m)
  }

  lemma {:induction false} EditNoneStays(pool: string, ms: seq<PoolMember>, m: Monitor)
    ensures EditAll(None, pool, ms, m) == None
  {
    if ms != [] { EditNoneStays(pool, ms[1..], m); }
  }

  /** The servers after those in `names` were edited. */
  function Stamped(servers: map<string, Server>, names: set<string>, m: Monitor): map<string, Server> {
    map n | n in servers :: if n in names then Stamp(servers[n].host, servers[n].port, m) else servers[n]
  }

  lemma StampedNext(servers: map<string, Server>, x: string, names: set<string>, m: Monitor)
    requires x in servers && x !in names
    ensures Stamped(servers[x := Stamp(servers[x].host, servers[x].port, m)], names, m)
            == Stamped(servers, {x} + names, m)
  {
  }

  lemma SetServersTwice(c: Config, pool: string, s: map<string, Server>, t: map<string, Server>)
    requires pool in c.backends
    ensures SetServers(SetServers(c, pool, s), pool, t) == SetServers(c, pool, t)
  {
    assert SetServers(SetServers(c, pool, s), pool, t).backends == SetServers(c, pool, t).backends;
  }

  /** Editing every listed server stamps each of them. */
  lemma {:induction false} EditAllIs(c: Config, pool: string, ms: seq<PoolMember>, m: Monitor)
    requires pool in c.backends && DistinctNames(ms)
    requires forall x :: x in ms ==> x.node.name in c.backends[pool].servers
                                     && KeyOf(x) == ServerKey(c.backends[pool].servers[x.node.name])
    ensures EditAll(Some(c), pool, ms, m)
            == Some(SetServers(c, pool, Stamped(c.backends[pool].servers, NamesOf(ms), m)))
    decreases |ms|
  {
    var servers := c.backends[pool].servers;
    if ms == [] {
      assert Stamped(servers, NamesOf(ms), m) == servers;
      assert c.backends[pool := c.backends[pool]] == c.backends;
    } else {
      var x, rest := ms[0], ms[1..];
      assert x in ms;
      var next := servers[x.node.name := Stamp(x.node.host, x.port, m)];
      forall y | y in rest ensures y in ms && y.node.name != x.node.name {
        var j :| 0 <= j < |rest| && rest[j] == y;
        assert ms[j + 1] == y;
      }
      EditAllIs(SetServers(c, pool, next), pool, rest, m);
      assert NamesOf(ms) == {x.node.name} + NamesOf(rest) by {
        assert forall y :: y in ms <==> y == x || y in rest;
      }
      StampedNext(servers, x.node.name, NamesOf(rest), m);
      SetServersTwice(c, pool, next, Stamped(servers, NamesOf(ms), m));
    }
  }

  lemma EditReportedIs(c: Config, pool: string, names: seq<string>, m: Monitor)
    requires pool in c.backends && OrdersNames(names, c.backends[pool].servers.Keys)
    ensures EditAll(Do(Some(c), ReplaceBackend(pool, CheckOf(m))), pool, MemberList(names, c.backends[pool].servers), m)
            == EditResult(Some(c), m, pool)
  {
    var servers := c.backends[pool].servers;
    var ms := MemberList(names, servers);
    var e := Do(Some(c), ReplaceBackend(pool, CheckOf(m))).value;
    MemberListIs(names, servers);
    forall n | n in servers ensures n in NamesOf(ms) {
      var i :| 0 <= i < |names| && names[i] == n;
      assert ms[i] in ms;
    }
    EditAllIs(e, pool, ms, m);
    assert Restamp(servers, m) == Stamped(servers, NamesOf(ms), m);
    SetTwice(c, e, pool, Restamp(servers, m));
  }

  lemma CreatedIsPoolResult(c: Config, m: Monitor, p: Pool)
    requires p.name !in c.backends
    ensures AddTo(Do(Some(c), CreateBackend(p.name, CheckOf(m))), p.name, p.members, m) == PoolResult(Some(c), m, p)
  {
    var d := Do(Some(c), CreateBackend(p.name, CheckOf(m)));
    AddToIs(d, p.name, p.members, m);
    match AddServers(map[], p.members, m)
    case None =>
    case Some(servers) =>
      assert SetServers(d.value, p.name, servers).backends == PoolResult(Some(c), m, p).value.backends;
  }

  // ---------- The provider

  class HAProxyProvider {
    const fault: nat -> Fault
    const order: (nat, set<string>) -> seq<string>
    var clock: nat
    var committed: Config
    var drafts: map<nat, Config>
    var nextId: nat
    var transaction: nat
    var monitor: Monitor
    ghost var commits: seq<Config>

    ghost predicate Valid()
      reads this
    {
      && (forall c, s :: OrdersNames(order(c, s), s))
      && (forall t :: t in drafts ==> t < nextId)
      && commits != [] && commits[|commits| - 1] == committed
    }

    /** The draft of the provider's own transaction, if that is still open. */
    function Draft(): Option<Config>
      reads this
    {
      if transaction in drafts then Some(drafts[transaction]) else None
    }

    /** No request fails from outside from now on. */
    ghost predicate Clear()
      reads this
    {
      forall c: nat :: clock <= c ==> fault(c) == NoFault
    }

    /** What every operation but Connect and Close leaves alone: the running configuration above all. */
    twostate predicate Keeps()
      reads this
    {
      && old(Valid()) && Valid() && old(clock) <= clock
      && committed == old(committed) && commits == old(commits) && transaction == old(transaction)
    }

    constructor (fault: nat -> Fault, order: (nat, set<string>) -> seq<string>, running: Config, monitor: Monitor)
      requires forall c, s :: OrdersNames(order(c, s), s)
      ensures Valid() && committed == running && commits == [running] && this.monitor == monitor
    {
      this.fault, this.order := fault, order;
      clock, committed, drafts, nextId, transaction := 0, running, map[], 1, 0;
      this.monitor := monitor;
      commits := [running];
    }

    method CloseError() returns (ok: bool)
      requires Valid()
      modifies this
      ensures Keeps() && monitor == old(monitor)
      ensures Draft() == None || Draft() == old(Draft())
      ensures old(Clear()) ==> Draft() == None
    {
      var f := fault(clock);
      clock := clock + 1;
      ok := f == NoFault && transaction in drafts;
      if f != FailBefore {
        drafts := drafts - {transaction};
      }
    }

    /** A request that changes the draft; an error throws the draft away. */
    method Change(r: Request) returns (ok: bool)
      requires Valid()
      modifies this
      ensures Keeps() && monitor == old(monitor)
      ensures Delivers(Do(old(Draft()), r), Draft(), ok, old(Clear()))
      ensures Draft() == None || Draft() == old(Draft()) || Draft() == Do(old(Draft()), r)
      ensures old(Clear()) ==> Draft() == Do(old(Draft()), r)
    {
      var f := fault(clock);
      clock := clock + 1;
      var after := Do(Draft(), r);
      if f != FailBefore && after.Some? {
        drafts := drafts[transaction := after.value];
        if f == NoFault {
          return true;
        }
      }
      var _ := CloseError();
      return false;
    }

    /** A request that only reads the draft. */
    method Inquire() returns (ok: bool)
      requires Valid()
      modifies this
      ensures Keeps() && monitor == old(monitor)
      ensures Delivers(old(Draft()), Draft(), ok, old(Clear()))
    {
      var f := fault(clock);
      clock := clock + 1;
      if f == NoFault && Draft().Some? {
        return true;
      }
      var _ := CloseError();
      return false;
    }

    method Connect() returns (ok: bool)
      requires Valid()
      modifies this
      ensures Valid() && old(clock) <= clock && monitor == old(monitor)
      ensures committed == old(committed) && commits == old(commits)
      ensures Delivers(Some(committed), Draft(), ok, old(Clear()))
    {
      var sites := fault(clock);
      clock := clock + 1;
      if sites != NoFault {
        return false;
      }
      var started := fault(clock);
      clock := clock + 1;
      if started != FailBefore {
        drafts := drafts[nextId := committed];
        nextId := nextId + 1;
      }
      if started != NoFault {
        var _ := CloseError();
        return false;
      }
      transaction := nextId - 1;
      return true;
    }

    /** Commits the draft. */
    method Close() returns (ok: bool)
      requires Valid()
      modifies this
      ensures Valid() && old(clock) <= clock && monitor == old(monitor)
      ensures commits == old(commits)
              || (old(Draft()).Some? && commits == old(commits) + [old(Draft()).value])
      ensures Delivers(old(Draft()), Some(committed), ok, old(Clear()))
      ensures ok ==> commits == old(commits) + [committed]
    {
      var f := fault(clock);
      clock := clock + 1;
      if f != FailBefore && transaction in drafts {
        committed := drafts[transaction];
        commits := commits + [committed];
        drafts := drafts - {transaction};
        if f == NoFault {
          return true;
        }
      }
      var _ := CloseError();
      return false;
    }

    // Monitors live in the provider object only.

    /** Always answers with an empty monitor, to force an update. */
    method GetMonitor(m: Monitor) returns (found: Monitor)
      ensures found == Monitor("", "", 0, "")
    {
      found := Monitor("", "", 0, "");
    }

    /** HandleMonitors on this provider. */
    method HandleMonitors(m: Monitor)
      requires Valid()
      modifies this`monitor
      ensures Valid()
      ensures monitor == if m.port != 0 || m.path != "" || m.kind != "" then m else old(monitor)
    {
      var found := GetMonitor(m);
      if m.port != found.port || m.path != found.path || m.kind != found.kind {
        monitor := m;
      }
    }

    /** A new object: the name, no members, and a monitor name that forces an edit. */
    method GetPool(pool: PoolObject) returns (p: PoolObject?, ok: bool)
      requires Valid()
      modifies this
      ensures Keeps() && monitor == old(monitor)
      ensures Delivers(old(Draft()), Draft(), ok, old(Clear()))
      ensures p != null ==> fresh(p) && p.name == pool.name && p.monitor == CHANGED
      ensures ok ==> (p != null <==> pool.name in Draft().value.backends)
    {
      p := null;
      ok := Inquire();
      if ok && pool.name in drafts[transaction].backends {
        p := new PoolObject(pool.name, CHANGED, []);
      }
    }

    function ReportedBy(d: Option<Config>, pool: string): Option<Config> {
      if d.Some? && pool in d.value.backends then d else None
    }

    /** Overwrites the members of the object it is given. */
    method GetPoolMembers(pool: PoolObject) returns (ok: bool)
      requires Valid()
      modifies this, pool`members
      ensures Keeps() && monitor == old(monitor)
      ensures Delivers(ReportedBy(old(Draft()), pool.name), Draft(), ok, old(Clear()))
      ensures ok ==> var servers := Draft().value.backends[pool.name].servers;
                     exists names :: OrdersNames(names, servers.Keys) && pool.members == MemberList(names, servers)
      ensures !ok ==> pool.members == old(pool.members)
    {
      var now := clock;
      ok := Inquire();
      if ok {
        if pool.name in drafts[transaction].backends {
          var servers := drafts[transaction].backends[pool.name].servers;
          var names := order(now, servers.Keys);
          pool.members := MemberList(names, servers);
        } else {
          var _ := CloseError();
          ok := false;
        }
      }
    }

    method EditPoolMember(m: PoolMember, pool: string) returns (ok: bool)
      requires Valid()
      modifies this
      ensures Keeps() && monitor == old(monitor)
      ensures Delivers(Do(old(Draft()), ReplaceServer(pool, m.node.name, Stamp(m.node.host, m.port, monitor))),
                       Draft(), ok, old(Clear()))
    {
      ok := Change(ReplaceServer(pool, m.node.name, Stamp(m.node.host, m.port, monitor)));
    }

    /** Replaces the backend's settings, then re-reads its members into the caller's pool and sets the
        check of each server anew. */
    method EditPool(pool: PoolObject) returns (ok: bool)
      requires Valid()
      modifies this, pool`members
      ensures Keeps() && monitor == old(monitor)
      ensures Delivers(EditResult(old(Draft()), monitor, pool.name), Draft(), ok, old(Clear()))
      ensures ok ==> Reports(pool.members, old(Draft()).value.backends[pool.name].servers)
    {
      ghost var was := Draft();
      ok := Change(ReplaceBackend(pool.name, CheckOf(monitor)));
      if !ok {
        return;
      }
      ok := GetPoolMembers(pool);
      if !ok {
        return;
      }
      ghost var servers := was.value.backends[pool.name].servers;
      assert Draft().value.backends[pool.name].servers == servers;
      ghost var names :| OrdersNames(names, servers.Keys) && pool.members == MemberList(names, servers);
      EditReportedIs(was.value, pool.name, names, monitor);
      ok := EditMembers(pool.name, pool.members);
    }

    method EditMembers(pool: string, ms: seq<PoolMember>) returns (ok: bool)
      requires Valid() && Draft().Some?
      modifies this
      ensures Keeps() && monitor == old(monitor)
      ensures Delivers(EditAll(old(Draft()), pool, ms, monitor), Draft(), ok, old(Clear()))
    {
      ghost var all := EditAll(Draft(), pool, ms, monitor);
      for i := 0 to |ms|
        invariant Valid() && old(clock) <= clock && monitor == old(monitor)
        invariant committed == old(committed) && commits == old(commits) && transaction == old(transaction)
        invariant Draft().Some? && all == EditAll(Draft(), pool, ms[i..], monitor)
      {
        assert ms[i..][0] == ms[i] && ms[i..][1..] == ms[i + 1..];
        ok := EditPoolMember(ms[i], pool);
        if !ok {
          EditNoneStays(pool, ms[i + 1..], monitor);
          return;
        }
      }
      assert ms[|ms|..] == [];
      ok := true;
    }

    method CreateMembers(pool: string, ms: seq<PoolMember>) returns (ok: bool)
      requires Valid() && Draft().Some?
      modifies this
      ensures Keeps() && monitor == old(monitor)
      ensures Delivers(AddTo(old(Draft()), pool, ms, monitor), Draft(), ok, old(Clear()))
    {
      ghost var all := AddTo(Draft(), pool, ms, monitor);
      for i := 0 to |ms|
        invariant Valid() && old(clock) <= clock && monitor == old(monitor)
        invariant committed == old(committed) && commits == old(commits) && transaction == old(transaction)
        invariant Draft().Some? && all == AddTo(Draft(), pool, ms[i..], monitor)
      {
        assert ms[i..][0] == ms[i] && ms[i..][1..] == ms[i + 1..];
        ok := Change(CreateServer(pool, ms[i].node.name, Stamp(ms[i].node.host, ms[i].port, monitor)));
        if !ok {
          AddNoneStays(pool, ms[i + 1..], monitor);
          return;
        }
      }
      assert ms[|ms|..] == [];
      ok := true;
    }

    method DeleteMembers(pool: string, ms: seq<PoolMember>) returns (ok: bool)
      requires Valid() && Draft().Some?
      modifies this
      ensures Keeps() && monitor == old(monitor)
      ensures Delivers(DropServers(old(Draft()), pool, ms), Draft(), ok, old(Clear()))
    {
      ghost var all := DropServers(Draft(), pool, ms);
      for i := 0 to |ms|
        invariant Valid() && old(clock) <= clock && monitor == old(monitor)
        invariant committed == old(committed) && commits == old(commits) && transaction == old(transaction)
        invariant Draft().Some? && all == DropServers(Draft(), pool, ms[i..])
      {
        assert ms[i..][0] == ms[i] && ms[i..][1..] == ms[i + 1..];
        ok := Change(DeleteServer(pool, ms[i].node.name));
        if !ok {
          ServersNoneStays(pool, ms[i + 1..]);
          return;
        }
      }
      assert ms[|ms|..] == [];
      ok := true;
    }

    /** HandlePool of the backend controller, with the caller's pool by reference. */
    method HandlePool(pool: PoolObject) returns (ok: bool)
      requires Valid()
      modifies this, pool`members
      ensures Keeps() && monitor == old(monitor)
      ensures Delivers(PoolResult(old(Draft()), monitor, old(pool.Value())), Draft(), ok, old(Clear()))
      ensures ok && pool.monitor != CHANGED && pool.name in old(Draft()).value.backends ==>
                Reports(pool.members, old(Draft()).value.backends[pool.name].servers)
      ensures ok && pool.name !in old(Draft()).value.backends ==> pool.members == old(pool.members)
      ensures ok && pool.monitor != CHANGED ==> Draft().Some? && Serves(Draft().value, monitor, old(pool.Value()))
    {
      if Draft().Some? && pool.monitor != CHANGED && PoolResult(Draft(), monitor, pool.Value()).Some? {
        PoolIsServed(Draft().value, monitor, pool.Value());
      }
      var p;
      p, ok := GetPool(pool);
      if !ok {
        return;
      }
      if p != null {
        ok := GetPoolMembers(p);
        if !ok {
          return;
        }
        ok := UpdatePool(pool, p.members);
        return;
      }
      ok := CreateFilledPool(pool);
    }

    /** The pool exists and its members are listed: edit, add, remove. */
    method UpdatePool(pool: PoolObject, listed: seq<PoolMember>) returns (ok: bool)
      requires Valid() && Draft().Some? && pool.name in Draft().value.backends
      requires Reports(listed, Draft().value.backends[pool.name].servers)
      modifies this, pool`members
      ensures Keeps() && monitor == old(monitor)
      ensures Delivers(PoolResult(old(Draft()), monitor, old(pool.Value())), Draft(), ok, old(Clear()))
      ensures ok && pool.monitor != CHANGED ==>
                Reports(pool.members, old(Draft()).value.backends[pool.name].servers)
    {
      ghost var c, p := Draft().value, pool.Value();
      ghost var names :| OrdersNames(names, c.backends[pool.name].servers.Keys)
                         && listed == MemberList(names, c.backends[pool.name].servers);
      UpdateIsPoolResult(c, monitor, p, names);
      var addMembers := Handlers.Lacking(pool.members, listed);
      var delMembers := Handlers.Lacking(listed, pool.members);
      if pool.monitor != CHANGED {
        ok := EditPool(pool);
        if !ok {
          return;
        }
      }
      ServersNoneStays(pool.name, delMembers);
      ok := CreateMembers(pool.name, addMembers);
      if !ok {
        return;
      }
      ok := DeleteMembers(pool.name, delMembers);
    }

    method CreateFilledPool(pool: PoolObject) returns (ok: bool)
      requires Valid() && Draft().Some? && pool.name !in Draft().value.backends
      modifies this
      ensures Keeps() && monitor == old(monitor)
      ensures Delivers(PoolResult(old(Draft()), monitor, pool.Value()), Draft(), ok, old(Clear()))
    {
      ghost var c := Draft().value;
      ok := Change(CreateBackend(pool.name, CheckOf(monitor)));
      if !ok {
        return;
      }
      CreatedIsPoolResult(c, monitor, pool.Value());
      ok := CreateMembers(pool.name, pool.members);
    }

    method HandleVip(v: VIP) returns (ok: bool)
      requires Valid()
      modifies this
      ensures Keeps() && monitor == old(monitor)
      ensures Delivers(VipResult(old(Draft()), v), Draft(), ok, old(Clear()))
    {
      ghost var d := Draft();
      ok := Inquire();
      if !ok {
        return;
      }
      var c := drafts[transaction];
      if v.name in c.frontends {
        var f := c.frontends[v.name];
        ok := Inquire();
        if !ok {
          return;
        }
        if f.bind.None? {
          var _ := CloseError();
          return false;
        }
        if v.port != f.bind.value.port || v.ip != f.bind.value.ip || v.pool != f.backend {
          ok := Change(ReplaceFrontend(v.name, Frontend(v.pool, Some(Bind(v.ip, v.port)))));
        } else {
          assert c.frontends[v.name := Frontend(v.pool, Some(Bind(v.ip, v.port)))] == c.frontends;
        }
        return;
      }
      ok := Change(CreateFrontend(v.name, v.pool));
      if !ok {
        return;
      }
      assert c.frontends[v.name := Frontend(v.pool, None)][v.name := Frontend(v.pool, Some(Bind(v.ip, v.port)))]
          == c.frontends[v.name := Frontend(v.pool, Some(Bind(v.ip, v.port)))];
      ok := Change(CreateBind(v.name, Bind(v.ip, v.port)));
    }

    // ---------- Phases

    /** One pool of the phase: handled through an object of its own, which then goes into the status. */
    method HandleOne(p: Pool) returns (told: Pool, ok: bool)
      requires Valid() && Draft().Some?
      modifies this
      ensures Keeps() && monitor == old(monitor)
      ensures told.name == p.name && told.monitor == p.monitor
      ensures ok && p.monitor != CHANGED ==> Told(old(Draft()).value, p, told)
      ensures Delivers(PoolResult(old(Draft()), monitor, p), Draft(), ok, old(Clear()))
    {
      var pool := new PoolObject(p.name, p.monitor, p.members);
      ok := HandlePool(pool);
      told := pool.Value();
    }

    /** The pools of one phase; what their objects hold afterwards becomes the status. */
    method HandlePools(want: seq<Pool>) returns (status: seq<Pool>, ok: bool)
      requires Valid() && Draft().Some?
      modifies this
      ensures Keeps() && monitor == old(monitor)
      ensures ok ==> SameNames(status, want)
      ensures ok && DistinctPools(want) && NoneForced(want) ==> AllTold(old(Draft()).value, want, status)
      ensures Delivers(PoolsResult(old(Draft()), monitor, want), Draft(), ok, old(Clear()))
    {
      status := [];
      ghost var c, apart := Draft().value, DistinctPools(want) && NoneForced(want);
      ghost var all := PoolsResult(Draft(), monitor, want);
      for i := 0 to |want|
        invariant Valid() && old(clock) <= clock && monitor == old(monitor)
        invariant committed == old(committed) && commits == old(commits) && transaction == old(transaction)
        invariant Draft().Some? && all == PoolsResult(Draft(), monitor, want[i..])
        invariant SameNames(status, want[..i])
        invariant apart ==> ToldSoFar(c, Draft().value, want, status, i)
      {
        assert want[i..][0] == want[i] && want[i..][1..] == want[i + 1..];
        assert want[i] in want;
        var told;
        ghost var d := Draft().value;
        told, ok := HandleOne(want[i]);
        if !ok {
          NoneStays(monitor, want[i + 1..], []);
          return;
        }
        if apart { ToldNext(c, d, monitor, want, status, i, told); }
        SameNamesNext(status, want, i, told);
        status := status + [told];
      }
      assert want[|want|..] == [];
      ok := true;
    }

    method HandleVips(want: seq<VIP>) returns (ok: bool)
      requires Valid() && Draft().Some?
      modifies this
      ensures Keeps() && monitor == old(monitor)
      ensures Delivers(VipsResult(old(Draft()), want), Draft(), ok, old(Clear()))
    {
      ghost var all := VipsResult(Draft(), want);
      for i := 0 to |want|
        invariant Valid() && old(clock) <= clock && monitor == old(monitor)
        invariant committed == old(committed) && commits == old(commits) && transaction == old(transaction)
        invariant Draft().Some? && all == VipsResult(Draft(), want[i..])
      {
        assert want[i..][0] == want[i] && want[i..][1..] == want[i + 1..];
        ok := HandleVip(want[i]);
        if !ok {
          NoneStaysVips(want[i + 1..]);
          return;
        }
      }
      assert want[|want|..] == [];
      ok := true;
    }

    /** A configure phase commits nothing, or the fully configured configuration. */
    method ConfigurePhase(m: Monitor, pools: seq<Pool>, vips: seq<VIP>) returns (status: seq<Pool>, ok: bool)
      requires Valid() && m.port >= 1
      modifies this
      ensures Valid() && old(clock) <= clock && (ok ==> SameNames(status, pools))
      ensures ok && DistinctPools(pools) && NoneForced(pools) ==> AllTold(old(committed), pools, status)
      ensures var want := ConfigureResult(old(committed), m, pools, vips);
              && (commits == old(commits) || (want.Some? && commits == old(commits) + [want.value]))
              && (ok ==> want.Some? && commits == old(commits) + [want.value] && committed == want.value)
              && (old(Clear()) ==> (ok <==> want.Some?))
      ensures ok ==> OthersSame(old(committed), committed, Job(m, pools, vips, false))
                     && (ConsistentVips(vips) ==> forall v :: v in vips ==> Routes(committed, v))
                     && (ConsistentPools(pools) && NoneForced(pools) ==> forall p :: p in pools ==> Serves(committed, m, p))
    {
      PhaseResult(committed, m, pools, vips);
      status := [];
      ok := Connect();
      if !ok {
        return;
      }
      HandleMonitors(m);
      NoneStaysVips(vips);
      status, ok := HandlePools(pools);
      if !ok {
        return;
      }
      ok := HandleVips(vips);
      if !ok {
        return;
      }
      ok := Close();
    }

    method DeleteVips(vips: seq<VIP>) returns (ok: bool)
      requires Valid() && Draft().Some?
      modifies this
      ensures Keeps() && monitor == old(monitor)
      ensures Delivers(DropFrontends(old(Draft()), vips), Draft(), ok, old(Clear()))
    {
      ghost var all := DropFrontends(Draft(), vips);
      for i := 0 to |vips|
        invariant Valid() && old(clock) <= clock && monitor == old(monitor)
        invariant committed == old(committed) && commits == old(commits) && transaction == old(transaction)
        invariant Draft().Some? && all == DropFrontends(Draft(), vips[i..])
      {
        assert vips[i..][0] == vips[i] && vips[i..][1..] == vips[i + 1..];
        ok := Change(DeleteFrontend(vips[i].name));
        if !ok {
          NoneStaysVips(vips[i + 1..]);
          return;
        }
      }
      assert vips[|vips|..] == [];
      ok := true;
    }

    /** Errors of the member deletions are ignored by the caller, yet each of them throws the draft
        away. */
    method DropMembers(pools: seq<Pool>)
      requires Valid() && Draft().Some?
      modifies this
      ensures Keeps() && monitor == old(monitor)
      ensures Draft().Some? ==> Thinned(old(Draft()).value, Draft().value, pools)
      ensures old(Clear()) ==> Draft() == DropAllServers(old(Draft()), pools)
      ensures pools == [] ==> Draft() == old(Draft())
    {
      ghost var c := Draft().value;
      ghost var all := DropAllServers(Draft(), pools);
      for i := 0 to |pools|
        invariant Valid() && old(clock) <= clock && monitor == old(monitor)
        invariant committed == old(committed) && commits == old(commits) && transaction == old(transaction)
        invariant Draft().Some? ==> Thinned(c, Draft().value, pools)
        invariant old(Clear()) ==> all == DropAllServers(Draft(), pools[i..])
        invariant i == 0 ==> Draft() == old(Draft())
      {
        assert pools[i..][0] == pools[i] && pools[i..][1..] == pools[i + 1..];
        var ms := pools[i].members;
        ghost var dropped := DropServers(Draft(), pools[i].name, ms);
        assert ms[0..] == ms;
        for j := 0 to |ms|
          invariant Valid() && old(clock) <= clock && monitor == old(monitor)
          invariant committed == old(committed) && commits == old(commits) && transaction == old(transaction)
          invariant Draft().Some? ==> Thinned(c, Draft().value, pools)
          invariant old(Clear()) ==> dropped == DropServers(Draft(), pools[i].name, ms[j..])
        {
          assert ms[j..][0] == ms[j] && ms[j..][1..] == ms[j + 1..];
          assert pools[i] in pools;
          var _ := Change(DeleteServer(pools[i].name, ms[j].node.name));
        }
        assert ms[|ms|..] == [];
      }
      assert pools[|pools|..] == [];
    }

    method DeletePools(pools: seq<Pool>) returns (ok: bool)
      requires Valid() && (pools == [] ==> Draft().Some?)
      modifies this
      ensures Keeps() && monitor == old(monitor)
      ensures Delivers(DropBackends(old(Draft()), pools), Draft(), ok, old(Clear()))
    {
      ghost var all := DropBackends(Draft(), pools);
      assert pools[0..] == pools;
      for i := 0 to |pools|
        invariant Valid() && old(clock) <= clock && monitor == old(monitor)
        invariant committed == old(committed) && commits == old(commits) && transaction == old(transaction)
        invariant i == |pools| ==> Draft().Some?
        invariant all == DropBackends(Draft(), pools[i..])
      {
        assert pools[i..][0] == pools[i] && pools[i..][1..] == pools[i + 1..];
        ok := Change(DeleteBackend(pools[i].name));
        if !ok {
          NoneStays(monitor, pools[i + 1..], []);
          return;
        }
      }
      assert pools[|pools|..] == [];
      ok := true;
    }

    /** HandleCleanup on this provider: a member that is not there to be deleted costs the draft, though
        its error is ignored. The monitor in a status always has a name, so it is always deleted. */
    method HandleCleanup(pools: seq<Pool>, vips: seq<VIP>) returns (ok: bool)
      requires Valid() && Draft().Some?
      modifies this
      ensures Keeps()
      ensures ok ==> Draft().Some? && Draft() == CleanResult(old(Draft()).value, vips, pools)
      ensures ok ==> monitor == Monitor("", "", 0, "")
      ensures old(Clear()) ==> (ok <==> Removable(old(Draft()).value, vips, pools))
    {
      CleanupSucceedsIff(Draft().value, vips, pools);
      NoneStays(monitor, pools, []);
      ok := DeleteVips(vips);
      if !ok {
        return;
      }
      ghost var c := Draft().value;
      DropMembers(pools);
      if Draft().Some? {
        ThinningIsInvisible(c, Draft().value, pools);
      }
      ok := DeletePools(pools);
      if !ok {
        return;
      }
      monitor := Monitor("", "", 0, "");
    }

    /** A finalizing phase commits nothing, or the fully cleaned configuration. Without faults it
        succeeds exactly if everything it lists, servers included, is there and listed once. */
    method FinalizePhase(pools: seq<Pool>, vips: seq<VIP>) returns (ok: bool)
      requires Valid()
      modifies this
      ensures Valid() && old(clock) <= clock
      ensures var want := CleanResult(old(committed), vips, pools);
              && (commits == old(commits) || (want.Some? && commits == old(commits) + [want.value]))
              && (ok ==> want.Some? && commits == old(commits) + [want.value] && committed == want.value)
      ensures old(Clear()) ==> (ok <==> Removable(old(committed), vips, pools))
      ensures old(Clear()) && !ok ==> commits == old(commits)
    {
      ok := Connect();
      if !ok {
        return;
      }
      ok := HandleCleanup(pools, vips);
      if !ok {
        return;
      }
      ok := Close();
    }

    /** A whole pass, deleting or not, with any faults: the running configuration is at every moment
        the one before, the fully configured one, or the fully cleaned one, in this order. A fault-free
        deleting pass succeeds exactly if the device can be configured, nothing is listed twice, and
        the update has no server to remove; otherwise the configured configuration stays. */
    method Pass(m: Monitor, pools: seq<Pool>, vips: seq<VIP>, deleting: bool) returns (ok: bool)
      requires Valid() && m.port >= 1
      modifies this
      ensures Valid() && old(clock) <= clock
      ensures PassTrace(old(commits), commits, Job(m, pools, vips, deleting), ok)
      ensures ok && !deleting && ConsistentPools(pools) && NoneForced(pools) ==>
                forall p :: p in pools ==> Serves(committed, m, p)
      ensures ok && !deleting && ConsistentVips(vips) ==> forall v :: v in vips ==> Routes(committed, v)
      ensures ok && deleting ==> (forall p :: p in pools ==> p.name !in committed.backends)
                                 && forall v :: v in vips ==> v.name !in committed.frontends
      ensures OthersSame(old(committed), committed, Job(m, pools, vips, deleting))
      ensures old(Clear()) && DistinctPools(pools) && !deleting ==> (ok <==> Configurable(old(committed), pools, vips))
      ensures old(Clear()) && NoneForced(pools) && deleting ==>
                (ok <==> DistinctPools(pools) && DistinctVips(vips)
                         && Configurable(old(committed), pools, vips) && NothingUnwanted(old(committed), pools))
      ensures old(Clear()) && !ok ==>
                var want := ConfigureResult(old(committed), m, pools, vips);
                committed == if want.Some? then want.value else old(committed)
    {
      var status;
      if DistinctPools(pools) {
        ConfigureSucceedsIff(committed, m, pools, vips);
      }
      status, ok := ConfigurePhase(m, pools, vips);
      if !ok {
        PassConclusion(old(commits), commits, Job(m, pools, vips, deleting), ok);
        return;
      }
      if deleting {
        NamesDecide(Some(committed), vips, status, pools);
        if NoneForced(pools) {
          DeletingPassIff(old(committed), m, pools, vips, status);
        }
        ok := FinalizePhase(status, vips);
      }
      PassConclusion(old(commits), commits, Job(m, pools, vips, deleting), ok);
    }

    /** A deleting pass, and once more if it fails: without faults this succeeds exactly if the device can
        be configured and nothing is listed twice, whatever servers were there before. */
    method Retire(m: Monitor, pools: seq<Pool>, vips: seq<VIP>) returns (ok: bool)
      requires Valid() && m.port >= 1
      modifies this
      ensures Valid()
      ensures old(Clear()) && NoneForced(pools) ==>
                (ok <==> DistinctPools(pools) && DistinctVips(vips) && Configurable(old(committed), pools, vips))
      ensures ok ==> (forall p :: p in pools ==> p.name !in committed.backends)
                     && forall v :: v in vips ==> v.name !in committed.frontends
    {
      ghost var c := committed;
      ok := Pass(m, pools, vips, true);
      if !ok {
        if DistinctPools(pools) {
          ConfigureSucceedsIff(c, m, pools, vips);
          if NoneForced(pools) && Configurable(c, pools, vips) {
            ConfiguredIsClear(c, m, pools, vips);
          }
        }
        ok := Pass(m, pools, vips, true);
      }
    }

    /** Passes of any load balancers one after the other, each with any faults. */
    method RunJobs(jobs: seq<Job>) returns (oks: seq<bool>, ghost marks: seq<nat>)
      requires Valid() && forall j :: j in jobs ==> j.monitor.port >= 1
      modifies this
      ensures Valid() && old(commits) <= commits
      ensures Trace(commits, marks, jobs, oks) && marks[0] == |old(commits)|
    {
      oks, marks := [], [|commits|];
      for i := 0 to |jobs|
        invariant Valid() && old(commits) <= commits && marks != [] && marks[0] == |old(commits)|
        invariant Trace(commits, marks, jobs[..i], oks)
      {
        var j := jobs[i];
        assert j in jobs;
        ghost var before := commits;
        var ok := Pass(j.monitor, j.pools, j.vips, j.deleting);
        TraceGrows(before, marks, jobs[..i], oks, commits, j, ok);
        assert jobs[..i + 1] == jobs[..i] + [j];
        oks, marks := oks + [ok], marks + [|commits|];
      }
      assert jobs[..|jobs|] == jobs;
    }
  }

  lemma {:induction false} AddNoneStays(pool: string, ms: seq<PoolMember>, m: Monitor)
    ensures AddTo(None, pool, ms, m) == None
  {
    if ms != [] { AddNoneStays(pool, ms[1..], m); }
  }
}
