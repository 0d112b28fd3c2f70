/** A remote load balancer seen through the comments of the Provider interface
    (internal/controller/backend/backend_controller/backend_controller.go:45-87): three name-indexed
    tables, mutated one call at a time, every call subject to an arbitrary fault. */
module Devices {
  import opened Types

  datatype MonitorCfg = MonitorCfg(path: string, port: int, kind: string)

  datatype PoolCfg = PoolCfg(monitor: string, members: set<Key>)

  datatype VipCfg = VipCfg(ip: string, port: int, pool: string)

  datatype Device = Device(
    monitors: map<string, MonitorCfg>,
    pools: map<string, PoolCfg>,
    vips: map<string, VipCfg>)

  datatype Id = MonitorId(name: string) | PoolId(name: string) | VipId(name: string)

  /** The mutating calls of the interface. */
  datatype Op =
    | CreateMonitor(m: Monitor)
    | EditMonitor(m: Monitor)
    | DeleteMonitor(name: string)
    | CreatePool(name: string, monitor: string)
    | EditPool(name: string, monitor: string)
    | DeletePool(name: string)
    | AddMember(name: string, key: Key)
    | DelMember(name: string, key: Key)
    | CreateVip(v: VIP)
    | EditVip(v: VIP)
    | DeleteVip(name: string)

  function MonitorCfgOf(m: Monitor): MonitorCfg {
    MonitorCfg(m.path, m.port, m.kind)
  }

  function VipCfgOf(v: VIP): VipCfg {
    VipCfg(v.ip, v.port, v.pool)
  }

  function Target(op: Op): Id {
    match op
    case CreateMonitor(m) => MonitorId(m.name)
    case EditMonitor(m) => MonitorId(m.name)
    case DeleteMonitor(n) => MonitorId(n)
    case CreatePool(n, _) => PoolId(n)
    case EditPool(n, _) => PoolId(n)
    case DeletePool(n) => PoolId(n)
    case AddMember(n, _) => PoolId(n)
    case DelMember(n, _) => PoolId(n)
    case CreateVip(v) => VipId(v.name)
    case EditVip(v) => VipId(v.name)
    case DeleteVip(n) => VipId(n)
  }

  predicate Has(d: Device, id: Id) {
    match id
    case MonitorId(n) => n in d.monitors
    case PoolId(n) => n in d.pools
    case VipId(n) => n in d.vips
  }

  /** The two devices hold the same thing, or both nothing, under `id`. */
  predicate SameAt(d: Device, e: Device, id: Id) {
    && (Has(d, id) <==> Has(e, id))
    && (Has(d, id) ==>
          match id
          case MonitorId(n) => d.monitors[n] == e.monitors[n]
          case PoolId(n) => d.pools[n] == e.pools[n]
          case VipId(n) => d.vips[n] == e.vips[n])
  }

  /** Every VIP's pool exists and every pool's monitor exists. */
  ghost predicate Referential(d: Device) {
    && (forall v :: v in d.vips ==> d.vips[v].pool in d.pools)
    && (forall p :: p in d.pools ==> d.pools[p].monitor in d.monitors)
  }

  /** What a call does once the device lets it through. */
  function Apply(d: Device, op: Op): Device {
    match op
    case CreateMonitor(m) => d.(monitors := d.monitors[m.name := MonitorCfgOf(m)])
    case EditMonitor(m) =>
      if m.name in d.monitors then d.(monitors := d.monitors[m.name := MonitorCfgOf(m)]) else d
    case DeleteMonitor(n) => d.(monitors := d.monitors - {n})
    case CreatePool(n, mon) =>
      d.(pools := d.pools[n := PoolCfg(mon, if n in d.pools then d.pools[n].members else {})])
    case EditPool(n, mon) =>
      if n in d.pools then d.(pools := d.pools[n := d.pools[n].(monitor := mon)]) else d
    case DeletePool(n) => d.(pools := d.pools - {n})
    case AddMember(n, k) =>
      if n in d.pools then WithMembers(d, n, d.pools[n].members + {k}) else d
    case DelMember(n, k) =>
      if n in d.pools then WithMembers(d, n, d.pools[n].members - {k}) else d
    case CreateVip(v) => d.(vips := d.vips[v.name := VipCfgOf(v)])
    case EditVip(v) => if v.name in d.vips then d.(vips := d.vips[v.name := VipCfgOf(v)]) else d
    case DeleteVip(n) => d.(vips := d.vips - {n})
  }

  function WithMembers(d: Device, pool: string, members: set<Key>): Device
    requires pool in d.pools
  {
    d.(pools := d.pools[pool := d.pools[pool].(members := members)])
  }

  /** What a strict device lets through: no duplicate creation, no edit or delete of an absent
      object, no dangling reference. */
  predicate Accepts(d: Device, op: Op) {
    match op
    case CreateMonitor(m) => m.name !in d.monitors
    case EditMonitor(m) => m.name in d.monitors
    case DeleteMonitor(n) => n in d.monitors && MonitorUnused(d, n)
    case CreatePool(n, mon) => n !in d.pools && mon in d.monitors
    case EditPool(n, mon) => n in d.pools && mon in d.monitors
    case DeletePool(n) => n in d.pools && PoolUnused(d, n)
    case AddMember(n, k) => n in d.pools && k !in d.pools[n].members
    case DelMember(n, k) => n in d.pools && k in d.pools[n].members
    case CreateVip(v) => v.name !in d.vips && v.pool in d.pools
    case EditVip(v) => v.name in d.vips && v.pool in d.pools
    case DeleteVip(n) => n in d.vips
  }

  predicate MonitorUnused(d: Device, n: string) {
    forall p :: p in d.pools ==> d.pools[p].monitor != n
  }

  predicate PoolUnused(d: Device, n: string) {
    forall v :: v in d.vips ==> d.vips[v].pool != n
  }

  datatype Fault = NoFault | FailBefore | FailAfter

  /** How the outside world behaves: whether the device is strict, what happens to the n-th call,
      and in which order a pool's members are listed at that moment. */
  datatype World = World(strict: bool, fault: nat -> Fault, listing: (nat, set<Key>) -> seq<PoolMember>)

  ghost predicate Lists(ms: seq<PoolMember>, s: set<Key>) {
    Keys(ms) == s && DistinctKeys(ms)
  }

  /** GetPoolMembers answers with the members the pool has, each once, in any order. */
  ghost predicate Faithful(w: World) {
    forall c: nat, s: set<Key> :: Lists(w.listing(c, s), s)
  }

  ghost predicate FaultFree(w: World, clock: nat) {
    forall c: nat :: clock <= c ==> w.fault(c) == NoFault
  }

  /** One effective mutating call. */
  datatype Entry = Entry(before: Device, op: Op, after: Device)

  /** The device, how many calls were made, and every call that took effect. */
  datatype Sys = Sys(dev: Device, clock: nat, log: seq<Entry>)

  datatype Outcome = Outcome(sys: Sys, ok: bool)

  /** A call that does not mutate: a getter, Connect or Close. */
  function Peek(w: World, s: Sys): Outcome {
    Outcome(s.(clock := s.clock + 1), w.fault(s.clock) == NoFault)
  }

  function Call(w: World, s: Sys, op: Op): Outcome {
    if w.fault(s.clock) == FailBefore || (w.strict && !Accepts(s.dev, op)) then
      Outcome(s.(clock := s.clock + 1), false)
    else
      var after := Apply(s.dev, op);
      Outcome(Sys(after, s.clock + 1, s.log + [Entry(s.dev, op, after)]), w.fault(s.clock) == NoFault)
  }

  /** Calls made one after the other, giving up at the first error. */
  function CallAll(w: World, s: Sys, ops: seq<Op>): Outcome
    decreases |ops|
  {
    if ops == [] then Outcome(s, true)
    else
      var r := Call(w, s, ops[0]);
      if r.ok then CallAll(w, r.sys, ops[1..]) else r
  }

  /** Calls made one after the other, errors ignored. */
  function CallEach(w: World, s: Sys, ops: seq<Op>): Sys
    decreases |ops|
  {
    if ops == [] then s else CallEach(w, Call(w, s, ops[0]).sys, ops[1..])
  }

  function Replay(d: Device, ops: seq<Op>): Device
    decreases |ops|
  {
    if ops == [] then d else Replay(Apply(d, ops[0]), ops[1..])
  }

  /** `after` continues `before`: its log extends the older one. */
  predicate Continues(before: Sys, after: Sys) {
    before.clock <= after.clock && before.log <= after.log
  }

  function Since(before: Sys, after: Sys): seq<Entry>
    requires Continues(before, after)
  {
    after.log[|before.log|..]
  }

  /** `I` holds of the device before and after every call made between the two states. */
  ghost predicate Throughout(before: Sys, after: Sys, I: Device -> bool) {
    && Continues(before, after)
    && I(after.dev)
    && forall e :: e in Since(before, after) ==> I(e.before) && I(e.after)
  }

  lemma ThroughoutJoins(a: Sys, b: Sys, c: Sys, I: Device -> bool)
    requires Throughout(a, b, I) && Throughout(b, c, I)
    ensures Throughout(a, c, I)
  {
    assert Since(a, c) == Since(a, b) + Since(b, c);
  }

  /** A property that each of `ops` keeps is kept at every point of their execution, whatever
      fails. */
  lemma {:induction false} CallAllKeeps(w: World, s: Sys, ops: seq<Op>, I: Device -> bool)
    requires I(s.dev)
    requires forall d, op :: op in ops && I(d) ==> I(Apply(d, op))
    ensures Throughout(s, CallAll(w, s, ops).sys, I)
    decreases |ops|
  {
    if ops != [] {
      var r := Call(w, s, ops[0]);
      assert Throughout(s, r.sys, I);
      if r.ok {
        CallAllKeeps(w, r.sys, ops[1..], I);
        ThroughoutJoins(s, r.sys, CallAll(w, s, ops).sys, I);
      }
    }
  }

  lemma {:induction false} CallEachKeeps(w: World, s: Sys, ops: seq<Op>, I: Device -> bool)
    requires I(s.dev)
    requires forall d, op :: op in ops && I(d) ==> I(Apply(d, op))
    ensures Throughout(s, CallEach(w, s, ops), I)
    decreases |ops|
  {
    if ops != [] {
      var r := Call(w, s, ops[0]);
      assert Throughout(s, r.sys, I);
      CallEachKeeps(w, r.sys, ops[1..], I);
      ThroughoutJoins(s, r.sys, CallEach(w, s, ops), I);
    }
  }

  /** A sequence that ends without error did all of its calls. */
  lemma {:induction false} CallAllOk(w: World, s: Sys, ops: seq<Op>)
    requires CallAll(w, s, ops).ok
    ensures CallAll(w, s, ops).sys.dev == Replay(s.dev, ops)
    ensures |CallAll(w, s, ops).sys.log| == |s.log| + |ops|
    ensures w.strict ==> AllAccepted(s.dev, ops)
    decreases |ops|
  {
    if ops != [] {
      CallAllOk(w, Call(w, s, ops[0]).sys, ops[1..]);
    }
  }

  /** A strict device would accept each call when its turn comes. */
  predicate AllAccepted(d: Device, ops: seq<Op>)
    decreases |ops|
  {
    ops == [] || (Accepts(d, ops[0]) && AllAccepted(Apply(d, ops[0]), ops[1..]))
  }

  lemma {:induction false} CallAllSucceeds(w: World, s: Sys, ops: seq<Op>)
    requires FaultFree(w, s.clock)
    requires w.strict ==> AllAccepted(s.dev, ops)
    ensures CallAll(w, s, ops).ok
    decreases |ops|
  {
    if ops != [] {
      CallAllSucceeds(w, Call(w, s, ops[0]).sys, ops[1..]);
    }
  }

  lemma {:induction false} CallAllJoins(w: World, s: Sys, a: seq<Op>, b: seq<Op>)
    ensures CallAll(w, s, a + b)
            == if CallAll(w, s, a).ok then CallAll(w, CallAll(w, s, a).sys, b) else CallAll(w, s, a)
    decreases |a|
  {
    if a == [] {
      assert a + b == b;
    } else {
      assert (a + b)[1..] == a[1..] + b;
      CallAllJoins(w, Call(w, s, a[0]).sys, a[1..], b);
    }
  }

  lemma {:induction false} ReplayJoins(d: Device, a: seq<Op>, b: seq<Op>)
    ensures Replay(d, a + b) == Replay(Replay(d, a), b)
    ensures AllAccepted(d, a + b) <==> AllAccepted(d, a) && AllAccepted(Replay(d, a), b)
    decreases |a|
  {
    if a == [] {
      assert a + b == b;
    } else {
      assert (a + b)[1..] == a[1..] + b;
      ReplayJoins(Apply(d, a[0]), a[1..], b);
    }
  }
}
