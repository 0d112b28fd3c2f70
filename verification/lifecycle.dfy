/** The reconcile pass against the API server, with users and other controllers acting between any
    two of its requests (internal/controller/externalloadbalancer_controller.go:115-486, 539-612). */
module Lifecycle {
  import opened Types
  import opened Names
  import opened Devices
  import opened Cleanup
  import opened Passes
  import Nodes

  const FINALIZER := "lb.lbconfig.carlosedp.com/finalizer"

  datatype Spec = Spec(
    vip: string,
    kind: string,
    nodeLabels: Option<map<string, string>>,
    ports: seq<int>,
    monitor: Monitor)

  /** The stored object. Versions are drawn from one counter of the server, so an object that was
      deleted and created anew never repeats one. */
  datatype Lb = Lb(spec: Spec, status: Status, deleting: bool, finalizers: seq<string>, version: nat)

  /** What users and other controllers do; they leave this operator's finalizer alone. */
  datatype EnvStep =
    | CreateObject(spec: Spec, finalizers: seq<string>)
    | ChangeSpec(spec: Spec)
    | RequestDeletion
    | SetFinalizers(finalizers: seq<string>)

  datatype ApiWorld = ApiWorld(
    fault: nat -> Fault,
    env: nat -> seq<EnvStep>,
    nodes: nat -> seq<Nodes.KNode>)

  /** One change of the stored object, and what the device was at that moment. */
  datatype ApiEntry = ApiEntry(before: Option<Lb>, after: Option<Lb>, sys: Sys)

  datatype Api = Api(store: Option<Lb>, rev: nat, clock: nat, log: seq<ApiEntry>)

  /** A deleting object without finalizers ceases to exist. */
  function Settle(o: Lb): Option<Lb> {
    if o.deleting && o.finalizers == [] then None else Some(o)
  }

  function Write(a: Api, after: Option<Lb>, s: Sys): Api {
    Api(after, a.rev + 1, a.clock, a.log + [ApiEntry(a.store, after, s)])
  }

  function Act(a: Api, step: EnvStep, s: Sys): Api {
    match step
    case CreateObject(spec, fs) =>
      if a.store.None? then Write(a, Some(Lb(spec, EMPTY_STATUS, false, fs, a.rev + 1)), s) else a
    case ChangeSpec(spec) =>
      if a.store.Some? then Write(a, Some(a.store.value.(spec := spec, version := a.rev + 1)), s) else a
    case RequestDeletion =>
      if a.store.Some? then Write(a, Settle(a.store.value.(deleting := true, version := a.rev + 1)), s) else a
    case SetFinalizers(fs) =>
      if a.store.Some? && (FINALIZER in fs <==> FINALIZER in a.store.value.finalizers)
         && (a.store.value.deleting ==> forall f :: f in fs ==> f in a.store.value.finalizers) then
        Write(a, Settle(a.store.value.(finalizers := fs, version := a.rev + 1)), s)
      else a
  }

  function ActAll(a: Api, steps: seq<EnvStep>, s: Sys): Api
    decreases |steps|
  {
    if steps == [] then a else ActAll(Act(a, steps[0], s), steps[1..], s)
  }

  /** A request reaches the server after whatever the others did before it. */
  function Arrive(w: ApiWorld, a: Api, s: Sys): Api {
    ActAll(a, w.env(a.clock), s).(clock := a.clock + 1)
  }

  datatype Fetched = Found(o: Lb) | NotFound | Failed

  function Fetch(w: ApiWorld, a: Api, s: Sys): (Api, Fetched) {
    var b := Arrive(w, a, s);
    (b, if w.fault(a.clock) != NoFault then Failed else if b.store.Some? then Found(b.store.value) else NotFound)
  }

  /** A request about other objects: the list of load balancers, the secret, the nodes. */
  function Ask(w: ApiWorld, a: Api, s: Sys): (Api, bool) {
    (Arrive(w, a, s), w.fault(a.clock) == NoFault)
  }

  /** Status().Update: refused unless the version is the stored one; answers with the stored object. */
  function PutStatus(w: ApiWorld, a: Api, o: Lb, s: Sys): (Api, Option<Lb>) {
    var b := Arrive(w, a, s);
    if w.fault(a.clock) == FailBefore || b.store.None? || b.store.value.version != o.version then (b, None)
    else
      var stored := b.store.value.(status := o.status, version := b.rev + 1);
      (Write(b, Some(stored), s), if w.fault(a.clock) == NoFault then Some(stored) else None)
  }

  /** Update: spec and finalizers; the status and the deletion mark are the server's. */
  function Put(w: ApiWorld, a: Api, o: Lb, s: Sys): (Api, bool) {
    var b := Arrive(w, a, s);
    if w.fault(a.clock) == FailBefore || b.store.None? || b.store.value.version != o.version then (b, false)
    else
      var stored := b.store.value.(spec := o.spec, finalizers := o.finalizers, version := b.rev + 1);
      (Write(b, Settle(stored), s), w.fault(a.clock) == NoFault)
  }

  /** All but `f`. */
  function Without(fs: seq<string>, f: string): (r: seq<string>)
    ensures forall g :: g in r <==> g in fs && g != f
    ensures forall g :: multiset(r)[g] == if g == f then 0 else multiset(fs)[g]
  {
    if fs == [] then []
    else
      assert fs == [fs[0]] + fs[1..];
      (if fs[0] == f then [] else [fs[0]]) + Without(fs[1..], f)
  }

  /** The others stay in their order. */
  lemma {:induction false} WithoutJoins(fs: seq<string>, gs: seq<string>, f: string)
    ensures Without(fs + gs, f) == Without(fs, f) + Without(gs, f)
  {
    if fs == [] {
      assert fs + gs == gs;
    } else {
      assert (fs + gs)[1..] == fs[1..] + gs;
      WithoutJoins(fs[1..], gs, f);
    }
  }

  // ---------- The pass

  datatype Cluster = Cluster(api: Api, sys: Sys)

  datatype Worlds = Worlds(api: ApiWorld, dev: World)

  datatype Step = Step(c: Cluster, ok: bool)

  function WantOf(spec: Spec, nodes: seq<Node>): Want {
    Want(spec.vip, spec.ports, spec.monitor, nodes)
  }

  /** After the status is written: tear down or make sure of the finalizer. */
  function Conclude(w: Worlds, c: Cluster, cur: Lb): Step {
    if cur.deleting then
      if FINALIZER in cur.finalizers then
        var r := Finalize(w.dev, c.sys, cur.status);
        if !r.ok then Step(Cluster(c.api, r.sys), false)
        else
          var (a, ok) := Put(w.api, c.api, cur.(finalizers := Without(cur.finalizers, FINALIZER)), r.sys);
          Step(Cluster(a, r.sys), ok)
      else Step(c, true)
    else if FINALIZER !in cur.finalizers then
      var (a, ok) := Put(w.api, c.api, cur.(finalizers := cur.finalizers + [FINALIZER]), c.sys);
      Step(Cluster(a, c.sys), ok)
    else Step(c, true)
  }

  /** What the pass writes into the status: the ports are those of the object as read again. */
  function NewStatus(lb: string, want: Want, labels: map<string, string>, cur: Lb): Status {
    StatusFor(lb, want, labels).(ports := cur.spec.ports)
  }

  /** After the configure phase: read the object again, an error being ignored, and write its status. */
  function Record(w: Worlds, lb: string, c: Cluster, obj: Lb, want: Want, labels: map<string, string>): Step {
    var (a, got) := Fetch(w.api, c.api, c.sys);
    var cur := if got.Found? then got.o else obj.(spec := obj.spec.(monitor := MonitorFor(lb, want)));
    var (b, stored) := PutStatus(w.api, a, cur.(status := NewStatus(lb, want, labels, cur)), c.sys);
    if stored.None? then Step(Cluster(b, c.sys), false)
    else Conclude(w, Cluster(b, c.sys), stored.value)
  }

  /** CreateBackend, the configure phase, and what follows. */
  function Drive(w: Worlds, lb: string, c: Cluster, obj: Lb, want: Want, labels: map<string, string>): Step {
    var created := Peek(w.dev, c.sys);
    if !created.ok then Step(Cluster(c.api, created.sys), false)
    else
      var r := Configure(w.dev, created.sys, TasksFor(lb, want));
      if !r.ok then Step(Cluster(c.api, r.sys), false)
      else Record(w, lb, Cluster(c.api, r.sys), obj, want, labels)
  }

  /** With the object in hand: its secret, its node labels and the nodes. */
  function Prepare(w: Worlds, lb: string, c: Cluster, obj: Lb): Step {
    var (a, ok) := Ask(w.api, c.api, c.sys);
    if !ok then Step(Cluster(a, c.sys), false)
    else if obj.spec.kind == "" && obj.spec.nodeLabels.None? then Step(Cluster(a, c.sys), false)
    else
      var labels := Nodes.LabelsFor(obj.spec.kind, obj.spec.nodeLabels);
      var (b, listed) := Ask(w.api, a, c.sys);
      if !listed then Step(Cluster(b, c.sys), false)
      else
        var nodes := Nodes.Eligible(Nodes.Matching(w.api.nodes(a.clock), labels), labels);
        Drive(w, lb, Cluster(b, c.sys), obj, WantOf(obj.spec, nodes), labels)
  }

  function Reconcile(w: Worlds, lb: string, c: Cluster): Step {
    var (a, listed) := Ask(w.api, c.api, c.sys);
    if !listed then Step(Cluster(a, c.sys), false)
    else
      var (b, got) := Fetch(w.api, a, c.sys);
      match got
      case NotFound => Step(Cluster(b, c.sys), true)
      case Failed => Step(Cluster(b, c.sys), false)
      case Found(obj) => Prepare(w, lb, Cluster(b, c.sys), obj)
  }

  /** The controller reconciling the object `n` times. */
  function Life(w: Worlds, lb: string, c: Cluster, n: nat): Cluster {
    if n == 0 then c else Reconcile(w, lb, Life(w, lb, c, n - 1)).c
  }

  // ---------- What the device is to hold for an object, said of the object alone

  /** The monitor as in the spec; for each port a VIP with the spec's address that leads to a pool with
      exactly the qualifying nodes of the list as members. */
  ghost predicate SpecIsMet(d: Device, lb: string, spec: Spec, ns: seq<Nodes.KNode>) {
    && MonitorName(lb) in d.monitors
    && d.monitors[MonitorName(lb)] == MonitorCfg(spec.monitor.path, spec.monitor.port, spec.monitor.kind)
    && forall p :: p in spec.ports ==>
         && VipName(lb, p) in d.vips && d.vips[VipName(lb, p)] == VipCfg(spec.vip, p, PoolName(lb, p))
         && PoolName(lb, p) in d.pools && d.pools[PoolName(lb, p)].monitor == MonitorName(lb)
         && forall k :: k in d.pools[PoolName(lb, p)].members <==> IsWantedKey(spec, ns, p, k)
  }

  ghost predicate IsWantedKey(spec: Spec, ns: seq<Nodes.KNode>, p: int, k: Key) {
    exists n :: n in ns && Nodes.Qualifies(n, spec.kind, spec.nodeLabels) && k == Key(Nodes.NodeIP(n), p)
  }

  lemma WantedKeys(spec: Spec, ns: seq<Nodes.KNode>, p: int, k: Key)
    ensures var labels := Nodes.LabelsFor(spec.kind, spec.nodeLabels);
            (k in set x | x in Nodes.Eligible(Nodes.Matching(ns, labels), labels) :: Key(x.host, p))
            <==> IsWantedKey(spec, ns, p, k)
  {
    var labels := Nodes.LabelsFor(spec.kind, spec.nodeLabels);
    var xs := Nodes.Eligible(Nodes.Matching(ns, labels), labels);
    if x :| x in xs && k == Key(x.host, p) { Nodes.SelectionIs(ns, spec.kind, spec.nodeLabels, x); }
    if n :| n in ns && Nodes.Qualifies(n, spec.kind, spec.nodeLabels) && k == Key(Nodes.NodeIP(n), p) {
      Nodes.SelectionIs(ns, spec.kind, spec.nodeLabels, Node(n.name, Nodes.NodeIP(n), labels));
    }
  }

  /** A pass works towards exactly that. */
  lemma ConfiguredMeetsSpec(d: Device, lb: string, spec: Spec, ns: seq<Nodes.KNode>)
    ensures var labels := Nodes.LabelsFor(spec.kind, spec.nodeLabels);
            Configured(d, lb, WantOf(spec, Nodes.Eligible(Nodes.Matching(ns, labels), labels)))
            <==> SpecIsMet(d, lb, spec, ns)
  {
    var labels := Nodes.LabelsFor(spec.kind, spec.nodeLabels);
    var xs := Nodes.Eligible(Nodes.Matching(ns, labels), labels);
    forall p, k ensures k in (set x | x in xs :: Key(x.host, p)) <==> IsWantedKey(spec, ns, p, k) {
      WantedKeys(spec, ns, p, k);
    }
    if SpecIsMet(d, lb, spec, ns) {
      forall p | p in spec.ports
        ensures d.pools[PoolName(lb, p)] == PoolCfg(MonitorName(lb), set x | x in xs :: Key(x.host, p))
      {
      }
    }
  }

  // ---------- Safety of the stored object

  /** The device state is what an error-free finalizing phase for this status ended with. */
  ghost predicate TornDown(w: World, s: Sys, st: Status) {
    exists before: Sys :: Finalize(w, before, st) == Outcome(s, true)
  }

  predicate Carries(o: Option<Lb>) {
    o.Some? && FINALIZER in o.value.finalizers
  }

  /** The object loses the finalizer, or goes while carrying it, only when it is being deleted and an
      error-free finalizing phase for its own status has just ended. */
  ghost predicate LossIsClean(w: World, e: ApiEntry) {
    Carries(e.before) && !Carries(e.after) ==>
      e.before.value.deleting && TornDown(w, e.sys, e.before.value.status)
  }

  /** An object that is being deleted never gains the finalizer. */
  predicate NoLateGain(e: ApiEntry) {
    e.before.Some? && e.before.value.deleting && !Carries(e.before) ==> !Carries(e.after)
  }

  /** A status that is written tells what the device holds at that moment. */
  ghost predicate StatusIsTrue(e: ApiEntry) {
    e.before.Some? && e.after.Some? && e.before.value.status != e.after.value.status ==>
      Describes(e.after.value.status, e.sys.dev)
  }

  /** VIPs, pools and monitor of the status are on the device as described, each VIP with the pool of
      the same position, each pool with exactly the status's nodes as members, and the node count is
      right. */
  ghost predicate Describes(st: Status, d: Device) {
    && st.monitor.name in d.monitors && d.monitors[st.monitor.name] == MonitorCfgOf(st.monitor)
    && |st.vips| == |st.pools| && st.numNodes == |st.nodes|
    && forall i :: 0 <= i < |st.vips| ==>
         var v, p := st.vips[i], st.pools[i];
         && v.name in d.vips && d.vips[v.name] == VipCfgOf(v) && v.pool == p.name
         && p.name in d.pools && d.pools[p.name] == PoolCfg(st.monitor.name, Keys(p.members))
         && Keys(p.members) == set n | n in st.nodes :: Key(n.host, v.port)
  }

  ghost predicate Safe(w: World, e: ApiEntry) {
    LossIsClean(w, e) && NoLateGain(e) && StatusIsTrue(e)
  }

  /** `b` continues `a`, and every change of the object between them was safe. */
  ghost predicate SafeSince(w: World, a: Api, b: Api) {
    && a.log <= b.log && a.rev <= b.rev
    && forall e :: e in b.log[|a.log|..] ==> Safe(w, e)
  }

  lemma SafeJoins(w: World, a: Api, b: Api, c: Api)
    requires SafeSince(w, a, b) && SafeSince(w, b, c)
    ensures SafeSince(w, a, c)
  {
    assert c.log[|a.log|..] == b.log[|a.log|..] + c.log[|b.log|..];
  }

  predicate Versioned(a: Api) {
    a.store.Some? ==> a.store.value.version <= a.rev
  }

  /** A copy of the object is current exactly as long as its version is the stored one. */
  predicate Snapshot(a: Api, o: Lb) {
    o.version <= a.rev && (a.store.Some? && a.store.value.version == o.version ==> a.store.value == o)
  }

  lemma ActIsSafe(w: World, a: Api, step: EnvStep, s: Sys)
    requires Versioned(a)
    ensures SafeSince(w, a, Act(a, step, s)) && Versioned(Act(a, step, s))
    ensures forall o :: Snapshot(a, o) ==> Snapshot(Act(a, step, s), o)
  {
    var b := Act(a, step, s);
    if b != a {
      assert b.log[|a.log|..] == [ApiEntry(a.store, b.store, s)];
    } else {
      assert b.log[|a.log|..] == [];
    }
  }

  lemma {:induction false} ActAllIsSafe(w: World, a: Api, steps: seq<EnvStep>, s: Sys)
    requires Versioned(a)
    ensures SafeSince(w, a, ActAll(a, steps, s)) && Versioned(ActAll(a, steps, s))
    ensures forall o :: Snapshot(a, o) ==> Snapshot(ActAll(a, steps, s), o)
    decreases |steps|
  {
    if steps != [] {
      var b := Act(a, steps[0], s);
      ActIsSafe(w, a, steps[0], s);
      ActAllIsSafe(w, b, steps[1..], s);
      SafeJoins(w, a, b, ActAll(a, steps, s));
    }
  }

  lemma ArriveIsSafe(w: Worlds, a: Api, s: Sys)
    requires Versioned(a)
    ensures SafeSince(w.dev, a, Arrive(w.api, a, s)) && Versioned(Arrive(w.api, a, s))
    ensures forall o :: Snapshot(a, o) ==> Snapshot(Arrive(w.api, a, s), o)
  {
    ActAllIsSafe(w.dev, a, w.api.env(a.clock), s);
  }

  lemma WriteIsSafe(w: World, a: Api, after: Option<Lb>, s: Sys)
    requires Versioned(a) && (after.Some? ==> after.value.version == a.rev + 1)
    requires Safe(w, ApiEntry(a.store, after, s))
    ensures SafeSince(w, a, Write(a, after, s)) && Versioned(Write(a, after, s))
  {
    assert Write(a, after, s).log[|a.log|..] == [ApiEntry(a.store, after, s)];
  }

  lemma PutStatusIsSafe(w: Worlds, a: Api, o: Lb, s: Sys)
    requires Versioned(a) && Describes(o.status, s.dev)
    ensures var r := PutStatus(w.api, a, o, s);
            && SafeSince(w.dev, a, r.0) && Versioned(r.0)
            && (r.1.Some? ==> Snapshot(r.0, r.1.value))
  {
    ArriveIsSafe(w, a, s);
    var b := Arrive(w.api, a, s);
    var r := PutStatus(w.api, a, o, s);
    if r.0 != b {
      WriteIsSafe(w.dev, b, r.0.store, s);
      SafeJoins(w.dev, a, b, r.0);
    }
  }

  /** Writing a current copy whose finalizers were changed as the pass changes them. */
  lemma PutIsSafe(w: Worlds, a: Api, cur: Lb, fs: seq<string>, s: Sys)
    requires Versioned(a) && Snapshot(a, cur)
    requires FINALIZER in cur.finalizers && FINALIZER !in fs ==> cur.deleting && TornDown(w.dev, s, cur.status)
    requires FINALIZER !in cur.finalizers && FINALIZER in fs ==> !cur.deleting
    ensures var r := Put(w.api, a, cur.(finalizers := fs), s);
            SafeSince(w.dev, a, r.0) && Versioned(r.0)
  {
    ArriveIsSafe(w, a, s);
    var b := Arrive(w.api, a, s);
    var r := Put(w.api, a, cur.(finalizers := fs), s);
    assert Snapshot(b, cur);
    if r.0 != b {
      assert b.store == Some(cur);
      WriteIsSafe(w.dev, b, r.0.store, s);
      SafeJoins(w.dev, a, b, r.0);
    }
  }

  lemma ConcludeIsSafe(w: Worlds, c: Cluster, cur: Lb)
    requires Versioned(c.api) && Snapshot(c.api, cur)
    ensures SafeSince(w.dev, c.api, Conclude(w, c, cur).c.api) && Versioned(Conclude(w, c, cur).c.api)
  {
    if cur.deleting {
      if FINALIZER in cur.finalizers {
        var r := Finalize(w.dev, c.sys, cur.status);
        if r.ok {
          assert TornDown(w.dev, r.sys, cur.status);
          PutIsSafe(w, c.api, cur, Without(cur.finalizers, FINALIZER), r.sys);
        }
      }
    } else if FINALIZER !in cur.finalizers {
      PutIsSafe(w, c.api, cur, cur.finalizers + [FINALIZER], c.sys);
    }
  }

  lemma ConfiguredIsDescribed(d: Device, lb: string, want: Want, labels: map<string, string>, cur: Lb)
    requires Configured(d, lb, want)
    ensures Describes(NewStatus(lb, want, labels, cur), d)
  {
    var st := NewStatus(lb, want, labels, cur);
    forall i | 0 <= i < |want.ports|
      ensures st.vips[i] == VipFor(lb, want, want.ports[i]) && st.pools[i] == PoolFor(lb, want, want.ports[i])
      ensures Keys(st.pools[i].members) == set n | n in want.nodes :: Key(n.host, want.ports[i])
      ensures want.ports[i] in want.ports
    {
      MembersKeys(want.nodes, want.ports[i]);
    }
  }

  function PortsOf(vips: seq<VIP>): seq<int> {
    seq(|vips|, i requires 0 <= i < |vips| => vips[i].port)
  }

  /** The ports in the new status are those of its VIPs exactly if the object as read again still wants
      the ports that were configured. */
  lemma StatusPortsAgreeIff(lb: string, want: Want, labels: map<string, string>, cur: Lb)
    ensures var st := NewStatus(lb, want, labels, cur); st.ports == PortsOf(st.vips) <==> cur.spec.ports == want.ports
  {
    var st := NewStatus(lb, want, labels, cur);
    assert PortsOf(st.vips) == want.ports by {
      forall i | 0 <= i < |want.ports| ensures PortsOf(st.vips)[i] == want.ports[i] {
        assert st.vips[i] == VipFor(lb, want, want.ports[i]);
      }
    }
  }

  lemma RecordIsSafe(w: Worlds, lb: string, c: Cluster, obj: Lb, want: Want, labels: map<string, string>)
    requires Versioned(c.api) && Configured(c.sys.dev, lb, want)
    ensures var r := Record(w, lb, c, obj, want, labels).c.api;
            SafeSince(w.dev, c.api, r) && Versioned(r)
  {
    ArriveIsSafe(w, c.api, c.sys);
    var (a, got) := Fetch(w.api, c.api, c.sys);
    var cur := if got.Found? then got.o else obj.(spec := obj.spec.(monitor := MonitorFor(lb, want)));
    ConfiguredIsDescribed(c.sys.dev, lb, want, labels, cur);
    var o := cur.(status := NewStatus(lb, want, labels, cur));
    PutStatusIsSafe(w, a, o, c.sys);
    var (b, stored) := PutStatus(w.api, a, o, c.sys);
    SafeJoins(w.dev, c.api, a, b);
    if stored.Some? {
      ConcludeIsSafe(w, Cluster(b, c.sys), stored.value);
      SafeJoins(w.dev, c.api, b, Conclude(w, Cluster(b, c.sys), stored.value).c.api);
    }
  }

  lemma DriveIsSafe(w: Worlds, lb: string, c: Cluster, obj: Lb, want: Want, labels: map<string, string>)
    requires Versioned(c.api) && Faithful(w.dev)
    ensures var r := Drive(w, lb, c, obj, want, labels).c.api;
            SafeSince(w.dev, c.api, r) && Versioned(r)
  {
    var created := Peek(w.dev, c.sys);
    var r := Configure(w.dev, created.sys, TasksFor(lb, want));
    if created.ok && r.ok {
      ConfigureConverges(w.dev, created.sys, lb, want);
      RecordIsSafe(w, lb, Cluster(c.api, r.sys), obj, want, labels);
    }
  }

  /** Every change of the stored object during one pass is safe, whoever makes it. */
  lemma ReconcileIsSafe(w: Worlds, lb: string, c: Cluster)
    requires Versioned(c.api) && Faithful(w.dev)
    ensures var r := Reconcile(w, lb, c).c.api;
            SafeSince(w.dev, c.api, r) && Versioned(r)
  {
    var r := Reconcile(w, lb, c).c.api;
    var a := Arrive(w.api, c.api, c.sys);
    ArriveIsSafe(w, c.api, c.sys);
    var b := Arrive(w.api, a, c.sys);
    ArriveIsSafe(w, a, c.sys);
    SafeJoins(w.dev, c.api, a, b);
    var d := Arrive(w.api, b, c.sys);
    ArriveIsSafe(w, b, c.sys);
    SafeJoins(w.dev, c.api, b, d);
    var e := Arrive(w.api, d, c.sys);
    ArriveIsSafe(w, d, c.sys);
    SafeJoins(w.dev, c.api, d, e);
    var (_, got) := Fetch(w.api, a, c.sys);
    if got.Found? {
      var labels := Nodes.LabelsFor(got.o.spec.kind, got.o.spec.nodeLabels);
      var nodes := Nodes.Eligible(Nodes.Matching(w.api.nodes(d.clock), labels), labels);
      DriveIsSafe(w, lb, Cluster(e, c.sys), got.o, WantOf(got.o.spec, nodes), labels);
      SafeJoins(w.dev, c.api, e, Drive(w, lb, Cluster(e, c.sys), got.o, WantOf(got.o.spec, nodes), labels).c.api);
    }
  }

  /** Over the whole life of the object, with any faults and any interference by users. */
  lemma {:induction false} LifeIsSafe(w: Worlds, lb: string, c: Cluster, n: nat)
    requires Versioned(c.api) && Faithful(w.dev)
    ensures SafeSince(w.dev, c.api, Life(w, lb, c, n).api) && Versioned(Life(w, lb, c, n).api)
  {
    if n > 0 {
      LifeIsSafe(w, lb, c, n - 1);
      var d := Life(w, lb, c, n - 1);
      ReconcileIsSafe(w, lb, d);
      SafeJoins(w.dev, c.api, d.api, Life(w, lb, c, n).api);
    }
  }

  /** What a torn-down device lacks. */
  lemma TornDownIsGone(w: World, s: Sys, st: Status)
    requires TornDown(w, s, st)
    ensures Gone(s.dev, st)
  {
    var before: Sys :| Finalize(w, before, st) == Outcome(s, true);
    CleanupLeavesNothing(w, Peek(w, before).sys, st);
  }

  /** When the finalizer goes, the device holds nothing that the object's status names. */
  lemma FinalizerLeavesCleanDevice(w: Worlds, lb: string, c: Cluster, n: nat, e: ApiEntry)
    requires Versioned(c.api) && Faithful(w.dev)
    requires c.api.log <= Life(w, lb, c, n).api.log && e in Life(w, lb, c, n).api.log[|c.api.log|..]
    requires Carries(e.before) && !Carries(e.after)
    ensures e.before.value.deleting && Gone(e.sys.dev, e.before.value.status)
  {
    LifeIsSafe(w, lb, c, n);
    TornDownIsGone(w.dev, e.sys, e.before.value.status);
  }

  // ---------- What a reconcile does to the device

  ghost predicate SameDevice(s: Sys, t: Sys) {
    s.dev == t.dev && s.log == t.log
  }

  /** On the device a reconcile is nothing at all or one pass, so every property of passes holds of
      it. */
  ghost predicate IsPass(w: World, lb: string, s: Sys, t: Sys) {
    SameDevice(s, t) ||
    exists from: Sys, want: Want, deleting: bool ::
      SameDevice(s, from) && t == Pass(w, from, lb, want, deleting).sys
  }

  lemma DriveIsPass(w: Worlds, lb: string, c: Cluster, obj: Lb, want: Want, labels: map<string, string>)
    ensures IsPass(w.dev, lb, c.sys, Drive(w, lb, c, obj, want, labels).c.sys)
  {
    var created := Peek(w.dev, c.sys);
    var t := Drive(w, lb, c, obj, want, labels).c.sys;
    if created.ok {
      var r := Configure(w.dev, created.sys, TasksFor(lb, want));
      if t == r.sys {
        assert t == Pass(w.dev, created.sys, lb, want, false).sys;
      } else {
        FinalizedWithStatus(w, lb, Cluster(c.api, r.sys), obj, want, labels);
        assert t == Pass(w.dev, created.sys, lb, want, true).sys;
      }
    }
  }

  /** The teardown works from the status that this very pass wrote. */
  lemma FinalizedWithStatus(w: Worlds, lb: string, c: Cluster, obj: Lb, want: Want, labels: map<string, string>)
    ensures var t := Record(w, lb, c, obj, want, labels).c.sys;
            t == c.sys || t == Finalize(w.dev, c.sys, StatusFor(lb, want, map[])).sys
  {
    var (a, got) := Fetch(w.api, c.api, c.sys);
    var cur := if got.Found? then got.o else obj.(spec := obj.spec.(monitor := MonitorFor(lb, want)));
    var (b, stored) := PutStatus(w.api, a, cur.(status := NewStatus(lb, want, labels, cur)), c.sys);
    if stored.Some? {
      var st := stored.value.status;
      assert Finalize(w.dev, c.sys, st) == Finalize(w.dev, c.sys, StatusFor(lb, want, map[]));
    }
  }

  lemma ReconcileIsPass(w: Worlds, lb: string, c: Cluster)
    ensures IsPass(w.dev, lb, c.sys, Reconcile(w, lb, c).c.sys)
  {
    var (a, listed) := Ask(w.api, c.api, c.sys);
    var (b, got) := Fetch(w.api, a, c.sys);
    if listed && got.Found? {
      var (d, _) := Ask(w.api, b, c.sys);
      var (e, _) := Ask(w.api, d, c.sys);
      var labels := Nodes.LabelsFor(got.o.spec.kind, got.o.spec.nodeLabels);
      var nodes := Nodes.Eligible(Nodes.Matching(w.api.nodes(d.clock), labels), labels);
      DriveIsPass(w, lb, Cluster(e, c.sys), got.o, WantOf(got.o.spec, nodes), labels);
    }
  }

  // ---------- Which errors of the API a pass passes over

  lemma {:induction false} ActAllKeepsClock(a: Api, steps: seq<EnvStep>, s: Sys)
    ensures ActAll(a, steps, s).clock == a.clock
    decreases |steps|
  {
    if steps != [] { ActAllKeepsClock(Act(a, steps[0], s), steps[1..], s); }
  }

  lemma ArriveTicks(w: ApiWorld, a: Api, s: Sys)
    ensures Arrive(w, a, s).clock == a.clock + 1
  {
    ActAllKeepsClock(a, w.env(a.clock), s);
  }

  /** Every request of the part after the configure phase went through, but for reading the object
      again. */
  lemma RecordHidesRereadOnly(w: Worlds, lb: string, c: Cluster, obj: Lb, want: Want, labels: map<string, string>, k: nat)
    requires Record(w, lb, c, obj, want, labels).ok
    requires c.api.clock < k < Record(w, lb, c, obj, want, labels).c.api.clock
    ensures w.api.fault(k) == NoFault
  {
    ArriveTicks(w.api, c.api, c.sys);
    var (a, got) := Fetch(w.api, c.api, c.sys);
    var cur := if got.Found? then got.o else obj.(spec := obj.spec.(monitor := MonitorFor(lb, want)));
    ArriveTicks(w.api, a, c.sys);
    var (b, stored) := PutStatus(w.api, a, cur.(status := NewStatus(lb, want, labels, cur)), c.sys);
    ArriveTicks(w.api, b, c.sys);
    ArriveTicks(w.api, b, Finalize(w.dev, c.sys, stored.value.status).sys);
  }

  lemma DriveHidesRereadOnly(w: Worlds, lb: string, c: Cluster, obj: Lb, want: Want, labels: map<string, string>, k: nat)
    requires Drive(w, lb, c, obj, want, labels).ok
    requires c.api.clock < k < Drive(w, lb, c, obj, want, labels).c.api.clock
    ensures w.api.fault(k) == NoFault
  {
    var r := Configure(w.dev, Peek(w.dev, c.sys).sys, TasksFor(lb, want)).sys;
    RecordHidesRereadOnly(w, lb, Cluster(c.api, r), obj, want, labels, k);
  }

  lemma PrepareHidesRereadOnly(w: Worlds, lb: string, c: Cluster, obj: Lb, k: nat)
    requires Prepare(w, lb, c, obj).ok
    requires c.api.clock <= k < Prepare(w, lb, c, obj).c.api.clock && k != c.api.clock + 2
    ensures w.api.fault(k) == NoFault
  {
    var d := Ask(w.api, c.api, c.sys).0;
    ArriveTicks(w.api, c.api, c.sys);
    var e := Ask(w.api, d, c.sys).0;
    ArriveTicks(w.api, d, c.sys);
    if k > c.api.clock + 2 {
      var labels := Nodes.LabelsFor(obj.spec.kind, obj.spec.nodeLabels);
      var want := WantOf(obj.spec, Nodes.Eligible(Nodes.Matching(w.api.nodes(d.clock), labels), labels));
      DriveHidesRereadOnly(w, lb, Cluster(e, c.sys), obj, want, labels, k);
    }
  }

  /** A pass that ends without error over an object that is there: of all its API requests, whoever
      interfered in between, only reading the object again may have failed. */
  lemma ReconcileHidesRereadOnly(w: Worlds, lb: string, c: Cluster, k: nat)
    requires Reconcile(w, lb, c).ok
    requires c.api.clock <= k < Reconcile(w, lb, c).c.api.clock && k != c.api.clock + 4
    ensures w.api.fault(k) == NoFault
  {
    var (a, _) := Ask(w.api, c.api, c.sys);
    ArriveTicks(w.api, c.api, c.sys);
    var (b, got) := Fetch(w.api, a, c.sys);
    ArriveTicks(w.api, a, c.sys);
    if got.Found? && k >= b.clock { PrepareHidesRereadOnly(w, lb, Cluster(b, c.sys), got.o, k); }
  }
}
