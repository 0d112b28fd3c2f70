/** End to end: when one quiet pass takes a deleted load balancer out of the API. */
module Deletion {
  import opened Types
  import opened Devices
  import opened Passes
  import opened Teardown
  import opened Lifecycle
  import Nodes
  import Requests

  /** No API request fails and nobody else acts from now on. */
  ghost predicate Quiet(w: ApiWorld, clock: nat) {
    forall k: nat :: clock <= k ==> w.fault(k) == NoFault && w.env(k) == []
  }

  /** An object that is gone is no error, and nothing is done about it. */
  lemma MissingIsDone(w: Worlds, lb: string, c: Cluster)
    requires Quiet(w.api, c.api.clock) && c.api.store.None?
    ensures var r := Reconcile(w, lb, c); r.ok && r.c.sys == c.sys && r.c.api.store.None?
  {
    QuietArrival(w.api, c.api, c.sys);
    QuietArrival(w.api, c.api.(clock := c.api.clock + 1), c.sys);
  }

  /** The nodes that the pass starting now will list. */
  function UpcomingNodes(w: ApiWorld, a: Api): seq<Nodes.KNode> {
    w.nodes(a.clock + 3)
  }

  /** What the pass that starts now will want. */
  function UpcomingWant(w: ApiWorld, a: Api, o: Lb): Want {
    var labels := Nodes.LabelsFor(o.spec.kind, o.spec.nodeLabels);
    WantOf(o.spec, Nodes.Eligible(Nodes.Matching(UpcomingNodes(w, a), labels), labels))
  }

  lemma QuietArrival(w: ApiWorld, a: Api, s: Sys)
    requires Quiet(w, a.clock)
    ensures Arrive(w, a, s) == a.(clock := a.clock + 1)
  {
    assert w.env(a.clock) == [];
  }

  /** What a finished teardown makes of the object: it goes if this was its only finalizer, otherwise it
      stays as it was but for this finalizer and the status. */
  ghost predicate Released(o: Lb, after: Option<Lb>) {
    && (after.None? <==> forall g :: g in o.finalizers ==> g == FINALIZER)
    && (after.Some? ==>
          && after.value.finalizers == Without(o.finalizers, FINALIZER)
          && after.value.spec == o.spec && after.value.deleting)
  }

  /** What a failed one makes of it: nothing but a new status. */
  predicate Kept(o: Lb, after: Option<Lb>) {
    after.Some? && after.value.finalizers == o.finalizers && after.value.spec == o.spec && after.value.deleting == o.deleting
  }

  /** The part after the configure phase, for a deleted object that carries the finalizer. */
  lemma RecordDeletes(w: Worlds, lb: string, c: Cluster, o: Lb, want: Want, labels: map<string, string>)
    requires Quiet(w.api, c.api.clock) && c.api.store == Some(o)
    requires o.deleting && FINALIZER in o.finalizers
    ensures var r, done := Record(w, lb, c, o, want, labels), Finalize(w.dev, c.sys, StatusFor(lb, want, map[])).ok;
            (r.ok <==> done) && if done then Released(o, r.c.api.store) else Kept(o, r.c.api.store)
  {
    QuietArrival(w.api, c.api, c.sys);
    var (a, got) := Fetch(w.api, c.api, c.sys);
    assert got == Found(o);
    var cur := o.(status := NewStatus(lb, want, labels, o));
    QuietArrival(w.api, a, c.sys);
    var (b, stored) := PutStatus(w.api, a, cur, c.sys);
    var written := cur.(version := a.rev + 1);
    assert stored == Some(written) && b.store == Some(written);
    var r := Finalize(w.dev, c.sys, written.status);
    assert r == Finalize(w.dev, c.sys, StatusFor(lb, want, map[]));
    var left := Without(o.finalizers, FINALIZER);
    assert left != [] ==> left[0] in left;
    QuietArrival(w.api, b, r.sys);
  }

  function Later(c: Cluster, requests: nat): Cluster {
    Cluster(c.api.(clock := c.api.clock + requests), c.sys)
  }

  lemma QuietAsk(w: ApiWorld, c: Cluster)
    requires Quiet(w, c.api.clock)
    ensures Ask(w, c.api, c.sys) == (Later(c, 1).api, true)
  {
    QuietArrival(w, c.api, c.sys);
  }

  lemma PrepareDrives(w: Worlds, lb: string, c: Cluster, o: Lb)
    requires Quiet(w.api, c.api.clock)
    requires !(o.spec.kind == "" && o.spec.nodeLabels.None?)
    ensures var labels := Nodes.LabelsFor(o.spec.kind, o.spec.nodeLabels);
            var nodes := Nodes.Eligible(Nodes.Matching(w.api.nodes(c.api.clock + 1), labels), labels);
            Prepare(w, lb, c, o) == Drive(w, lb, Later(c, 2), o, WantOf(o.spec, nodes), labels)
  {
    QuietAsk(w.api, c);
    QuietAsk(w.api, Later(c, 1));
  }

  lemma ReachesDrive(w: Worlds, lb: string, c: Cluster, o: Lb)
    requires Quiet(w.api, c.api.clock) && c.api.store == Some(o)
    requires !(o.spec.kind == "" && o.spec.nodeLabels.None?)
    ensures Reconcile(w, lb, c)
            == Drive(w, lb, Later(c, 4), o, UpcomingWant(w.api, c.api, o), Nodes.LabelsFor(o.spec.kind, o.spec.nodeLabels))
  {
    QuietAsk(w.api, c);
    QuietAsk(w.api, Later(c, 1));
    assert Fetch(w.api, Later(c, 1).api, c.sys) == (Later(c, 2).api, Found(o));
    assert Reconcile(w, lb, c) == Prepare(w, lb, Later(c, 2), o);
    PrepareDrives(w, lb, Later(c, 2), o);
  }

  lemma DriveDeletes(w: Worlds, lb: string, c: Cluster, o: Lb, want: Want, labels: map<string, string>)
    requires Quiet(w.api, c.api.clock) && c.api.store == Some(o)
    requires o.deleting && FINALIZER in o.finalizers && w.dev.fault(c.sys.clock) == NoFault
    ensures var r, done := Drive(w, lb, c, o, want, labels), Pass(w.dev, Peek(w.dev, c.sys).sys, lb, want, true).ok;
            (r.ok <==> done) && if done then Released(o, r.c.api.store) else Kept(o, r.c.api.store)
  {
    var r := Configure(w.dev, Peek(w.dev, c.sys).sys, TasksFor(lb, want));
    if r.ok {
      RecordDeletes(w, lb, Cluster(c.api, r.sys), o, want, labels);
    }
  }

  /** On a strict device, in a quiet cluster: the pass over a deleted object that carries the finalizer
      ends without error exactly if no port is listed twice, no member has to be added twice and nothing
      foreign is attached to the load balancer's objects. Then the object goes, unless it has other
      finalizers: those stay. Otherwise it keeps its finalizers. */
  lemma DeletionCompletesIff(w: Worlds, lb: string, c: Cluster, o: Lb)
    requires Faithful(w.dev) && w.dev.strict && FaultFree(w.dev, c.sys.clock)
    requires Quiet(w.api, c.api.clock) && c.api.store == Some(o)
    requires o.deleting && FINALIZER in o.finalizers && !(o.spec.kind == "" && o.spec.nodeLabels.None?)
    ensures var r, want, d := Reconcile(w, lb, c), UpcomingWant(w.api, c.api, o), c.sys.dev;
            && (r.ok <==>
                  DistinctPorts(want) && NewMembersDistinct(d, lb, want) && Detached(d, lb, o.spec.ports))
            && if r.ok then Released(o, r.c.api.store) else Kept(o, r.c.api.store)
  {
    var want := UpcomingWant(w.api, c.api, o);
    ReachesDrive(w, lb, c, o);
    DriveDeletes(w, lb, Later(c, 4), o, want, Nodes.LabelsFor(o.spec.kind, o.spec.nodeLabels));
    TeardownFinishesIff(w.dev, Peek(w.dev, c.sys).sys, lb, want);
  }

  lemma OneAct(a: Api, step: EnvStep, s: Sys)
    ensures ActAll(a, [step], s) == Act(a, step, s)
  {
    assert [step][1..] == [];
  }

  // ---------- The live object

  /** What an error-free pass makes of a live object: the spec as it was, this finalizer behind the ones
      it had, and the new status. */
  ghost predicate Guarded(lb: string, o: Lb, want: Want, labels: map<string, string>, after: Option<Lb>) {
    && after.Some? && after.value.spec == o.spec && !after.value.deleting
    && after.value.finalizers == o.finalizers + (if FINALIZER in o.finalizers then [] else [FINALIZER])
    && after.value.status == NewStatus(lb, want, labels, o)
  }

  /** The part after the configure phase, for an object that is not being deleted: that it could not be
      read again makes no difference. */
  lemma RecordProtects(w: Worlds, lb: string, c: Cluster, o: Lb, want: Want, labels: map<string, string>)
    requires w.api.env(c.api.clock) == [] && Quiet(w.api, c.api.clock + 1)
    requires c.api.store == Some(o) && !o.deleting
    ensures var r := Record(w, lb, c, o, want, labels);
            && r.ok && r.c.sys == c.sys && Guarded(lb, o, want, labels, r.c.api.store)
            && r.c.api.clock == c.api.clock + (if FINALIZER in o.finalizers then 2 else 3)
  {
    var (a, got) := Fetch(w.api, c.api, c.sys);
    assert got == Found(o) || got == Failed;
    var read := if got.Found? then o else o.(spec := o.spec.(monitor := MonitorFor(lb, want)));
    var cur := read.(status := NewStatus(lb, want, labels, read));
    assert cur.status == NewStatus(lb, want, labels, o);
    QuietArrival(w.api, a, c.sys);
    var (b, stored) := PutStatus(w.api, a, cur, c.sys);
    var written := o.(status := cur.status, version := a.rev + 1);
    assert stored == Some(written) && b.store == Some(written);
    QuietArrival(w.api, b, c.sys);
    assert o.finalizers + [] == o.finalizers;
  }

  /** In a quiet cluster, whatever the device does: a pass over an object without type and labels fails
      and leaves device and object alone. */
  lemma InvalidIsRefused(w: Worlds, lb: string, c: Cluster, o: Lb)
    requires Quiet(w.api, c.api.clock) && c.api.store == Some(o)
    requires o.spec.kind == "" && o.spec.nodeLabels.None?
    ensures var r := Reconcile(w, lb, c); !r.ok && r.c.sys == c.sys && r.c.api.store == c.api.store
  {
    QuietAsk(w.api, c);
    QuietAsk(w.api, Later(c, 1));
    assert Fetch(w.api, Later(c, 1).api, c.sys) == (Later(c, 2).api, Found(o));
    QuietAsk(w.api, Later(c, 2));
  }

  /** In a quiet cluster, on any device: a pass over a live object that ends without error has put on the
      device what the object's spec says for the nodes it listed, and left the object with its spec, its
      finalizers and this one, and a status with the labels it asked for that describes the device. */
  lemma LivePassMeetsSpec(w: Worlds, lb: string, c: Cluster, o: Lb)
    requires Faithful(w.dev) && Quiet(w.api, c.api.clock) && c.api.store == Some(o) && !o.deleting
    requires Reconcile(w, lb, c).ok
    ensures var r := Reconcile(w, lb, c).c;
            && SpecIsMet(r.sys.dev, lb, o.spec, UpcomingNodes(w.api, c.api))
            && r.api.store.Some? && r.api.store.value.spec == o.spec
            && r.api.store.value.finalizers == o.finalizers + (if FINALIZER in o.finalizers then [] else [FINALIZER])
            && Describes(r.api.store.value.status, r.sys.dev)
            && r.api.clock == c.api.clock + (if FINALIZER in o.finalizers then 6 else 7)
            && (forall x :: x in r.api.store.value.status.nodes <==>
                  exists n :: n in UpcomingNodes(w.api, c.api) && Nodes.Qualifies(n, o.spec.kind, o.spec.nodeLabels)
                              && x == Node(n.name, Nodes.NodeIP(n), Nodes.LabelsFor(o.spec.kind, o.spec.nodeLabels)))
            && r.api.store.value.status.labels == Nodes.LabelsFor(o.spec.kind, o.spec.nodeLabels)
            && r.api.store.value.status.ports == o.spec.ports == PortsOf(r.api.store.value.status.vips)
  {
    if o.spec.kind == "" && o.spec.nodeLabels.None? {
      InvalidIsRefused(w, lb, c, o);
    } else {
      var want := UpcomingWant(w.api, c.api, o);
      var labels := Nodes.LabelsFor(o.spec.kind, o.spec.nodeLabels);
      var s := Peek(w.dev, c.sys).sys;
      ReachesDrive(w, lb, c, o);
      var r := Configure(w.dev, s, TasksFor(lb, want));
      ConfigureConverges(w.dev, s, lb, want);
      RecordProtects(w, lb, Cluster(Later(c, 4).api, r.sys), o, want, labels);
      ConfiguredIsDescribed(r.sys.dev, lb, want, labels, o);
      StatusPortsAgreeIff(lb, want, labels, o);
      forall x ensures x in want.nodes <==>
                exists n :: n in UpcomingNodes(w.api, c.api) && Nodes.Qualifies(n, o.spec.kind, o.spec.nodeLabels)
                            && x == Node(n.name, Nodes.NodeIP(n), labels)
      {
        Nodes.SelectionIs(UpcomingNodes(w.api, c.api), o.spec.kind, o.spec.nodeLabels, x);
      }
      ConfiguredMeetsSpec(r.sys.dev, lb, o.spec, UpcomingNodes(w.api, c.api));
    }
  }

  /** A pass over an object whose spec the device meets already changes nothing there: one request to create
      the provider, Connect, one read of the monitor, two of each pool, one of each VIP, and Close. */
  lemma MetSpecIsOnlyRead(w: Worlds, lb: string, c: Cluster, o: Lb)
    requires Faithful(w.dev) && Quiet(w.api, c.api.clock) && c.api.store == Some(o) && !o.deleting
    requires Reconcile(w, lb, c).ok && SpecIsMet(c.sys.dev, lb, o.spec, UpcomingNodes(w.api, c.api))
    ensures var r := Reconcile(w, lb, c).c.sys;
            r.dev == c.sys.dev && r.log == c.sys.log && r.clock == c.sys.clock + 4 + 3 * |o.spec.ports|
  {
    if o.spec.kind == "" && o.spec.nodeLabels.None? {
      InvalidIsRefused(w, lb, c, o);
    } else {
      var want := UpcomingWant(w.api, c.api, o);
      var labels := Nodes.LabelsFor(o.spec.kind, o.spec.nodeLabels);
      var s := Peek(w.dev, c.sys).sys;
      ReachesDrive(w, lb, c, o);
      ConfiguredMeetsSpec(c.sys.dev, lb, o.spec, UpcomingNodes(w.api, c.api));
      var r := Configure(w.dev, s, TasksFor(lb, want));
      ConfiguredIsQuiet(w.dev, s, lb, want);
      Requests.ConfiguredPassReads(w.dev, s, lb, want);
      RecordProtects(w, lb, Cluster(Later(c, 4).api, r.sys), o, want, labels);
    }
  }

  /** On a strict device, in a quiet cluster: the pass over a valid live object ends without error exactly
      if no member has to be added twice. */
  lemma LivePassSucceedsIff(w: Worlds, lb: string, c: Cluster, o: Lb)
    requires Faithful(w.dev) && w.dev.strict && FaultFree(w.dev, c.sys.clock)
    requires Quiet(w.api, c.api.clock) && c.api.store == Some(o)
    requires !o.deleting && !(o.spec.kind == "" && o.spec.nodeLabels.None?)
    ensures var r, want := Reconcile(w, lb, c), UpcomingWant(w.api, c.api, o);
            && (r.ok <==> NewMembersDistinct(c.sys.dev, lb, want))
            && (r.ok ==> SpecIsMet(r.c.sys.dev, lb, o.spec, UpcomingNodes(w.api, c.api)) && Carries(r.c.api.store)
                         && Describes(r.c.api.store.value.status, r.c.sys.dev))
  {
    var want := UpcomingWant(w.api, c.api, o);
    var labels := Nodes.LabelsFor(o.spec.kind, o.spec.nodeLabels);
    var s := Peek(w.dev, c.sys).sys;
    ReachesDrive(w, lb, c, o);
    ConfigureSucceedsIff(w.dev, s, lb, want);
    var r := Configure(w.dev, s, TasksFor(lb, want));
    if r.ok { RecordProtects(w, lb, Cluster(Later(c, 4).api, r.sys), o, want, labels); }
    if Reconcile(w, lb, c).ok { LivePassMeetsSpec(w, lb, c, o); }
  }

  /** A user who changes the ports while the device is being configured gets a status whose ports are
      the new ones and whose VIPs are the old ones. */
  lemma SpecChangeSplitsStatus(w: Worlds, lb: string, c: Cluster, o: Lb, spec: Spec, want: Want, labels: map<string, string>)
    requires c.api.store == Some(o) && w.api.env(c.api.clock) == [ChangeSpec(spec)] && spec.ports != want.ports
    requires w.api.fault(c.api.clock) == NoFault && Quiet(w.api, c.api.clock + 1) && !o.deleting
    ensures var r := Record(w, lb, c, o, want, labels);
            && r.ok && r.c.api.store.Some?
            && r.c.api.store.value.status.ports == spec.ports
            && r.c.api.store.value.status.ports != PortsOf(r.c.api.store.value.status.vips)
  {
    var changed := o.(spec := spec, version := c.api.rev + 1);
    var (a, got) := Fetch(w.api, c.api, c.sys);
    OneAct(c.api, ChangeSpec(spec), c.sys);
    assert got == Found(changed);
    var cur := changed.(status := NewStatus(lb, want, labels, changed));
    QuietArrival(w.api, a, c.sys);
    var (b, stored) := PutStatus(w.api, a, cur, c.sys);
    assert stored.Some? && stored.value.status == cur.status;
    QuietArrival(w.api, b, c.sys);
    StatusPortsAgreeIff(lb, want, labels, changed);
  }

  // ---------- Objects the finalizer does not protect yet

  /** From now on nobody but this controller acts; requests may fail. */
  ghost predicate Undisturbed(w: ApiWorld, clock: nat) {
    forall k: nat :: clock <= k ==> w.env(k) == []
  }

  lemma {:induction false} AbsentIsIgnored(w: Worlds, lb: string, c: Cluster, n: nat)
    requires Undisturbed(w.api, c.api.clock) && c.api.store.None?
    ensures var r := Life(w, lb, c, n); r.api.store.None? && r.sys == c.sys && c.api.clock <= r.api.clock
  {
    if n > 0 {
      AbsentIsIgnored(w, lb, c, n - 1);
    }
  }

  /** An object without finalizers that is deleted between its configure phase and the next request is
      gone at once, and however often the controller runs from then on, everything that was configured
      for it stays on the device. */
  lemma UnprotectedDeletionLeaks(w: Worlds, lb: string, c: Cluster, o: Lb, want: Want, labels: map<string, string>, n: nat)
    requires Faithful(w.dev) && c.api.store == Some(o) && o.finalizers == []
    requires w.api.env(c.api.clock) == [RequestDeletion] && Undisturbed(w.api, c.api.clock + 1)
    requires var s := Peek(w.dev, c.sys); s.ok && Configure(w.dev, s.sys, TasksFor(lb, want)).ok
    ensures var r := Drive(w, lb, c, o, want, labels);
            && !r.ok && r.c.api.store.None?
            && Life(w, lb, r.c, n).api.store.None?
            && Configured(Life(w, lb, r.c, n).sys.dev, lb, want)
  {
    var r := Configure(w.dev, Peek(w.dev, c.sys).sys, TasksFor(lb, want));
    ConfigureConverges(w.dev, Peek(w.dev, c.sys).sys, lb, want);
    var a := Arrive(w.api, c.api, r.sys);
    OneAct(c.api, RequestDeletion, r.sys);
    assert a.store.None?;
    var d := Drive(w, lb, c, o, want, labels);
    assert d.c.sys == r.sys && d.c.api.store.None? && c.api.clock + 1 <= d.c.api.clock;
    AbsentIsIgnored(w, lb, d.c, n);
  }

  /** A deleted object that lost this operator's finalizer but waits for another one is configured all
      over again by every later pass, and nothing is torn down any more. */
  lemma WaitingObjectIsConfiguredAgain(w: Worlds, lb: string, c: Cluster, o: Lb)
    requires Faithful(w.dev) && Quiet(w.api, c.api.clock) && c.api.store == Some(o)
    requires o.deleting && FINALIZER !in o.finalizers && !(o.spec.kind == "" && o.spec.nodeLabels.None?)
    requires var s := Peek(w.dev, c.sys);
             s.ok && Configure(w.dev, s.sys, TasksFor(lb, UpcomingWant(w.api, c.api, o))).ok
    ensures var r := Reconcile(w, lb, c); r.ok && SpecIsMet(r.c.sys.dev, lb, o.spec, UpcomingNodes(w.api, c.api))
  {
    var want := UpcomingWant(w.api, c.api, o);
    var labels := Nodes.LabelsFor(o.spec.kind, o.spec.nodeLabels);
    ReachesDrive(w, lb, c, o);
    ConfigureConverges(w.dev, Peek(w.dev, c.sys).sys, lb, want);
    var d := Cluster(Later(c, 4).api, Configure(w.dev, Peek(w.dev, c.sys).sys, TasksFor(lb, want)).sys);
    QuietArrival(w.api, d.api, d.sys);
    QuietArrival(w.api, Later(d, 1).api, d.sys);
    assert Record(w, lb, d, o, want, labels).ok && Record(w, lb, d, o, want, labels).c.sys == d.sys;
    ConfiguredMeetsSpec(d.sys.dev, lb, o.spec, UpcomingNodes(w.api, c.api));
  }
}
