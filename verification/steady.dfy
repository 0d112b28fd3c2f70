/** Watches, queue, passes and the device together: whatever happened before, once nothing is pending,
    queued or in progress, the device is as the load balancers and the nodes are now
    (internal/controller/externalloadbalancer_controller.go:115-537). */
module Steady {
  import opened Types
  import Names
  import opened Devices
  import opened Passes
  import opened Isolation
  import opened Nodes
  import opened Triggers
  import Lifecycle

  /** What a pass takes from its object. `teardown` holds of an object that is being deleted and carries
      the finalizer. */
  datatype Frame = Frame(spec: Lifecycle.Spec, teardown: bool)

  /** The controller's state, the objects in full, what the pass in progress read (`flags` being all that
      its object said of teardown since), what the last successful passes worked from, and the device. */
  datatype System = System(
    base: State,
    specs: map<Ref, Frame>,
    reading: Frame,
    flags: set<bool>,
    done: map<Ref, Frame>,
    sys: Sys)

  function WantFrom(f: Frame, nodes: seq<Node>): Want {
    Lifecycle.WantOf(f.spec, nodes)
  }

  ghost predicate PortsAreReal(f: Frame) {
    forall p :: p in f.spec.ports ==> 0 <= p
  }

  /** The list has exactly these names with these addresses. */
  ghost predicate Reflects(nodes: seq<Node>, chosen: map<string, string>) {
    && (forall n :: n in nodes ==> n.name in chosen && chosen[n.name] == n.host)
    && forall k :: k in chosen ==> exists n :: n in nodes && n.name == k && n.host == chosen[k]
  }

  // ---------- Steps

  /** The nodes change, an event is delivered, or the pass lists its nodes. */
  ghost predicate ClusterStep(a: System, b: System) {
    && ((exists n :: SetNode(a.base, b.base, n)) || (exists n :: DropNode(a.base, b.base, n))
        || (exists k :: Deliver(a.base, b.base, k)) || ListNodes(a.base, b.base))
    && b == a.(base := b.base)
  }

  predicate Working(s: State, r: Ref) {
    !s.work.Idle? && s.work.ref == r
  }

  /** The part of the object that decides on its nodes. */
  predicate IsItemOf(i: Item, f: Frame) {
    i.kind == f.spec.kind && i.nodeLabels == f.spec.nodeLabels
  }

  /** A load balancer is created or changed in any way, deletion requests included. */
  ghost predicate SetSpec(a: System, b: System, i: Item, f: Frame) {
    && SetItem(a.base, b.base, i) && IsItemOf(i, f) && PortsAreReal(f)
    && b == a.(base := b.base, specs := a.specs[i.ref := f],
               flags := if Working(a.base, i.ref) then a.flags + {f.teardown} else a.flags)
  }

  ghost predicate DropSpec(a: System, b: System, r: Ref) {
    DropItem(a.base, b.base, r) && b == a.(base := b.base)
  }

  ghost predicate BeginPass(a: System, b: System, r: Ref) {
    && Start(a.base, b.base, r)
    && if b.base.work.Idle? then b == a.(base := b.base)
       else r in a.specs && b == a.(base := b.base, reading := a.specs[r], flags := {a.specs[r].teardown})
  }

  /** The pass ends without error: it worked from what it read and from the nodes it listed, and tore
      down or not as the object said when it was read again. */
  ghost predicate FinishPass(w: World, a: System, b: System, nodes: seq<Node>, deleting: bool, from: Sys) {
    && Succeed(a.base, b.base) && Reflects(nodes, a.base.work.chosen) && deleting in a.flags
    && Lifecycle.SameDevice(a.sys, from)
    && var r := Pass(w, from, a.base.work.ref.name, WantFrom(a.reading, nodes), deleting);
       r.ok && b == a.(base := b.base, done := a.done[a.base.work.ref := a.reading.(teardown := deleting)], sys := r.sys)
  }

  /** The pass fails, wherever that is; what it did on the device until then stays. */
  ghost predicate AbortPass(w: World, a: System, b: System, want: Want, deleting: bool, from: Sys) {
    && Fail(a.base, b.base) && RealPorts(want) && Lifecycle.SameDevice(a.sys, from)
    && b == a.(base := b.base, sys := Pass(w, from, a.base.work.ref.name, want, deleting).sys)
  }

  ghost predicate Moves(w: World, a: System, b: System) {
    || ClusterStep(a, b)
    || (exists i, f :: SetSpec(a, b, i, f))
    || (exists r :: DropSpec(a, b, r))
    || (exists r :: BeginPass(a, b, r))
    || (exists nodes, deleting, from :: FinishPass(w, a, b, nodes, deleting, from))
    || (exists want, deleting, from :: AbortPass(w, a, b, want, deleting, from))
  }

  ghost predicate Starts(a: System) {
    Init(a.base) && a.specs == map[] && a.done == map[]
  }

  // ---------- What the device holds for one load balancer

  /** Configured for the nodes, or free of its objects. */
  ghost predicate Stands(d: Device, lb: string, f: Frame, chosen: map<string, string>) {
    if f.teardown then forall id :: Owns(lb, WantFrom(f, []), id) ==> !Has(d, id)
    else forall nodes :: Reflects(nodes, chosen) ==> Configured(d, lb, WantFrom(f, nodes))
  }

  lemma ConfiguredByHosts(d: Device, lb: string, f: Frame, m: seq<Node>, n: seq<Node>, chosen: map<string, string>)
    requires Reflects(m, chosen) && Reflects(n, chosen) && Configured(d, lb, WantFrom(f, m))
    ensures Configured(d, lb, WantFrom(f, n))
  {
    forall p | p in f.spec.ports ensures (set x | x in m :: Key(x.host, p)) == (set x | x in n :: Key(x.host, p)) {
      SameHosts(m, n, chosen, p);
      SameHosts(n, m, chosen, p);
    }
  }

  lemma SameHosts(m: seq<Node>, n: seq<Node>, chosen: map<string, string>, p: int)
    requires Reflects(m, chosen) && Reflects(n, chosen)
    ensures (set x | x in m :: Key(x.host, p)) <= set x | x in n :: Key(x.host, p)
  {
    forall x | x in m ensures exists y :: y in n && y.host == x.host {
      assert x.name in chosen;
    }
  }

  lemma PassStands(w: World, s: Sys, lb: string, f: Frame, nodes: seq<Node>, deleting: bool, chosen: map<string, string>)
    requires Faithful(w) && Reflects(nodes, chosen) && Pass(w, s, lb, WantFrom(f, nodes), deleting).ok
    ensures Stands(Pass(w, s, lb, WantFrom(f, nodes), deleting).sys.dev, lb, f.(teardown := deleting), chosen)
  {
    var want := WantFrom(f, nodes);
    var d := Pass(w, s, lb, want, deleting).sys.dev;
    if deleting {
      forall id | Owns(lb, WantFrom(f.(teardown := true), []), id) ensures !Has(d, id) {
        assert Owns(lb, want, id);
        DeletingPassRemoves(w, s, lb, want, id);
      }
    } else {
      ConfigureConverges(w, s, lb, want);
      forall ns | Reflects(ns, chosen) ensures Configured(d, lb, WantFrom(f.(teardown := false), ns)) {
        ConfiguredByHosts(d, lb, f, nodes, ns, chosen);
      }
    }
  }

  lemma ConfiguredAgrees(d: Device, e: Device, lb: string, want: Want)
    requires AgreeOn(d, e, lb) && RealPorts(want) && Configured(d, lb, want)
    ensures Configured(e, lb, want)
  {
    forall p | p in want.ports
      ensures SameAt(d, e, PoolId(Names.PoolName(lb, p))) && SameAt(d, e, VipId(Names.VipName(lb, p)))
    {
    }
  }

  lemma StandsStays(d: Device, e: Device, lb: string, f: Frame, chosen: map<string, string>)
    requires AgreeOn(d, e, lb) && PortsAreReal(f) && Stands(d, lb, f, chosen)
    ensures Stands(e, lb, f, chosen)
  {
    if f.teardown {
      forall id | Owns(lb, WantFrom(f, []), id) ensures !Has(e, id) {
        assert SameAt(d, e, id);
      }
    } else {
      forall nodes | Reflects(nodes, chosen) ensures Configured(e, lb, WantFrom(f, nodes)) {
        ConfiguredAgrees(d, e, lb, WantFrom(f, nodes));
      }
    }
  }

  // ---------- The invariant

  /** The pass in progress reads what the object says, or the last one worked from it and stands. */
  ghost predicate Settled(a: System, i: Item) {
    && i.ref in a.specs
    && if Working(a.base, i.ref) then a.reading == a.specs[i.ref] && a.flags == {a.specs[i.ref].teardown}
       else
         && i.ref in a.done && a.done[i.ref] == a.specs[i.ref] && i.ref in a.base.applied
         && Stands(a.sys.dev, i.ref.name, a.done[i.ref], a.base.applied[i.ref])
  }

  ghost predicate Inv(a: System) {
    && Covered(a.base)
    && (forall i :: i in a.base.lbs ==> 
         i.ref in a.specs && IsItemOf(i, a.specs[i.ref]) && PortsAreReal(a.specs[i.ref]))
    && (!a.base.work.Idle? ==> PortsAreReal(a.reading))
    && (forall i :: i in a.base.lbs && ValidItem(i) ==> Due(a.base, i) || Settled(a, i))
    && forall i :: i in a.base.lbs && Namesake(a.base, i) ==> Due(a.base, i)
  }

  /** Another object of this name is being worked on. */
  predicate Namesake(s: State, i: Item) {
    !s.work.Idle? && s.work.ref != i.ref && s.work.ref.name == i.ref.name
  }

  lemma ClusterStepKeeps(a: System, b: System)
    requires Inv(a) && ClusterStep(a, b)
    ensures Inv(b)
  {
    NextCovers(a.base, b.base);
    forall i | i in a.base.lbs ensures Due(a.base, i) ==> Due(b.base, i) {
      ClusterStepKeepsDue(a.base, b.base, i);
    }
    forall i | i in b.base.lbs && Settled(a, i) ensures Settled(b, i) {}
  }

  lemma ClusterStepKeepsDue(s: State, t: State, i: Item)
    requires (exists n :: SetNode(s, t, n)) || (exists n :: DropNode(s, t, n)) || (exists k :: Deliver(s, t, k)) || ListNodes(s, t)
    requires DistinctNames(s.lbs) && i in s.lbs
    ensures Due(s, i) ==> Due(t, i)
  {
    if k: nat :| Deliver(s, t, k) {
      if Due(s, i) { DueIsDelivered(s, t, k, i); }
    } else {
      DueSurvives(s, t, i);
    }
  }

  lemma SetSpecKeeps(a: System, b: System, i: Item, f: Frame)
    requires Inv(a) && SetSpec(a, b, i, f)
    ensures Inv(b)
  {
    NextCovers(a.base, b.base);
    forall j | j in b.base.lbs ensures j.ref == i.ref ==> Due(b.base, j)
      ensures j.ref != i.ref ==> j in a.base.lbs && (Due(a.base, j) ==> Due(b.base, j)) && (Settled(a, j) ==> Settled(b, j))
    {
      DueStays(a.base, b.base, LbEvent(i.ref), j);
    }
  }

  lemma DropSpecKeeps(a: System, b: System, r: Ref)
    requires Inv(a) && DropSpec(a, b, r)
    ensures Inv(b)
  {
    NextCovers(a.base, b.base);
    forall j | j in b.base.lbs
      ensures j in a.base.lbs && (Due(a.base, j) ==> Due(b.base, j)) && (Settled(a, j) ==> Settled(b, j))
    {
      DueStays(a.base, b.base, LbEvent(r), j);
    }
  }

  lemma BeginPassKeeps(a: System, b: System, r: Ref)
    requires Inv(a) && BeginPass(a, b, r)
    ensures Inv(b)
  {
    NextCovers(a.base, b.base);
    forall j | j in b.base.lbs && j.ref != r
      ensures (Due(a.base, j) ==> Due(b.base, j)) && (Settled(a, j) ==> Settled(b, j))
    {
      DueSurvives(a.base, b.base, j);
    }
    if !b.base.work.Idle? {
      var i :| i in a.base.lbs && i.ref == r && Begin(a.base, b.base, i);
      forall j | j in b.base.lbs && j.ref != r ensures j.ref.name != r.name {
        OtherRefOtherName(a.base.lbs, i, j);
      }
    }
  }

  lemma OtherRefOtherName(items: seq<Item>, i: Item, j: Item)
    requires DistinctNames(items) && i in items && j in items && i.ref != j.ref
    ensures i.ref.name != j.ref.name
  {
    var k :| 0 <= k < |items| && items[k] == i;
    var l :| 0 <= l < |items| && items[l] == j;
    assert k != l;
  }

  /** A pass of one load balancer leaves the others standing. */
  lemma OthersStand(w: World, from: Sys, name: string, want: Want, deleting: bool, lb: string, f: Frame, chosen: map<string, string>)
    requires name != lb && RealPorts(want) && PortsAreReal(f) && Stands(from.dev, lb, f, chosen)
    ensures Stands(Pass(w, from, name, want, deleting).sys.dev, lb, f, chosen)
  {
    PassLeavesOthers(w, from, name, want, deleting, lb);
    StandsStays(from.dev, Pass(w, from, name, want, deleting).sys.dev, lb, f, chosen);
  }

  lemma FinishPassKeeps(w: World, a: System, b: System, nodes: seq<Node>, deleting: bool, from: Sys)
    requires Faithful(w) && Inv(a) && FinishPass(w, a, b, nodes, deleting, from)
    ensures Inv(b)
  {
    NextCovers(a.base, b.base);
    var r, want := a.base.work.ref, WantFrom(a.reading, nodes);
    PassStands(w, from, r.name, a.reading, nodes, deleting, a.base.work.chosen);
    forall i | i in b.base.lbs && ValidItem(i) ensures Due(b.base, i) || Settled(b, i) {
      DueSurvives(a.base, b.base, i);
      if !Due(a.base, i) && i.ref != r {
        OthersStand(w, from, r.name, want, deleting, i.ref.name, a.done[i.ref], a.base.applied[i.ref]);
      }
    }
  }

  lemma AbortPassKeeps(w: World, a: System, b: System, want: Want, deleting: bool, from: Sys)
    requires Inv(a) && AbortPass(w, a, b, want, deleting, from)
    ensures Inv(b)
  {
    NextCovers(a.base, b.base);
    var r := a.base.work.ref;
    forall i | i in b.base.lbs && ValidItem(i) ensures Due(b.base, i) || Settled(b, i) {
      DueSurvives(a.base, b.base, i);
      if !Due(a.base, i) && i.ref != r {
        OthersStand(w, from, r.name, want, deleting, i.ref.name, a.done[i.ref], a.base.applied[i.ref]);
      }
    }
  }

  lemma MovesKeep(w: World, a: System, b: System)
    requires Faithful(w) && Inv(a) && Moves(w, a, b)
    ensures Inv(b)
  {
    if ClusterStep(a, b) {
      ClusterStepKeeps(a, b);
    } else if i, f :| SetSpec(a, b, i, f) {
      SetSpecKeeps(a, b, i, f);
    } else if r :| DropSpec(a, b, r) {
      DropSpecKeeps(a, b, r);
    } else if r :| BeginPass(a, b, r) {
      BeginPassKeeps(a, b, r);
    } else if nodes, deleting, from :| FinishPass(w, a, b, nodes, deleting, from) {
      FinishPassKeeps(w, a, b, nodes, deleting, from);
    } else {
      var want, deleting, from :| AbortPass(w, a, b, want, deleting, from);
      AbortPassKeeps(w, a, b, want, deleting, from);
    }
  }

  ghost predicate Course(w: World, run: seq<System>) {
    run != [] && Starts(run[0]) && forall i :: 0 <= i < |run| - 1 ==> Moves(w, run[i], run[i + 1])
  }

  lemma {:induction false} CourseKeeps(w: World, run: seq<System>, n: nat)
    requires Faithful(w) && Course(w, run) && n < |run|
    ensures Inv(run[n])
  {
    if n > 0 {
      CourseKeeps(w, run, n - 1);
      assert Moves(w, run[n - 1], run[n - 1 + 1]);
      MovesKeep(w, run[n - 1], run[n]);
    }
  }

  lemma EligibleReflects(nodes: map<string, KNode>, ns: seq<KNode>, labels: map<string, string>)
    requires forall n :: n in ns <==> n.name in nodes && nodes[n.name] == n
    requires forall k :: k in nodes ==> nodes[k].name == k
    ensures Reflects(Eligible(Matching(ns, labels), labels), Chosen(nodes, labels))
  {
    var xs, chosen := Eligible(Matching(ns, labels), labels), Chosen(nodes, labels);
    forall x | x in xs ensures x.name in chosen && chosen[x.name] == x.host {
      EligibleIs(Matching(ns, labels), labels, x);
      ChosenIsEligible(nodes, ns, labels, x.name, x.host);
    }
    forall k | k in chosen ensures exists x :: x in xs && x.name == k && x.host == chosen[k] {
      ChosenIsEligible(nodes, ns, labels, k, chosen[k]);
    }
  }

  /** Whatever happened, with any faults, in any order: when no event is pending, nothing is queued and
      no pass runs, the device holds for every valid load balancer what its current spec says for the
      current nodes, or, if it is being torn down, none of its objects. */
  lemma RestIsRight(w: World, run: seq<System>, n: nat, i: Item, ns: seq<KNode>)
    requires Faithful(w) && Course(w, run) && n < |run|
    requires var s := run[n].base;
             && s.pending == [] && s.queue == {} && s.work == Idle && i in s.lbs && ValidItem(i)
             && forall x :: x in ns <==> x.name in s.nodes && s.nodes[x.name] == x
    ensures i.ref in run[n].specs && IsItemOf(i, run[n].specs[i.ref])
    ensures var f, d, lb := run[n].specs[i.ref], run[n].sys.dev, i.ref.name;
            if f.teardown then
              && !Has(d, MonitorId(Names.MonitorName(lb)))
              && forall p :: p in f.spec.ports ==>
                   !Has(d, PoolId(Names.PoolName(lb, p))) && !Has(d, VipId(Names.VipName(lb, p)))
            else Lifecycle.SpecIsMet(d, lb, f.spec, ns)
  {
    CourseKeeps(w, run, n);
    EligibleReflects(run[n].base.nodes, ns, LabelsOf(i));
    var f, d, lb := run[n].specs[i.ref], run[n].sys.dev, i.ref.name;
    if f.teardown {
      forall p | p in f.spec.ports
        ensures Owns(lb, WantFrom(f, []), PoolId(Names.PoolName(lb, p)))
        ensures Owns(lb, WantFrom(f, []), VipId(Names.VipName(lb, p)))
      {
      }
      assert Owns(lb, WantFrom(f, []), MonitorId(Names.MonitorName(lb)));
    } else {
      Lifecycle.ConfiguredMeetsSpec(d, lb, f.spec, ns);
    }
  }
}
