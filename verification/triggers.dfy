/** When a load balancer is reconciled again (SetupWithManager and the work queue behind it): node
    and load balancer events travel asynchronously, passes run one at a time, fail and are retried,
    and no change that matters is ever lost
    (internal/controller/externalloadbalancer_controller.go:232-247, 489-537). */
module Triggers {
  import opened Types
  import opened Nodes

  datatype Ref = Ref(namespace: string, name: string)

  /** A load balancer as far as node selection is concerned. */
  datatype Item = Item(ref: Ref, kind: string, nodeLabels: Option<map<string, string>>)

  function LabelsOf(i: Item): map<string, string> {
    LabelsFor(i.kind, i.nodeLabels)
  }

  /** Passes refuse an object with neither a type nor labels. */
  predicate ValidItem(i: Item) {
    !(i.kind == "" && i.nodeLabels.None?)
  }

  // ---------- The map function

  predicate Wants(i: Item, n: KNode) {
    LabelsOf(i).Keys <= Entries(n.labels).Keys
  }

  /** The node has the role of the type and every extra label, whatever their values. */
  lemma WantsIff(i: Item, n: KNode)
    ensures Wants(i, n) <==>
              && (i.kind != "" ==> ROLE + i.kind in Entries(n.labels))
              && forall k :: k in Entries(i.nodeLabels) ==> k in Entries(n.labels)
  {
    assert LabelsOf(i).Keys == (if i.kind != "" then {ROLE + i.kind} else {}) + Entries(i.nodeLabels).Keys;
  }

  /** The item is the first of its name, in list order, among those that want the node. */
  predicate FirstOfName(items: seq<Item>, n: KNode, k: nat)
    requires k < |items|
  {
    Wants(items[k], n) && forall j :: 0 <= j < k && Wants(items[j], n) ==> items[j].ref.name != items[k].ref.name
  }

  /** The requests for one node: names are deduplicated without regard to the namespace. */
  method MapNode(items: seq<Item>, n: KNode) returns (requests: seq<Ref>)
    ensures forall r :: r in requests <==>
              exists k :: 0 <= k < |items| && items[k].ref == r && FirstOfName(items, n, k)
  {
    requests := [];
    var lbToReconcile: set<string> := {};
    for i := 0 to |items|
      invariant forall name :: name in lbToReconcile <==>
                  exists k :: 0 <= k < i && Wants(items[k], n) && items[k].ref.name == name
      invariant forall r :: r in requests <==> exists k :: 0 <= k < i && items[k].ref == r && FirstOfName(items, n, k)
    {
      var lb := items[i];
      var labels := ComputeLabels(lb.kind, lb.nodeLabels);
      var wanted := ContainsLabels(Entries(n.labels), labels);
      assert wanted <==> Wants(lb, n);
      if wanted {
        ghost var before := requests;
        if lb.ref.name !in lbToReconcile {
          assert FirstOfName(items, n, i);
          lbToReconcile := lbToReconcile + {lb.ref.name};
          requests := requests + [lb.ref];
        } else {
          assert !FirstOfName(items, n, i);
        }
      }
    }
  }

  ghost predicate DistinctNames(items: seq<Item>) {
    forall i, j :: 0 <= i < j < |items| ==> items[i].ref.name != items[j].ref.name
  }

  /** The same requests as a set. */
  ghost function Requests(items: seq<Item>, n: KNode): set<Ref> {
    set k | 0 <= k < |items| && FirstOfName(items, n, k) :: items[k].ref
  }

  /** With distinct names, exactly the load balancers that want the node are requested. */
  lemma RequestsAreWants(items: seq<Item>, n: KNode, k: nat)
    requires DistinctNames(items) && k < |items|
    ensures items[k].ref in Requests(items, n) <==> Wants(items[k], n)
  {
    if Wants(items[k], n) {
      assert FirstOfName(items, n, k);
    }
    if items[k].ref in Requests(items, n) {
      var j :| 0 <= j < |items| && FirstOfName(items, n, j) && items[j].ref == items[k].ref;
      assert !(j < k) && !(k < j);
    }
  }

  /** Two load balancers of one name in different namespaces: the second is never requested. */
  lemma SameNameIsDropped(n: KNode)
    ensures var items := [Item(Ref("a", "lb"), "", Some(map[])), Item(Ref("b", "lb"), "", Some(map[]))];
            Wants(items[1], n) && items[1].ref !in Requests(items, n)
  {
    var items := [Item(Ref("a", "lb"), "", Some(map[])), Item(Ref("b", "lb"), "", Some(map[]))];
    assert Wants(items[0], n) && Wants(items[1], n);
    assert !FirstOfName(items, n, 1);
  }

  // ---------- The controller as a state machine

  /** What a watch delivers: a node before and after it (None where it does not exist), or a change of
      a load balancer. */
  datatype Event = NodeEvent(was: Option<KNode>, after: Option<KNode>) | LbEvent(ref: Ref)

  /** The pass in progress: the labels it read, then the nodes it listed with them. */
  datatype Work = Idle | Reading(ref: Ref, labels: map<string, string>) | Acting(ref: Ref, chosen: map<string, string>)

  /** `nodes` and `lbs` are the watched cache, `pending` the events not yet handled, `applied` the
      nodes (name to address) of each load balancer's last successful pass. */
  datatype State = State(
    nodes: map<string, KNode>,
    lbs: seq<Item>,
    pending: seq<Event>,
    queue: set<Ref>,
    work: Work,
    applied: map<Ref, map<string, string>>)

  /** The ready nodes selected by the labels, each with its address. */
  function Chosen(nodes: map<string, KNode>, labels: map<string, string>): map<string, string> {
    map n | n in nodes && Share(nodes[n], labels) != [] :: NodeIP(nodes[n])
  }

  function Lookup(nodes: map<string, KNode>, name: string): Option<KNode> {
    if name in nodes then Some(nodes[name]) else None
  }

  /** What one event puts into the queue: the filter applies to node updates only, and an update is
      mapped through the old and the new object. */
  ghost function Handle(items: seq<Item>, e: Event): set<Ref> {
    match e
    case LbEvent(r) => {r}
    case NodeEvent(None, None) => {}
    case NodeEvent(None, Some(n)) => Requests(items, n)
    case NodeEvent(Some(o), None) => Requests(items, o)
    case NodeEvent(Some(o), Some(n)) => if Noticed(o, n) then Requests(items, o) + Requests(items, n) else {}
  }

  // Steps of the cluster and its users.

  ghost predicate SetNode(s: State, t: State, n: KNode) {
    && OneReady(n.conditions)
    && t == s.(nodes := s.nodes[n.name := n],
               pending := s.pending + [NodeEvent(Lookup(s.nodes, n.name), Some(n))])
  }

  predicate DropNode(s: State, t: State, name: string) {
    && name in s.nodes
    && t == s.(nodes := s.nodes - {name}, pending := s.pending + [NodeEvent(Some(s.nodes[name]), None)])
  }

  ghost predicate SetItem(s: State, t: State, i: Item) {
    && DistinctNames(t.lbs)
    && t == s.(lbs := t.lbs, pending := s.pending + [LbEvent(i.ref)])
    && i in t.lbs
    && forall j: Item :: j.ref != i.ref ==> (j in t.lbs <==> j in s.lbs)
  }

  ghost predicate DropItem(s: State, t: State, r: Ref) {
    && DistinctNames(t.lbs)
    && t == s.(lbs := t.lbs, pending := s.pending + [LbEvent(r)])
    && forall j :: j in t.lbs <==> j in s.lbs && j.ref != r
  }

  // Steps of the controller.

  ghost predicate Deliver(s: State, t: State, k: nat) {
    && k < |s.pending|
    && t == s.(pending := s.pending[..k] + s.pending[k + 1..], queue := s.queue + Handle(s.lbs, s.pending[k]))
  }

  /** A pass begins: it reads its object, ends at once if that is gone, and fails if it is invalid. */
  ghost predicate Start(s: State, t: State, r: Ref) {
    && r in s.queue && s.work.Idle?
    && ((exists i :: i in s.lbs && i.ref == r && Begin(s, t, i))
        || ((forall i :: i in s.lbs ==> i.ref != r) && t == s.(queue := s.queue - {r})))
  }

  predicate Begin(s: State, t: State, i: Item) {
    if ValidItem(i) then t == s.(queue := s.queue - {i.ref}, work := Reading(i.ref, LabelsOf(i))) else t == s
  }

  predicate ListNodes(s: State, t: State) {
    && s.work.Reading?
    && t == s.(work := Acting(s.work.ref, Chosen(s.nodes, s.work.labels)))
  }

  predicate Succeed(s: State, t: State) {
    && s.work.Acting?
    && t == s.(work := Idle, applied := s.applied[s.work.ref := s.work.chosen])
  }

  /** An error anywhere in the pass puts the object back into the queue. */
  predicate Fail(s: State, t: State) {
    && !s.work.Idle?
    && t == s.(work := Idle, queue := s.queue + {s.work.ref})
  }

  ghost predicate Next(s: State, t: State) {
    || (exists n :: SetNode(s, t, n))
    || (exists n :: DropNode(s, t, n))
    || (exists i :: SetItem(s, t, i))
    || (exists r :: DropItem(s, t, r))
    || (exists k :: Deliver(s, t, k))
    || (exists r :: Start(s, t, r))
    || ListNodes(s, t)
    || Succeed(s, t)
    || Fail(s, t)
  }

  /** The controller starts with an empty queue; the watches first deliver what exists. */
  ghost predicate Init(s: State) {
    && s.nodes == map[] && s.lbs == [] && s.pending == [] && s.queue == {} && s.work == Idle && s.applied == map[]
  }

  /** Handling this event would put the load balancer into the queue. */
  predicate Concerns(e: Event, i: Item) {
    match e
    case LbEvent(r) => r == i.ref
    case NodeEvent(None, None) => false
    case NodeEvent(None, Some(n)) => Wants(i, n)
    case NodeEvent(Some(o), None) => Wants(i, o)
    case NodeEvent(Some(o), Some(n)) => Noticed(o, n) && (Wants(i, o) || Wants(i, n))
  }

  ghost predicate Due(s: State, i: Item) {
    i.ref in s.queue || exists k :: 0 <= k < |s.pending| && Concerns(s.pending[k], i)
  }

  /** The pass in progress, or the last one that succeeded, has the current selection. */
  predicate Current(s: State, i: Item) {
    if s.work.Reading? && s.work.ref == i.ref then s.work.labels == LabelsOf(i)
    else if s.work.Acting? && s.work.ref == i.ref then s.work.chosen == Chosen(s.nodes, LabelsOf(i))
    else i.ref in s.applied && s.applied[i.ref] == Chosen(s.nodes, LabelsOf(i))
  }

  ghost predicate Covered(s: State) {
    && DistinctNames(s.lbs)
    && (forall n :: n in s.nodes ==> s.nodes[n].name == n && OneReady(s.nodes[n].conditions))
    && forall i :: i in s.lbs && ValidItem(i) ==> Due(s, i) || Current(s, i)
  }

  // ---------- The selection of a pass

  lemma ShareIsSome(n: KNode, labels: map<string, string>)
    ensures Share(n, labels) != [] <==> Matches(n, labels) && READY in n.conditions
  {
    var x := Node(n.name, NodeIP(n), labels);
    PicksIs(n, n.conditions, labels, x);
    if Share(n, labels) != [] { PicksIs(n, n.conditions, labels, Share(n, labels)[0]); }
  }

  /** What the machine calls the selection is what a pass selects from a list of the same nodes. */
  lemma ChosenIsEligible(nodes: map<string, KNode>, ns: seq<KNode>, labels: map<string, string>, name: string, ip: string)
    requires forall n :: n in ns <==> n.name in nodes && nodes[n.name] == n
    requires forall k :: k in nodes ==> nodes[k].name == k
    ensures Node(name, ip, labels) in Eligible(Matching(ns, labels), labels)
            <==> name in Chosen(nodes, labels) && Chosen(nodes, labels)[name] == ip
  {
    var x := Node(name, ip, labels);
    EligibleIs(Matching(ns, labels), labels, x);
    if name in nodes {
      var n := nodes[name];
      MatchingIs(ns, labels, n);
      ShareIsSome(n, labels);
    }
    if x in Eligible(Matching(ns, labels), labels) {
      var n :| n in Matching(ns, labels) && READY in n.conditions && x == Node(n.name, NodeIP(n), labels);
      MatchingIs(ns, labels, n);
    }
  }

  // ---------- Node changes

  lemma NodesWithSameShare(s: map<string, KNode>, t: map<string, KNode>, name: string, labels: map<string, string>)
    requires s - {name} == t - {name}
    requires (if name in s then Share(s[name], labels) else []) == (if name in t then Share(t[name], labels) else [])
    requires name in s && name in t && Share(s[name], labels) != [] ==> NodeIP(s[name]) == NodeIP(t[name])
    ensures Chosen(s, labels) == Chosen(t, labels)
  {
    var a, b := Chosen(s, labels), Chosen(t, labels);
    forall n ensures (n in a <==> n in b) && (n in a ==> a[n] == b[n]) {
      if n != name { OtherNode(s, t, name, n); }
    }
    assert a.Keys == b.Keys;
  }

  lemma OtherNode(s: map<string, KNode>, t: map<string, KNode>, name: string, n: string)
    requires s - {name} == t - {name} && n != name
    ensures (n in s <==> n in t) && (n in s ==> s[n] == t[n])
  {
    assert n in s <==> n in s - {name};
    assert n in t <==> n in t - {name};
    if n in s { assert (s - {name})[n] == s[n] && (t - {name})[n] == t[n]; }
  }

  /** An event that does not concern the load balancer did not change its selection. */
  lemma UnconcernedNodeChange(s: State, name: string, after: Option<KNode>, i: Item)
    requires Covered(s) && (after.Some? ==> after.value.name == name && OneReady(after.value.conditions))
    requires name in s.nodes || after.Some?
    requires !Concerns(NodeEvent(Lookup(s.nodes, name), after), i)
    ensures var nodes := if after.Some? then s.nodes[name := after.value] else s.nodes - {name};
            Chosen(s.nodes, LabelsOf(i)) == Chosen(nodes, LabelsOf(i))
  {
    var nodes := if after.Some? then s.nodes[name := after.value] else s.nodes - {name};
    var labels := LabelsOf(i);
    assert s.nodes - {name} == nodes - {name};
    if name in s.nodes && after.Some? {
      if !Noticed(s.nodes[name], after.value) {
        HiddenIsIrrelevant(s.nodes[name], after.value, labels);
      }
    }
    if name in s.nodes && Share(s.nodes[name], labels) != [] { ShareNeedsKeys(s.nodes[name], labels); }
    if after.Some? && Share(after.value, labels) != [] { ShareNeedsKeys(after.value, labels); }
    NodesWithSameShare(s.nodes, nodes, name, labels);
  }

  lemma DueStays(s: State, t: State, e: Event, i: Item)
    requires t.pending == s.pending + [e] && s.queue <= t.queue
    ensures Due(s, i) ==> Due(t, i)
    ensures Concerns(e, i) ==> Due(t, i)
  {
    if Due(s, i) && i.ref !in s.queue {
      var k :| 0 <= k < |s.pending| && Concerns(s.pending[k], i);
      assert t.pending[k] == s.pending[k];
    }
    assert t.pending[|s.pending|] == e;
  }

  lemma NodeStepCovers(s: State, t: State, name: string, after: Option<KNode>)
    requires Covered(s) && (after.Some? ==> after.value.name == name && OneReady(after.value.conditions))
    requires name in s.nodes || after.Some?
    requires t == s.(nodes := if after.Some? then s.nodes[name := after.value] else s.nodes - {name},
                     pending := s.pending + [NodeEvent(Lookup(s.nodes, name), after)])
    ensures Covered(t)
  {
    var e := NodeEvent(Lookup(s.nodes, name), after);
    forall i | i in t.lbs && ValidItem(i) ensures Due(t, i) || Current(t, i) {
      DueStays(s, t, e, i);
      if !Concerns(e, i) {
        UnconcernedNodeChange(s, name, after, i);
      }
    }
  }

  // ---------- The other steps

  lemma ItemStepCovers(s: State, t: State, r: Ref)
    requires Covered(s) && DistinctNames(t.lbs)
    requires t == s.(lbs := t.lbs, pending := s.pending + [LbEvent(r)])
    requires forall j :: j in t.lbs ==> j in s.lbs || j.ref == r
    ensures Covered(t)
  {
    forall i | i in t.lbs && ValidItem(i) ensures Due(t, i) || Current(t, i) {
      DueStays(s, t, LbEvent(r), i);
    }
  }

  /** An event enqueues exactly the load balancers it concerns. */
  lemma HandledIffConcerned(items: seq<Item>, e: Event, i: Item)
    requires DistinctNames(items) && i in items
    ensures i.ref in Handle(items, e) <==> Concerns(e, i)
  {
    var k :| 0 <= k < |items| && items[k] == i;
    if e.NodeEvent? {
      if e.was.Some? { RequestsAreWants(items, e.was.value, k); }
      if e.after.Some? { RequestsAreWants(items, e.after.value, k); }
    }
  }

  /** Whoever the delivered event concerns is in the queue now. */
  lemma DueIsDelivered(s: State, t: State, k: nat, i: Item)
    requires DistinctNames(s.lbs) && i in s.lbs && Deliver(s, t, k) && Due(s, i)
    ensures Due(t, i)
  {
    if i.ref !in s.queue {
      var j :| 0 <= j < |s.pending| && Concerns(s.pending[j], i);
      if j == k {
        HandledIffConcerned(s.lbs, s.pending[k], i);
      } else {
        var at := if j < k then j else j - 1;
        assert t.pending[at] == s.pending[j];
      }
    }
  }

  lemma DeliverCovers(s: State, t: State, k: nat)
    requires Covered(s) && Deliver(s, t, k)
    ensures Covered(t)
  {
    forall i | i in t.lbs && ValidItem(i) ensures Due(t, i) || Current(t, i) {
      if Due(s, i) { DueIsDelivered(s, t, k, i); }
    }
  }

  /** A step that does not take the load balancer out of the queue leaves it due. */
  lemma DueSurvives(s: State, t: State, i: Item)
    requires (i.ref in s.queue ==> i.ref in t.queue) && s.pending <= t.pending
    ensures Due(s, i) ==> Due(t, i)
  {
    if Due(s, i) && i.ref !in s.queue {
      var k :| 0 <= k < |s.pending| && Concerns(s.pending[k], i);
      assert t.pending[k] == s.pending[k];
    }
  }

  lemma StartCovers(s: State, t: State, r: Ref)
    requires Covered(s) && Start(s, t, r)
    ensures Covered(t)
  {
    forall i | i in t.lbs && ValidItem(i) ensures Due(t, i) || Current(t, i) {
      if i.ref == r {
        var j :| j in s.lbs && j.ref == r && Begin(s, t, j);
        SameRefSameItem(s.lbs, i, j);
      } else if Due(s, i) && i.ref !in s.queue {
        var k :| 0 <= k < |s.pending| && Concerns(s.pending[k], i);
        assert t.pending[k] == s.pending[k];
      }
    }
  }

  lemma SameRefSameItem(items: seq<Item>, i: Item, j: Item)
    requires DistinctNames(items) && i in items && j in items && i.ref == j.ref
    ensures i == j
  {
    var a :| 0 <= a < |items| && items[a] == i;
    var b :| 0 <= b < |items| && items[b] == j;
    assert !(a < b) && !(b < a);
  }

  lemma WorkCovers(s: State, t: State)
    requires Covered(s) && (ListNodes(s, t) || Succeed(s, t) || Fail(s, t))
    ensures Covered(t)
  {
    forall i | i in t.lbs && ValidItem(i) ensures Due(t, i) || Current(t, i) {
      if Due(s, i) && i.ref !in s.queue {
        var k :| 0 <= k < |s.pending| && Concerns(s.pending[k], i);
        assert t.pending[k] == s.pending[k];
      }
    }
  }

  lemma NextCovers(s: State, t: State)
    requires Covered(s) && Next(s, t)
    ensures Covered(t)
  {
    if n :| SetNode(s, t, n) {
      NodeStepCovers(s, t, n.name, Some(n));
    } else if n :| DropNode(s, t, n) {
      NodeStepCovers(s, t, n, None);
    } else if i :| SetItem(s, t, i) {
      ItemStepCovers(s, t, i.ref);
    } else if r :| DropItem(s, t, r) {
      ItemStepCovers(s, t, r);
    } else if k: nat :| Deliver(s, t, k) {
      DeliverCovers(s, t, k);
    } else if r :| Start(s, t, r) {
      StartCovers(s, t, r);
    } else {
      WorkCovers(s, t);
    }
  }

  ghost predicate Behaviour(run: seq<State>) {
    run != [] && Init(run[0]) && forall i :: 0 <= i < |run| - 1 ==> Next(run[i], run[i + 1])
  }

  lemma {:induction false} BehaviourCovers(run: seq<State>, n: nat)
    requires Behaviour(run) && n < |run|
    ensures Covered(run[n])
  {
    if n > 0 {
      BehaviourCovers(run, n - 1);
      assert Next(run[n - 1], run[n - 1 + 1]);
      NextCovers(run[n - 1], run[n]);
    }
  }

  /** In every reachable state each valid load balancer will be reconciled, is being reconciled with
      the current selection, or has it applied. Once nothing is pending, queued or in progress, the
      selection applied last is the current one. */
  lemma NoChangeIsMissed(run: seq<State>, n: nat, i: Item)
    requires Behaviour(run) && n < |run| && i in run[n].lbs && ValidItem(i)
    ensures Due(run[n], i) || Current(run[n], i)
    ensures run[n].pending == [] && run[n].queue == {} && run[n].work == Idle ==>
              i.ref in run[n].applied && run[n].applied[i.ref] == Chosen(run[n].nodes, LabelsOf(i))
  {
    BehaviourCovers(run, n);
  }
}
