/** Which nodes a load balancer selects, and which node updates are worth reconciling
    (internal/controller/utility_functions.go and externalloadbalancer_controller.go:229-247). */
module Nodes {
  import opened Types

  datatype Condition = Condition(kind: string, status: string)

  datatype Address = Address(kind: string, address: string)

  /** A cluster node; its label map may be nil, which DeepEqual tells from an empty one. */
  datatype KNode = KNode(
    name: string,
    labels: Option<map<string, string>>,
    conditions: seq<Condition>,
    addresses: seq<Address>)

  const READY := Condition("Ready", "True")

  function Entries(labels: Option<map<string, string>>): map<string, string> {
    if labels.Some? then labels.value else map[]
  }

  /** The status of the last Ready condition, or "" if there is none. */
  function LastReady(cs: seq<Condition>): string {
    if cs == [] then ""
    else if cs[|cs| - 1].kind == "Ready" then cs[|cs| - 1].status
    else LastReady(cs[..|cs| - 1])
  }

  function LastAddress(xs: seq<Address>, kind: string): Option<string> {
    if xs == [] then None
    else if xs[|xs| - 1].kind == kind then Some(xs[|xs| - 1].address)
    else LastAddress(xs[..|xs| - 1], kind)
  }

  /** The last external address of a ready node, else its last internal one, else "". */
  function NodeIP(n: KNode): string {
    if READY !in n.conditions then ""
    else match LastAddress(n.addresses, "ExternalIP")
      case Some(ip) => ip
      case None => match LastAddress(n.addresses, "InternalIP") case Some(ip) => ip case None => ""
  }

  /** The last address of the kind. */
  predicate LastOfKind(xs: seq<Address>, kind: string, i: nat) {
    i < |xs| && xs[i].kind == kind && forall j :: i < j < |xs| ==> xs[j].kind != kind
  }

  predicate NoneOfKind(xs: seq<Address>, kind: string) {
    forall i :: 0 <= i < |xs| ==> xs[i].kind != kind
  }

  lemma LastOfFront(xs: seq<Address>, kind: string, i: nat)
    requires xs != []
    ensures LastOfKind(xs, kind, i)
            <==> if xs[|xs| - 1].kind == kind then i == |xs| - 1 else LastOfKind(xs[..|xs| - 1], kind, i)
  {
    var front := xs[..|xs| - 1];
    assert forall j :: 0 <= j < |front| ==> front[j] == xs[j];
    if xs[|xs| - 1].kind != kind && LastOfKind(front, kind, i) {
      forall j | i < j < |xs| ensures xs[j].kind != kind {
        if j < |front| { assert front[j] == xs[j]; }
      }
    }
  }

  lemma {:induction false} LastAddressIs(xs: seq<Address>, kind: string, i: nat)
    requires LastOfKind(xs, kind, i)
    ensures LastAddress(xs, kind) == Some(xs[i].address)
  {
    LastOfFront(xs, kind, i);
    if xs[|xs| - 1].kind != kind { LastAddressIs(xs[..|xs| - 1], kind, i); }
  }

  lemma {:induction false} NoAddressIs(xs: seq<Address>, kind: string)
    requires NoneOfKind(xs, kind)
    ensures LastAddress(xs, kind) == None
  {
    if xs != [] { NoAddressIs(xs[..|xs| - 1], kind); }
  }

  lemma {:induction false} SomeIsLast(xs: seq<Address>, kind: string) returns (i: nat)
    requires !NoneOfKind(xs, kind)
    ensures LastOfKind(xs, kind, i) && LastAddress(xs, kind) == Some(xs[i].address)
  {
    i := |xs| - 1;
    if xs[i].kind != kind {
      var k: nat :| k < |xs| && xs[k].kind == kind;
      assert xs[..i][k] == xs[k];
      i := SomeIsLast(xs[..i], kind);
      LastOfFront(xs, kind, i);
    }
  }

  /** Said by positions: nothing for a node that is not ready, otherwise the last external address, the
      last internal one if there is none, and nothing if there is neither. */
  ghost predicate IsNodeIP(n: KNode, ip: string) {
    if forall c :: c in n.conditions ==> c.kind != "Ready" || c.status != "True" then ip == ""
    else if !NoneOfKind(n.addresses, "ExternalIP") then
      forall i: nat :: LastOfKind(n.addresses, "ExternalIP", i) ==> ip == n.addresses[i].address
    else if !NoneOfKind(n.addresses, "InternalIP") then
      forall i: nat :: LastOfKind(n.addresses, "InternalIP", i) ==> ip == n.addresses[i].address
    else ip == ""
  }

  /** There is exactly one such address. */
  lemma NodeIPIs(n: KNode, ip: string)
    ensures IsNodeIP(n, ip) <==> ip == NodeIP(n)
  {
    var xs := n.addresses;
    ReadyIs(n.conditions);
    if NoneOfKind(xs, "ExternalIP") {
      NoAddressIs(xs, "ExternalIP");
      if NoneOfKind(xs, "InternalIP") {
        NoAddressIs(xs, "InternalIP");
      } else {
        var i := SomeIsLast(xs, "InternalIP");
        forall j: nat | LastOfKind(xs, "InternalIP", j) ensures j == i {}
      }
    } else {
      var i := SomeIsLast(xs, "ExternalIP");
      forall j: nat | LastOfKind(xs, "ExternalIP", j) ensures j == i {}
    }
  }

  lemma ReadyIs(cs: seq<Condition>)
    ensures READY in cs <==> !forall c :: c in cs ==> c.kind != "Ready" || c.status != "True"
  {
    forall c | c in cs && c.kind == "Ready" && c.status == "True" ensures c == READY {}
  }

  method GetNodeIP(n: KNode) returns (ip: string)
    ensures ip == NodeIP(n) && IsNodeIP(n, ip)
  {
    var nodeReady := false;
    var nodeIPs: map<string, string> := map[];
    for i := 0 to |n.conditions|
      invariant nodeReady <==> READY in n.conditions[..i]
    {
      assert n.conditions[..i + 1] == n.conditions[..i] + [n.conditions[i]];
      if n.conditions[i].kind == "Ready" && n.conditions[i].status == "True" {
        nodeReady := true;
      }
    }
    assert n.conditions[..|n.conditions|] == n.conditions;
    for i := 0 to |n.addresses|
      invariant !nodeReady ==> nodeIPs == map[]
      invariant nodeReady ==> forall k :: k in nodeIPs <==> LastAddress(n.addresses[..i], k).Some?
      invariant forall k :: k in nodeIPs ==> LastAddress(n.addresses[..i], k) == Some(nodeIPs[k])
    {
      assert n.addresses[..i + 1][..i] == n.addresses[..i];
      if nodeReady {
        nodeIPs := nodeIPs[n.addresses[i].kind := n.addresses[i].address];
      }
    }
    assert n.addresses[..|n.addresses|] == n.addresses;
    if "ExternalIP" in nodeIPs {
      ip := nodeIPs["ExternalIP"];
    } else if "InternalIP" in nodeIPs {
      ip := nodeIPs["InternalIP"];
    } else {
      ip := "";
    }
    NodeIPIs(n, ip);
  }

  /** The update is let through by the event filter. */
  predicate Noticed(o: KNode, n: KNode) {
    LastReady(o.conditions) != LastReady(n.conditions) || NodeIP(o) != NodeIP(n) || o.labels != n.labels
  }

  /** Said by positions: the status of the last Ready condition, or "" if there is none. */
  ghost predicate IsLastReady(cs: seq<Condition>, status: string) {
    || (status == "" && forall i :: 0 <= i < |cs| ==> cs[i].kind != "Ready")
    || exists i :: 0 <= i < |cs| && cs[i] == Condition("Ready", status)
                   && forall j :: i < j < |cs| ==> cs[j].kind != "Ready"
  }

  lemma {:induction false} LastReadyIs(cs: seq<Condition>, status: string)
    ensures IsLastReady(cs, status) <==> status == LastReady(cs)
  {
    if cs != [] {
      var last, front := |cs| - 1, cs[..|cs| - 1];
      LastReadyIs(front, status);
      if cs[last].kind == "Ready" {
        assert cs[last] == Condition("Ready", cs[last].status);
      } else {
        assert forall i :: 0 <= i < last ==> front[i] == cs[i];
        if IsLastReady(front, status) && exists i :: 0 <= i < last && front[i].kind == "Ready" {
          var i :| 0 <= i < |front| && front[i] == Condition("Ready", status)
                   && forall j :: i < j < |front| ==> front[j].kind != "Ready";
          assert cs[i] == Condition("Ready", status);
        }
      }
    }
  }

  lemma NoticedIs(o: KNode, n: KNode)
    ensures !Noticed(o, n)
            <==> (exists status :: IsLastReady(o.conditions, status) && IsLastReady(n.conditions, status))
                 && (exists ip :: IsNodeIP(o, ip) && IsNodeIP(n, ip)) && o.labels == n.labels
  {
    LastReadyIs(o.conditions, LastReady(o.conditions));
    LastReadyIs(n.conditions, LastReady(n.conditions));
    NodeIPIs(o, NodeIP(o));
    NodeIPIs(n, NodeIP(n));
    if status :| IsLastReady(o.conditions, status) && IsLastReady(n.conditions, status) {
      LastReadyIs(o.conditions, status);
      LastReadyIs(n.conditions, status);
    }
    if ip :| IsNodeIP(o, ip) && IsNodeIP(n, ip) {
      NodeIPIs(o, ip);
      NodeIPIs(n, ip);
    }
  }

  method HasNodeChanged(o: KNode, n: KNode) returns (changed: bool)
    ensures changed <==> Noticed(o, n)
    ensures !changed <==> (exists status :: IsLastReady(o.conditions, status) && IsLastReady(n.conditions, status))
                          && (exists ip :: IsNodeIP(o, ip) && IsNodeIP(n, ip)) && o.labels == n.labels
  {
    NoticedIs(o, n);
    var oldCond, newCond := "", "";
    for i := 0 to |o.conditions|
      invariant oldCond == LastReady(o.conditions[..i])
    {
      assert o.conditions[..i + 1][..i] == o.conditions[..i];
      if o.conditions[i].kind == "Ready" {
        oldCond := o.conditions[i].status;
      }
    }
    assert o.conditions[..|o.conditions|] == o.conditions;
    for i := 0 to |n.conditions|
      invariant newCond == LastReady(n.conditions[..i])
    {
      assert n.conditions[..i + 1][..i] == n.conditions[..i];
      if n.conditions[i].kind == "Ready" {
        newCond := n.conditions[i].status;
      }
    }
    assert n.conditions[..|n.conditions|] == n.conditions;
    var oldIP := GetNodeIP(o);
    var newIP := GetNodeIP(n);
    changed := !(oldCond == newCond && oldIP == newIP && o.labels == n.labels);
  }

  const ROLE := "node-role.kubernetes.io/"

  /** The labels asked of a node: its role, overridden by the extra labels. */
  function LabelsFor(kind: string, extra: Option<map<string, string>>): map<string, string> {
    (if kind != "" then map[ROLE + kind := ""] else map[]) + Entries(extra)
  }

  method ComputeLabels(kind: string, extra: Option<map<string, string>>) returns (labels: map<string, string>)
    ensures labels == LabelsFor(kind, extra)
  {
    labels := map[];
    if kind != "" {
      labels := labels[ROLE + kind := ""];
    }
    if extra.Some? {
      ghost var base, all := labels, extra.value;
      var todo := extra.value.Keys;
      while todo != {}
        invariant todo <= all.Keys
        invariant labels.Keys == base.Keys + (all.Keys - todo)
        invariant forall k :: k in labels ==> labels[k] == if k in all && k !in todo then all[k] else base[k]
        decreases todo
      {
        var k :| k in todo;
        labels := labels[k := extra.value[k]];
        todo := todo - {k};
      }
    }
  }

  /** Whether every wanted key is there; the values are not compared. */
  method ContainsLabels(has: map<string, string>, wanted: map<string, string>) returns (contained: bool)
    ensures contained <==> wanted.Keys <= has.Keys
  {
    var labels: map<string, string> := map[];
    var todo := wanted.Keys;
    while todo != {}
      invariant todo <= wanted.Keys
      invariant labels.Keys == (wanted.Keys - todo) * has.Keys
      invariant forall k :: k in labels ==> labels[k] == wanted[k]
      decreases todo
    {
      var k :| k in todo;
      if k in has {
        labels := labels[k := wanted[k]];
      }
      todo := todo - {k};
    }
    contained := wanted == labels;
    assert contained ==> wanted.Keys == labels.Keys;
    assert wanted.Keys <= has.Keys ==> wanted.Keys == labels.Keys;
  }

  /** A label query of the API: every wanted label with its value. */
  predicate Matches(n: KNode, labels: map<string, string>) {
    forall k :: k in labels ==> k in Entries(n.labels) && Entries(n.labels)[k] == labels[k]
  }

  function Matching(ns: seq<KNode>, labels: map<string, string>): seq<KNode> {
    if ns == [] then []
    else Matching(ns[..|ns| - 1], labels) + (if Matches(ns[|ns| - 1], labels) then [ns[|ns| - 1]] else [])
  }

  /** One entry for every true Ready condition among `cs`. */
  function Picks(n: KNode, cs: seq<Condition>, labels: map<string, string>): seq<Node> {
    if cs == [] then []
    else Picks(n, cs[..|cs| - 1], labels)
         + (if cs[|cs| - 1] == READY then [Node(n.name, NodeIP(n), labels)] else [])
  }

  function Eligible(ns: seq<KNode>, labels: map<string, string>): seq<Node> {
    if ns == [] then []
    else Eligible(ns[..|ns| - 1], labels) + Picks(ns[|ns| - 1], ns[|ns| - 1].conditions, labels)
  }

  /** The loop of the reconciler over the nodes that the label query returned. */
  method SelectNodes(ns: seq<KNode>, labels: map<string, string>) returns (nodes: seq<Node>)
    ensures nodes == Eligible(ns, labels)
  {
    nodes := [];
    for i := 0 to |ns|
      invariant nodes == Eligible(ns[..i], labels)
    {
      var n := ns[i];
      for j := 0 to |n.conditions|
        invariant nodes == Eligible(ns[..i], labels) + Picks(n, n.conditions[..j], labels)
      {
        assert n.conditions[..j + 1][..j] == n.conditions[..j];
        if n.conditions[j].kind == "Ready" && n.conditions[j].status == "True" {
          var host := GetNodeIP(n);
          nodes := nodes + [Node(n.name, host, labels)];
        }
      }
      assert n.conditions[..|n.conditions|] == n.conditions;
      assert ns[..i + 1][..i] == ns[..i];
    }
    assert ns[..|ns|] == ns;
  }

  lemma {:induction false} MatchingIs(ns: seq<KNode>, labels: map<string, string>, n: KNode)
    ensures n in Matching(ns, labels) <==> n in ns && Matches(n, labels)
  {
    if ns != [] {
      MatchingIs(ns[..|ns| - 1], labels, n);
      assert n in ns <==> n in ns[..|ns| - 1] || n == ns[|ns| - 1];
    }
  }

  lemma {:induction false} PicksIs(n: KNode, cs: seq<Condition>, labels: map<string, string>, x: Node)
    ensures x in Picks(n, cs, labels) <==> READY in cs && x == Node(n.name, NodeIP(n), labels)
  {
    if cs != [] {
      PicksIs(n, cs[..|cs| - 1], labels, x);
      assert READY in cs <==> READY in cs[..|cs| - 1] || READY == cs[|cs| - 1];
    }
  }

  lemma {:induction false} EligibleIs(ns: seq<KNode>, labels: map<string, string>, x: Node)
    ensures x in Eligible(ns, labels) <==>
              exists n :: n in ns && READY in n.conditions && x == Node(n.name, NodeIP(n), labels)
  {
    if ns != [] {
      var front, last := ns[..|ns| - 1], ns[|ns| - 1];
      EligibleIs(front, labels, x);
      PicksIs(last, last.conditions, labels, x);
      assert forall n :: n in ns <==> n in front || n == last;
    }
  }

  /** The ready nodes that have the role of the type, unless the extra labels redefine it, and all
      extra labels. */
  predicate Qualifies(n: KNode, kind: string, extra: Option<map<string, string>>) {
    && READY in n.conditions
    && (kind != "" && ROLE + kind !in Entries(extra) ==>
          ROLE + kind in Entries(n.labels) && Entries(n.labels)[ROLE + kind] == "")
    && (forall k :: k in Entries(extra) ==> k in Entries(n.labels) && Entries(n.labels)[k] == Entries(extra)[k])
  }

  /** A pass selects exactly the qualifying nodes, each with its address. */
  lemma SelectionIs(ns: seq<KNode>, kind: string, extra: Option<map<string, string>>, x: Node)
    ensures var labels := LabelsFor(kind, extra);
            x in Eligible(Matching(ns, labels), labels) <==>
              exists n :: n in ns && Qualifies(n, kind, extra) && x == Node(n.name, NodeIP(n), labels)
  {
    var labels := LabelsFor(kind, extra);
    EligibleIs(Matching(ns, labels), labels, x);
    forall n ensures n in Matching(ns, labels) && READY in n.conditions <==> n in ns && Qualifies(n, kind, extra) {
      MatchingIs(ns, labels, n);
      assert Matches(n, labels) && READY in n.conditions <==> Qualifies(n, kind, extra) by {
        assert labels.Keys == (if kind != "" then {ROLE + kind} else {}) + Entries(extra).Keys;
        if kind != "" && ROLE + kind !in Entries(extra) {
          assert labels[ROLE + kind] == "";
        }
      }
    }
  }

  /** The documentation says that extra labels are used instead of the type. They are so exactly if
      there is no type or they name its role themselves. */
  lemma ExtraLabelsReplaceTypeIff(kind: string, extra: map<string, string>)
    ensures LabelsFor(kind, Some(extra)) == extra <==> kind == "" || ROLE + kind in extra
  {
    assert kind != "" ==> ROLE + kind in LabelsFor(kind, Some(extra));
  }

  lemma {:induction false} MatchingJoins(ms: seq<KNode>, ns: seq<KNode>, labels: map<string, string>)
    ensures Matching(ms + ns, labels) == Matching(ms, labels) + Matching(ns, labels)
    decreases |ns|
  {
    if ns == [] {
      assert ms + ns == ms;
    } else {
      assert (ms + ns)[..|ms + ns| - 1] == ms + ns[..|ns| - 1];
      MatchingJoins(ms, ns[..|ns| - 1], labels);
    }
  }

  lemma {:induction false} EligibleConcat(ms: seq<KNode>, ns: seq<KNode>, labels: map<string, string>)
    ensures Eligible(ms + ns, labels) == Eligible(ms, labels) + Eligible(ns, labels)
    decreases |ns|
  {
    if ns == [] {
      assert ms + ns == ms;
    } else {
      assert (ms + ns)[..|ms + ns| - 1] == ms + ns[..|ns| - 1];
      EligibleConcat(ms, ns[..|ns| - 1], labels);
    }
  }

  /** A pass selects node by node, in the order of the list. */
  lemma EligibleJoins(ms: seq<KNode>, ns: seq<KNode>, labels: map<string, string>)
    ensures Eligible(Matching(ms + ns, labels), labels)
            == Eligible(Matching(ms, labels), labels) + Eligible(Matching(ns, labels), labels)
  {
    MatchingJoins(ms, ns, labels);
    EligibleConcat(Matching(ms, labels), Matching(ns, labels), labels);
  }

  /** A matching node is listed once for each of its true Ready conditions. */
  lemma EligibleOfOne(n: KNode, labels: map<string, string>)
    ensures Eligible(Matching([n], labels), labels)
            == if Matches(n, labels) then seq(multiset(n.conditions)[READY], _ => Node(n.name, NodeIP(n), labels)) else []
  {
    assert [n][..0] == [];
    PicksAre(n, n.conditions, labels);
    TruesCount(n.conditions);
  }

  lemma {:induction false} TruesCount(cs: seq<Condition>)
    ensures Trues(cs) == multiset(cs)[READY]
  {
    if cs != [] {
      TruesCount(cs[..|cs| - 1]);
      assert cs == cs[..|cs| - 1] + [cs[|cs| - 1]];
    }
  }

  // ---------- What the filter may hide

  predicate OneReady(cs: seq<Condition>) {
    forall i, j :: 0 <= i < j < |cs| ==> cs[i].kind != "Ready" || cs[j].kind != "Ready"
  }

  /** The part of the selection that one node contributes. */
  function Share(n: KNode, labels: map<string, string>): seq<Node> {
    if Matches(n, labels) then Picks(n, n.conditions, labels) else []
  }

  /** How many of the conditions are a true Ready condition. */
  function Trues(cs: seq<Condition>): nat {
    if cs == [] then 0 else Trues(cs[..|cs| - 1]) + (if cs[|cs| - 1] == READY then 1 else 0)
  }

  lemma {:induction false} PicksAre(n: KNode, cs: seq<Condition>, labels: map<string, string>)
    ensures Picks(n, cs, labels) == seq(Trues(cs), _ => Node(n.name, NodeIP(n), labels))
  {
    if cs != [] { PicksAre(n, cs[..|cs| - 1], labels); }
  }

  lemma {:induction false} TruesOfOne(cs: seq<Condition>)
    requires OneReady(cs)
    ensures Trues(cs) == if LastReady(cs) == "True" then 1 else 0
  {
    if cs != [] {
      var front := cs[..|cs| - 1];
      TruesOfOne(front);
      if cs[|cs| - 1].kind == "Ready" { NoneReady(front); }
    }
  }

  lemma {:induction false} NoneReady(cs: seq<Condition>)
    requires forall i :: 0 <= i < |cs| ==> cs[i].kind != "Ready"
    ensures Trues(cs) == 0
  {
    if cs != [] { NoneReady(cs[..|cs| - 1]); }
  }

  /** An update that the filter hides leaves a load balancer's selection alone exactly if the node is
      none of its nodes or has as many true Ready conditions as before. */
  lemma HiddenIsIrrelevantIff(o: KNode, n: KNode, labels: map<string, string>)
    requires o.name == n.name && !Noticed(o, n)
    ensures Share(o, labels) == Share(n, labels)
            <==> !Matches(n, labels) || Trues(o.conditions) == Trues(n.conditions)
  {
    PicksAre(o, o.conditions, labels);
    PicksAre(n, n.conditions, labels);
    if Matches(n, labels) && Trues(o.conditions) != Trues(n.conditions) {
      assert |Share(o, labels)| != |Share(n, labels)|;
    }
  }

  /** With one Ready condition per node, such an update changes no load balancer's selection. */
  lemma HiddenIsIrrelevant(o: KNode, n: KNode, labels: map<string, string>)
    requires o.name == n.name && OneReady(o.conditions) && OneReady(n.conditions)
    requires !Noticed(o, n)
    ensures Share(o, labels) == Share(n, labels)
  {
    TruesOfOne(o.conditions);
    TruesOfOne(n.conditions);
    HiddenIsIrrelevantIff(o, n, labels);
  }

  /** With two Ready conditions on a node the filter does hide a relevant update. */
  lemma TwoReadyConditionsHideAChange()
    ensures var o := KNode("n", None, [READY, Condition("Ready", "False")], []);
            var n := KNode("n", None, [Condition("Ready", "False")], []);
            !Noticed(o, n) && Share(o, map[]) != Share(n, map[])
  {
    var o := KNode("n", None, [READY, Condition("Ready", "False")], []);
    assert o.conditions[..1] == [READY] && o.conditions[..1][..0] == [];
    assert Picks(o, o.conditions[..1], map[]) == [Node("n", NodeIP(o), map[])];
    var cs := [Condition("Ready", "False")];
    assert cs[..0] == [];
  }

  /** The map function's looser label test never misses a node that the label query returns. */
  lemma ShareNeedsKeys(n: KNode, labels: map<string, string>)
    requires Share(n, labels) != []
    ensures labels.Keys <= Entries(n.labels).Keys
  {
  }
}
