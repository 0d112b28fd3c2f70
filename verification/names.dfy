/** The names the reconciler gives to the objects of one load balancer, and exactly when two of
    them coincide (internal/controller/externalloadbalancer_controller.go:288-340). */
module Names {
  import opened Decimal

  function MonitorName(lb: string): string {
    "Monitor-" + lb
  }

  function Stem(lb: string, port: int): string {
    lb + "-" + Itoa(port)
  }

  function PoolName(lb: string, port: int): string {
    "Pool-" + Stem(lb, port)
  }

  function VipName(lb: string, port: int): string {
    "VIP-" + Stem(lb, port)
  }

  /** The one way two different (name, port) pairs print alike: the dash of a negative port is
      taken for the separator. */
  predicate DashClash(a: string, p: int, b: string, q: int) {
    p < 0 && q == -p && b == a + "-"
  }

  /** If the text after the last separator is longer on the left, the left port is negative. */
  lemma LongerTail(a: string, p: int, b: string, q: int)
    requires Stem(a, p) == Stem(b, q)
    requires |Itoa(p)| > |Itoa(q)|
    ensures DashClash(a, p, b, q)
  {
    var s, u, v := Stem(a, p), Itoa(p), Itoa(q);
    var cut := |s| - |v|;
    assert s[cut..] == v && s[cut - 1] == '-';
    assert s[|s| - |u|..] == u;
    assert u[|u| - |v| - 1] == s[cut - 1];
    ItoaChars(p);
    assert |u| - |v| - 1 == 0 && p < 0;
    assert u[1..] == v;
    assert Itoa(-p) == v;
    ItoaInjective(-p, q);
    assert b == s[..cut - 1];
    assert s[..cut - 1] == a + "-";
  }

  lemma StemsCoincide(a: string, p: int, b: string, q: int)
    ensures Stem(a, p) == Stem(b, q)
            <==> (a == b && p == q) || DashClash(a, p, b, q) || DashClash(b, q, a, p)
  {
    if Stem(a, p) == Stem(b, q) {
      var s, u, v := Stem(a, p), Itoa(p), Itoa(q);
      if |u| > |v| {
        LongerTail(a, p, b, q);
      } else if |v| > |u| {
        LongerTail(b, q, a, p);
      } else {
        assert s[|s| - |u|..] == u && s[|s| - |v|..] == v;
        ItoaInjective(p, q);
        assert s[..|s| - |u| - 1] == a && s[..|s| - |v| - 1] == b;
      }
    }
    if DashClash(a, p, b, q) { ClashPrintsAlike(a, p, b, q); }
    if DashClash(b, q, a, p) { ClashPrintsAlike(b, q, a, p); }
  }

  lemma ClashPrintsAlike(a: string, p: int, b: string, q: int)
    requires DashClash(a, p, b, q)
    ensures Stem(a, p) == Stem(b, q)
  {
    var v := Itoa(q);
    assert Itoa(p) == "-" + v;
    assert b + "-" + v == a + "-" + ("-" + v);
  }

  /** For instance, as in the status of a load balancer "web" with port 443. */
  lemma NamesOfWeb()
    ensures MonitorName("web") == "Monitor-web" && PoolName("web", 443) == "Pool-web-443" && VipName("web", 443) == "VIP-web-443"
  {
    assert Digits(4) == "4" && Digits(44) == "44" && Digits(443) == "443";
  }

  lemma SamePrefix(pre: string, s: string, t: string)
    ensures pre + s == pre + t <==> s == t
  {
    assert (pre + s)[|pre|..] == s && (pre + t)[|pre|..] == t;
  }

  /** Over all names and ports: pool names coincide exactly for equal (name, port) or a dash clash. */
  lemma PoolNamesCoincide(a: string, p: int, b: string, q: int)
    ensures PoolName(a, p) == PoolName(b, q)
            <==> (a == b && p == q) || DashClash(a, p, b, q) || DashClash(b, q, a, p)
  {
    StemsCoincide(a, p, b, q);
    SamePrefix("Pool-", Stem(a, p), Stem(b, q));
  }

  lemma VipNamesCoincide(a: string, p: int, b: string, q: int)
    ensures VipName(a, p) == VipName(b, q)
            <==> (a == b && p == q) || DashClash(a, p, b, q) || DashClash(b, q, a, p)
  {
    StemsCoincide(a, p, b, q);
    SamePrefix("VIP-", Stem(a, p), Stem(b, q));
  }

  /** With non-negative ports, which is what a port is, names are injective. */
  lemma NamesInjective(a: string, p: nat, b: string, q: nat)
    ensures PoolName(a, p) == PoolName(b, q) <==> a == b && p == q
    ensures VipName(a, p) == VipName(b, q) <==> a == b && p == q
    ensures MonitorName(a) == MonitorName(b) <==> a == b
  {
    PoolNamesCoincide(a, p, b, q);
    VipNamesCoincide(a, p, b, q);
    assert MonitorName(a)[8..] == a && MonitorName(b)[8..] == b;
  }

  /** A negative port does collide: port -5 of "a" and port 5 of "a-". */
  lemma NegativePortsCollide()
    ensures PoolName("a", -5) == PoolName("a-", 5)
  {
    PoolNamesCoincide("a", -5, "a-", 5);
    assert DashClash("a", -5, "a-", 5);
  }

  /** Within one load balancer a port determines the name, whatever its sign. */
  lemma PortsInjective(lb: string, p: int, q: int)
    ensures PoolName(lb, p) == PoolName(lb, q) <==> p == q
    ensures VipName(lb, p) == VipName(lb, q) <==> p == q
  {
    PoolNamesCoincide(lb, p, lb, q);
    VipNamesCoincide(lb, p, lb, q);
    assert lb != lb + "-";
  }
}
