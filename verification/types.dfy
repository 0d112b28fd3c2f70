/** The values that travel between the reconciler, the handlers and a provider
    (api/v1/externalloadbalancer_types.go). */
module Types {
  datatype Option<+T> = None | Some(value: T)

  datatype Monitor = Monitor(name: string, path: string, port: int, kind: string)

  datatype Node = Node(name: string, host: string, labels: map<string, string>)

  datatype PoolMember = PoolMember(node: Node, port: int)

  datatype Pool = Pool(name: string, members: seq<PoolMember>, monitor: string)

  datatype VIP = VIP(name: string, pool: string, ip: string, port: int)

  ghost predicate DistinctVips(vs: seq<VIP>) {
    forall i, j :: 0 <= i < j < |vs| ==> vs[i].name != vs[j].name
  }

  ghost predicate DistinctPools(ps: seq<Pool>) {
    forall i, j :: 0 <= i < j < |ps| ==> ps[i].name != ps[j].name
  }

  /** The pair by which a member is compared: node names and labels play no part. */
  datatype Key = Key(host: string, port: int)

  function KeyOf(m: PoolMember): Key {
    Key(m.node.host, m.port)
  }

  function Keys(ms: seq<PoolMember>): set<Key> {
    set m | m in ms :: KeyOf(m)
  }

  ghost predicate DistinctKeys(ms: seq<PoolMember>) {
    forall i, j :: 0 <= i < j < |ms| ==> KeyOf(ms[i]) != KeyOf(ms[j])
  }

  /** The members of `ms`, in order, whose key is not in `have`. */
  function Missing(ms: seq<PoolMember>, have: set<Key>): (r: seq<PoolMember>)
    ensures Keys(r) == Keys(ms) - have
    ensures forall m :: m in r ==> m in ms
    ensures DistinctKeys(ms) ==> DistinctKeys(r)
  {
    if ms == [] then []
    else
      var rest := Missing(ms[1..], have);
      assert Keys(ms) == {KeyOf(ms[0])} + Keys(ms[1..]) by { KeysFirst(ms); }
      if KeyOf(ms[0]) in have then rest
      else
        assert ([ms[0]] + rest)[1..] == rest;
        assert Keys([ms[0]] + rest) == {KeyOf(ms[0])} + Keys(rest) by { KeysFirst([ms[0]] + rest); }
        assert DistinctKeys(ms) ==> KeyOf(ms[0]) !in Keys(ms[1..]) by { DistinctFirst(ms); }
        assert DistinctKeys(ms) ==> DistinctKeys([ms[0]] + rest) by {
          if DistinctKeys(ms) {
            assert DistinctKeys(ms[1..]);
            DistinctCons(ms[0], rest);
          }
        }
        [ms[0]] + rest
  }

  lemma NothingMissing(ms: seq<PoolMember>, have: set<Key>)
    ensures Missing(ms, have) == [] <==> Keys(ms) <= have
  {
    var r := Missing(ms, have);
    assert r != [] ==> KeyOf(r[0]) in Keys(r);
    assert r == [] ==> Keys(r) == {};
  }

  lemma KeysFirst(ms: seq<PoolMember>)
    requires ms != []
    ensures Keys(ms) == {KeyOf(ms[0])} + Keys(ms[1..])
  {
    assert ms == [ms[0]] + ms[1..];
    forall k | k in Keys(ms) ensures k in {KeyOf(ms[0])} + Keys(ms[1..]) {
      var m :| m in ms && KeyOf(m) == k;
      assert m == ms[0] || m in ms[1..];
    }
  }

  lemma DistinctFirst(ms: seq<PoolMember>)
    requires ms != []
    ensures DistinctKeys(ms) ==> KeyOf(ms[0]) !in Keys(ms[1..])
  {
    forall m | DistinctKeys(ms) && m in ms[1..] ensures KeyOf(m) != KeyOf(ms[0]) {
      var j :| 0 <= j < |ms[1..]| && ms[1..][j] == m;
      assert ms[j + 1] == m;
    }
  }

  lemma DistinctCons(m: PoolMember, rest: seq<PoolMember>)
    requires DistinctKeys(rest) && KeyOf(m) !in Keys(rest)
    ensures DistinctKeys([m] + rest)
  {
    var ms := [m] + rest;
    forall i, j | 0 <= i < j < |ms| ensures KeyOf(ms[i]) != KeyOf(ms[j]) {
      assert ms[j] == rest[j - 1] && ms[j] in rest;
    }
  }

}
