/** How the F5 provider writes monitors, pools, VIPs and members as strings, what it reads back, and
    exactly when that is what was written (internal/controller/backend/f5/f5_controller.go). */
module F5 {
  import opened Types
  import opened Decimal
  import opened Names

  // ---------- Go's string functions

  function TrimLeft(s: string, cutset: string): string {
    if s != [] && s[0] in cutset then TrimLeft(s[1..], cutset) else s
  }

  function TrimRight(s: string, cutset: string): string {
    if s != [] && s[|s| - 1] in cutset then TrimRight(s[..|s| - 1], cutset) else s
  }

  /** Removes every leading and trailing character that occurs in the cutset. */
  function Trim(s: string, cutset: string): string {
    TrimRight(TrimLeft(s, cutset), cutset)
  }

  function Split(s: string, sep: char): (parts: seq<string>)
    ensures |parts| >= 1
  {
    if s == [] then [""]
    else
      var rest := Split(s[1..], sep);
      if s[0] == sep then [""] + rest else [[s[0]] + rest[0]] + rest[1..]
  }

  lemma {:induction false} TrimLeftPrefix(pre: string, s: string, cutset: string)
    requires forall c :: c in pre ==> c in cutset
    ensures TrimLeft(pre + s, cutset) == TrimLeft(s, cutset)
  {
    if pre == [] {
      assert pre + s == s;
    } else {
      assert (pre + s)[1..] == pre[1..] + s;
      TrimLeftPrefix(pre[1..], s, cutset);
    }
  }

  lemma {:induction false} TrimLeftShortens(s: string, cutset: string)
    ensures TrimLeft(s, cutset) == s || |TrimLeft(s, cutset)| < |s|
    ensures TrimLeft(s, cutset) == s <==> s == "" || s[0] !in cutset
  {
    if s != [] && s[0] in cutset { TrimLeftShortens(s[1..], cutset); }
  }

  lemma {:induction false} TrimRightShortens(s: string, cutset: string)
    ensures TrimRight(s, cutset) == s || |TrimRight(s, cutset)| < |s|
    ensures TrimRight(s, cutset) == s <==> s == "" || s[|s| - 1] !in cutset
  {
    if s != [] && s[|s| - 1] in cutset { TrimRightShortens(s[..|s| - 1], cutset); }
  }

  /** Trimming by a prefix's characters undoes the prefix exactly for names whose ends are not among
      them. */
  lemma TrimUndoesPrefix(pre: string, name: string)
    ensures Trim(pre + name, pre) == name <==>
              name == "" || (name[0] !in pre && name[|name| - 1] !in pre)
    ensures |Trim(pre + name, pre)| <= |name|
  {
    TrimLeftPrefix(pre, name, pre);
    TrimLeftShortens(name, pre);
    TrimRightShortens(TrimLeft(name, pre), pre);
  }

  lemma {:induction false} SplitFirst(a: string, sep: char, b: string)
    requires sep !in a
    ensures Split(a + [sep] + b, sep) == [a] + Split(b, sep)
  {
    var s := a + [sep] + b;
    if a == [] {
      assert s[0] == sep && s[1..] == b;
    } else {
      assert s[0] == a[0] && s[1..] == a[1..] + [sep] + b;
      SplitFirst(a[1..], sep, b);
      assert [a[0]] + a[1..] == a;
    }
  }

  lemma {:induction false} SplitNone(a: string, sep: char)
    requires sep !in a
    ensures Split(a, sep) == [a]
  {
    if a != [] {
      SplitNone(a[1..], sep);
      assert [a[0]] + a[1..] == a;
    }
  }

  /** A string with a separator has a first part, and that part is shorter than the string. */
  lemma {:induction false} SplitSome(s: string, sep: char) returns (a: string, b: string)
    requires sep in s
    ensures s == a + [sep] + b && sep !in a
    ensures Split(s, sep) == [a] + Split(b, sep)
  {
    if s[0] == sep {
      a, b := "", s[1..];
      assert s == a + [sep] + b;
    } else {
      assert sep in s[1..];
      var c;
      c, b := SplitSome(s[1..], sep);
      a := [s[0]] + c;
      assert s == a + [sep] + b;
    }
    SplitFirst(a, sep, b);
  }

  lemma DigitsHaveNo(i: int, c: char)
    requires !IsDigit(c) && c != '-'
    ensures c !in Itoa(i)
  {
    ItoaChars(i);
  }

  // ---------- Monitors

  /** The partition as the provider keeps it. */
  function PartitionOf(configured: string): string {
    if configured == "" then "/Common/" else "/" + configured + "/"
  }

  datatype Stored = Stored(name: string, parent: string, destination: string, send: string)

  function EncodeMonitor(partition: string, m: Monitor): Stored {
    Stored(m.name, partition + m.kind, if m.port != 0 then "*." + Itoa(m.port) else "", "GET " + m.path)
  }

  /** What the device is told: a GET of the path, the type in the partition, and the port on any address
      unless it is 0. */
  lemma MonitorOnDevice(configured: string, m: Monitor)
    ensures var x := EncodeMonitor(PartitionOf(configured), m);
            && x.name == m.name
            && |x.send| == 4 + |m.path| && x.send[..3] == "GET" && x.send[3] == ' ' && x.send[4..] == m.path
            && x.parent[0] == '/' && |x.parent| >= |m.kind| && x.parent[|x.parent| - |m.kind|..] == m.kind
            && (x.destination == "" <==> m.port == 0)
            && (m.port != 0 ==> x.destination[0] == '*' && x.destination[1] == '.' && x.destination[2..] == Itoa(m.port))
  {
  }

  /** None where the source returns an error or indexes past the parts it split. */
  function DecodeMonitor(x: Stored): Option<Monitor> {
    var dest, parent := Split(x.destination, '.'), Split(x.parent, '/');
    if |dest| < 2 || |parent| < 3 then None
    else match Atoi(dest[1])
      case None => None
      case Some(port) => Some(Monitor(x.name, TrimLeft(x.send, "GET "), port, parent[2]))
  }

  lemma PathReadsBackIff(path: string)
    ensures TrimLeft("GET " + path, "GET ") == path <==> path == "" || path[0] !in "GET "
  {
    TrimLeftPrefix("GET ", path, "GET ");
    TrimLeftShortens(path, "GET ");
  }

  /** The third part of "/partition/kind". */
  predicate KindSurvives(partition: string, kind: string) {
    if '/' in partition then Split(partition, '/')[1..] != [] && Split(partition, '/')[1] == kind else '/' !in kind
  }

  lemma KindReadsBackIff(partition: string, kind: string)
    ensures var parts := Split("/" + partition + "/" + kind, '/');
            |parts| >= 3 && (parts[2] == kind <==> KindSurvives(partition, kind))
  {
    assert "/" + partition + "/" + kind == "" + ['/'] + (partition + ['/'] + kind);
    SplitFirst("", '/', partition + ['/'] + kind);
    if '/' in partition {
      var a, b := SplitSome(partition, '/');
      assert partition + ['/'] + kind == a + ['/'] + (b + ['/'] + kind);
      SplitFirst(a, '/', b + ['/'] + kind);
      FirstPartOfJoin(b, '/', kind);
    } else {
      SplitFirst(partition, '/', kind);
      if '/' in kind {
        var a, b := SplitSome(kind, '/');
        assert |a| < |kind|;
      } else {
        SplitNone(kind, '/');
      }
    }
  }

  lemma FirstPartOfJoin(b: string, sep: char, rest: string)
    ensures Split(b + [sep] + rest, sep)[0] == Split(b, sep)[0]
  {
    if sep in b {
      var x, y := SplitSome(b, sep);
      assert b + [sep] + rest == x + [sep] + (y + [sep] + rest);
      SplitFirst(x, sep, y + [sep] + rest);
    } else {
      SplitFirst(b, sep, rest);
      SplitNone(b, sep);
    }
  }

  lemma PortReadsBack(port: int)
    ensures |Split("*." + Itoa(port), '.')| == 2 && Atoi(Split("*." + Itoa(port), '.')[1]) == Some(port)
  {
    assert "*." + Itoa(port) == "*" + ['.'] + Itoa(port);
    SplitFirst("*", '.', Itoa(port));
    DigitsHaveNo(port, '.');
    SplitNone(Itoa(port), '.');
    AtoiItoa(port);
  }

  /** A monitor is read back as it was created exactly if it has a port, its path does not begin with
      one of the characters of "GET ", and its kind survives next to the partition. */
  lemma MonitorRoundTripIff(configured: string, m: Monitor)
    ensures DecodeMonitor(EncodeMonitor(PartitionOf(configured), m)) == Some(m) <==>
              && m.port != 0
              && (m.path == "" || m.path[0] !in "GET ")
              && KindSurvives(if configured == "" then "Common" else configured, m.kind)
  {
    var name := if configured == "" then "Common" else configured;
    assert PartitionOf(configured) + m.kind == "/" + name + "/" + m.kind;
    KindReadsBackIff(name, m.kind);
    PathReadsBackIff(m.path);
    if m.port != 0 {
      PortReadsBack(m.port);
    } else {
      SplitNone("", '.');
    }
  }

  // ---------- The monitor of a pool

  /** GetPool reads the monitor, which the device returns with its partition. */
  function DecodePoolMonitor(partition: string, stored: string): string {
    Trim(stored, partition)
  }

  /** In the default partition the monitor of a load balancer is recognised exactly if the load
      balancer's name does not end in one of the letters of the partition. */
  lemma DefaultPartitionReadsBackIff(lb: string)
    requires lb != ""
    ensures DecodePoolMonitor("/Common/", "/Common/" + MonitorName(lb)) == MonitorName(lb)
            <==> lb[|lb| - 1] !in "/Common/"
  {
    var name := MonitorName(lb);
    TrimUndoesPrefix("/Common/", name);
    assert name[0] == 'M' && name[|name| - 1] == lb[|lb| - 1];
    assert 'M' !in "/Common/";
  }

  /** So the monitor of this load balancer is found to differ in every pass. */
  lemma ProdMainIsMisread()
    ensures DecodePoolMonitor("/Common/", "/Common/" + MonitorName("prod-main")) != MonitorName("prod-main")
  {
    DefaultPartitionReadsBackIff("prod-main");
    assert "/Common/"[7 - 1] == 'n' && "prod-main"[8] == 'n';
  }

  // ---------- VIPs and members

  function EncodeDestination(partition: string, ip: string, port: int): string {
    partition + ip + ":" + Itoa(port)
  }

  /** The address and port of a virtual server; None where the source errs or indexes too far. */
  function DecodeDestination(partition: string, destination: string): Option<(string, int)> {
    var parts := Split(destination, ':');
    if |parts| < 2 then None
    else match Atoi(parts[1])
      case None => None
      case Some(port) => Some((Trim(parts[0], partition), port))
  }

  lemma JoinedParts(before: string, port: int)
    requires ':' !in before
    ensures Split(before + ":" + Itoa(port), ':') == [before, Itoa(port)]
  {
    assert before + ":" + Itoa(port) == before + [':'] + Itoa(port);
    SplitFirst(before, ':', Itoa(port));
    DigitsHaveNo(port, ':');
    SplitNone(Itoa(port), ':');
  }

  /** The address and port of a VIP are read back exactly if the address has no colon and neither
      begins nor ends with a character of the partition. */
  lemma DestinationRoundTripIff(partition: string, ip: string, port: int)
    requires ':' !in partition
    ensures DecodeDestination(partition, EncodeDestination(partition, ip, port)) == Some((ip, port)) <==>
              ':' !in ip && (ip == "" || (ip[0] !in partition && ip[|ip| - 1] !in partition))
  {
    var s := EncodeDestination(partition, ip, port);
    if ':' in ip {
      var a, b := SplitSome(ip, ':');
      assert s == (partition + a) + [':'] + (b + ":" + Itoa(port));
      SplitFirst(partition + a, ':', b + ":" + Itoa(port));
      TrimUndoesPrefix(partition, a);
      assert |a| < |ip|;
    } else {
      JoinedParts(partition + ip, port);
      AtoiItoa(port);
      TrimUndoesPrefix(partition, ip);
    }
  }

  /** A pool member as the device lists it: its address, and its path with the port. */
  function DecodeMember(address: string, fullPath: string): Option<Key> {
    var parts := Split(fullPath, ':');
    if |parts| < 2 then None
    else
      var port := match Atoi(parts[1]) case Some(p) => p case None => 0;
      Some(Key(Split(address, ':')[0], port))
  }

  /** Host and port of a member are read back exactly for hosts without a colon: IPv6 members are
      never recognised. */
  lemma MemberRoundTripIff(partition: string, k: Key)
    requires ':' !in partition
    ensures DecodeMember(k.host, partition + k.host + ":" + Itoa(k.port)) == Some(k) <==> ':' !in k.host
  {
    if ':' in k.host {
      var a, b := SplitSome(k.host, ':');
      assert |a| < |k.host|;
    } else {
      SplitNone(k.host, ':');
      JoinedParts(partition + k.host, k.port);
      AtoiItoa(k.port);
    }
  }
}
