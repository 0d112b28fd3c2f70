/** What the finalizer protects, over the whole life of an object: nothing is deleted from the device
    while the stored object does not carry the finalizer, so what is configured for an object that
    goes without it stays behind
    (internal/controller/externalloadbalancer_controller.go:381-482). */
module Protection {
  import opened Types
  import opened Names
  import opened Devices
  import opened Cleanup
  import opened Passes
  import opened Histories
  import opened Lifecycle
  import Nodes

  /** A call that deletes no object. */
  predicate Harmless(op: Op) {
    !op.DeleteVip? && !op.DeletePool? && !op.DeleteMonitor?
  }

  ghost predicate Spared(a: Sys, b: Sys) {
    Chained(a, b, Harmless)
  }

  /** The stored object loses the finalizer, or goes while carrying it. */
  predicate Loses(e: ApiEntry) {
    Carries(e.before) && !Carries(e.after)
  }

  predicate NoLoss(log: seq<ApiEntry>, i: nat, k: nat)
    requires k <= |log|
  {
    forall j :: i <= j < k ==> !Loses(log[j])
  }

  /** The device at the start, or at the moment of an earlier change of the object. */
  function Mark(c0: Cluster, log: seq<ApiEntry>, i: nat): Sys
    requires |c0.api.log| <= i <= |log|
  {
    if i == |c0.api.log| then c0.sys else log[i - 1].sys
  }

  /** From any moment after which the finalizer was not lost, no object was deleted. */
  ghost predicate SparedUntil(c0: Cluster, log: seq<ApiEntry>, k: nat, s: Sys)
    requires |c0.api.log| <= k <= |log|
  {
    forall i :: |c0.api.log| <= i <= k && NoLoss(log, i, k) ==> Spared(Mark(c0, log, i), s)
  }

  ghost predicate EntryFollowed(lb: string, c0: Cluster, log: seq<ApiEntry>, k: nat)
    requires |c0.api.log| <= k < |log|
  {
    && (!Carries(log[k].before) ==> SparedUntil(c0, log, k, log[k].sys))
    && (Loses(log[k]) ==> Covers(log[k].before.value.status, MonitorId(MonitorName(lb))))
  }

  /** What holds after every request and call of a life that began in `c0`. */
  ghost predicate Followed(lb: string, c0: Cluster, c: Cluster) {
    && c0.api.log <= c.api.log
    && (!Carries(c.api.store) ==> SparedUntil(c0, c.api.log, |c.api.log|, c.sys))
    && forall k :: |c0.api.log| <= k < |c.api.log| ==> EntryFollowed(lb, c0, c.api.log, k)
  }

  lemma SparedStays(c0: Cluster, log: seq<ApiEntry>, e: ApiEntry, k: nat, s: Sys)
    requires |c0.api.log| <= k <= |log| && SparedUntil(c0, log, k, s)
    ensures SparedUntil(c0, log + [e], k, s)
  {
    var more := log + [e];
    forall i | |c0.api.log| <= i <= k && NoLoss(more, i, k) ensures Spared(Mark(c0, more, i), s) {
      assert NoLoss(log, i, k) by {
        forall j | i <= j < k ensures !Loses(log[j]) { assert more[j] == log[j]; }
      }
      assert Mark(c0, more, i) == Mark(c0, log, i);
    }
  }

  lemma EntryStays(lb: string, c0: Cluster, log: seq<ApiEntry>, e: ApiEntry, k: nat)
    requires |c0.api.log| <= k < |log| && EntryFollowed(lb, c0, log, k)
    ensures EntryFollowed(lb, c0, log + [e], k)
  {
    assert (log + [e])[k] == log[k];
    if !Carries(log[k].before) { SparedStays(c0, log, e, k, log[k].sys); }
  }

  lemma WriteFollows(lb: string, c0: Cluster, c: Cluster, after: Option<Lb>)
    requires Followed(lb, c0, c)
    requires Loses(ApiEntry(c.api.store, after, c.sys)) ==>
               Covers(c.api.store.value.status, MonitorId(MonitorName(lb)))
    ensures Followed(lb, c0, Cluster(Write(c.api, after, c.sys), c.sys))
  {
    var log, e := c.api.log, ApiEntry(c.api.store, after, c.sys);
    var more := log + [e];
    forall k | |c0.api.log| <= k < |more| ensures EntryFollowed(lb, c0, more, k) {
      if k < |log| {
        EntryStays(lb, c0, log, e, k);
      } else if !Carries(e.before) {
        SparedStays(c0, log, e, |log|, c.sys);
      }
    }
    if !Carries(after) {
      forall i | |c0.api.log| <= i <= |more| && NoLoss(more, i, |more|) ensures Spared(Mark(c0, more, i), c.sys) {
        if i < |more| {
          assert !Loses(more[|log|]);
          SparedStays(c0, log, e, |log|, c.sys);
          assert NoLoss(more, i, |log|);
        }
      }
    }
  }

  /** The device moves on; objects are deleted only if the stored object carries the finalizer. */
  lemma DeviceFollows(lb: string, c0: Cluster, c: Cluster, s: Sys)
    requires Followed(lb, c0, c) && (Carries(c.api.store) || Spared(c.sys, s))
    ensures Followed(lb, c0, Cluster(c.api, s))
  {
    if !Carries(c.api.store) {
      var log := c.api.log;
      forall i | |c0.api.log| <= i <= |log| && NoLoss(log, i, |log|) ensures Spared(Mark(c0, log, i), s) {
        ChainsJoin(Mark(c0, log, i), c.sys, s, Harmless);
      }
    }
  }

  lemma {:induction false} ActsFollow(lb: string, c0: Cluster, c: Cluster, steps: seq<EnvStep>)
    requires Followed(lb, c0, c)
    ensures Followed(lb, c0, Cluster(ActAll(c.api, steps, c.sys), c.sys))
    decreases |steps|
  {
    if steps != [] {
      var a := Act(c.api, steps[0], c.sys);
      if a != c.api {
        assert a == Write(c.api, a.store, c.sys);
        WriteFollows(lb, c0, c, a.store);
      }
      ActsFollow(lb, c0, Cluster(a, c.sys), steps[1..]);
    }
  }

  lemma ArriveFollows(w: Worlds, lb: string, c0: Cluster, c: Cluster)
    requires Followed(lb, c0, c)
    ensures Followed(lb, c0, Cluster(Arrive(w.api, c.api, c.sys), c.sys))
  {
    ActsFollow(lb, c0, c, w.api.env(c.api.clock));
  }

  lemma PutStatusFollows(w: Worlds, lb: string, c0: Cluster, c: Cluster, o: Lb)
    requires Followed(lb, c0, c)
    ensures Followed(lb, c0, Cluster(PutStatus(w.api, c.api, o, c.sys).0, c.sys))
  {
    var a := Arrive(w.api, c.api, c.sys);
    ArriveFollows(w, lb, c0, c);
    var r := PutStatus(w.api, c.api, o, c.sys).0;
    if r != a {
      WriteFollows(lb, c0, Cluster(a, c.sys), r.store);
    }
  }

  lemma PutFollows(w: Worlds, lb: string, c0: Cluster, c: Cluster, cur: Lb, fs: seq<string>)
    requires Followed(lb, c0, c) && Versioned(c.api) && Snapshot(c.api, cur)
    requires Covers(cur.status, MonitorId(MonitorName(lb)))
    ensures Followed(lb, c0, Cluster(Put(w.api, c.api, cur.(finalizers := fs), c.sys).0, c.sys))
  {
    var a := Arrive(w.api, c.api, c.sys);
    ArriveFollows(w, lb, c0, c);
    ArriveIsSafe(w, c.api, c.sys);
    var r := Put(w.api, c.api, cur.(finalizers := fs), c.sys).0;
    if r != a {
      assert a.store == Some(cur);
      WriteFollows(lb, c0, Cluster(a, c.sys), r.store);
    }
  }

  lemma ConcludeFollows(w: Worlds, lb: string, c0: Cluster, c: Cluster, cur: Lb)
    requires Followed(lb, c0, c) && Versioned(c.api) && c.api.store == Some(cur)
    requires Covers(cur.status, MonitorId(MonitorName(lb)))
    ensures Followed(lb, c0, Conclude(w, c, cur).c)
  {
    if cur.deleting {
      if FINALIZER in cur.finalizers {
        var r := Finalize(w.dev, c.sys, cur.status);
        DeviceFollows(lb, c0, c, r.sys);
        if r.ok {
          PutFollows(w, lb, c0, Cluster(c.api, r.sys), cur, Without(cur.finalizers, FINALIZER));
        }
      }
    } else if FINALIZER !in cur.finalizers {
      PutFollows(w, lb, c0, c, cur, cur.finalizers + [FINALIZER]);
    }
  }

  lemma RecordFollows(w: Worlds, lb: string, c0: Cluster, c: Cluster, obj: Lb, want: Want, labels: map<string, string>)
    requires Followed(lb, c0, c) && Versioned(c.api)
    ensures Followed(lb, c0, Record(w, lb, c, obj, want, labels).c)
  {
    ArriveFollows(w, lb, c0, c);
    ArriveIsSafe(w, c.api, c.sys);
    var (a, got) := Fetch(w.api, c.api, c.sys);
    var cur := if got.Found? then got.o else obj.(spec := obj.spec.(monitor := MonitorFor(lb, want)));
    var o := cur.(status := NewStatus(lb, want, labels, cur));
    assert Covers(o.status, MonitorId(MonitorName(lb))) by { assert MonitorName(lb)[0] == 'M'; }
    PutStatusFollows(w, lb, c0, Cluster(a, c.sys), o);
    ArriveIsSafe(w, a, c.sys);
    var (b, stored) := PutStatus(w.api, a, o, c.sys);
    if stored.Some? {
      ConcludeFollows(w, lb, c0, Cluster(b, c.sys), stored.value);
    }
  }

  lemma DriveFollows(w: Worlds, lb: string, c0: Cluster, c: Cluster, obj: Lb, want: Want, labels: map<string, string>)
    requires Followed(lb, c0, c) && Versioned(c.api)
    ensures Followed(lb, c0, Drive(w, lb, c, obj, want, labels).c)
  {
    var created := Peek(w.dev, c.sys);
    PeekChains(w.dev, c.sys, Harmless);
    DeviceFollows(lb, c0, c, created.sys);
    if created.ok {
      var r := Configure(w.dev, created.sys, TasksFor(lb, want));
      ConfigureChains(w.dev, created.sys, TasksFor(lb, want), Harmless);
      DeviceFollows(lb, c0, Cluster(c.api, created.sys), r.sys);
      if r.ok {
        RecordFollows(w, lb, c0, Cluster(c.api, r.sys), obj, want, labels);
      }
    }
  }

  lemma ReconcileFollows(w: Worlds, lb: string, c0: Cluster, c: Cluster)
    requires Followed(lb, c0, c) && Versioned(c.api)
    ensures Followed(lb, c0, Reconcile(w, lb, c).c)
  {
    var a := Arrive(w.api, c.api, c.sys);
    ArriveFollows(w, lb, c0, c);
    ArriveIsSafe(w, c.api, c.sys);
    var b := Arrive(w.api, a, c.sys);
    ArriveFollows(w, lb, c0, Cluster(a, c.sys));
    ArriveIsSafe(w, a, c.sys);
    var d := Arrive(w.api, b, c.sys);
    ArriveFollows(w, lb, c0, Cluster(b, c.sys));
    ArriveIsSafe(w, b, c.sys);
    var e := Arrive(w.api, d, c.sys);
    ArriveFollows(w, lb, c0, Cluster(d, c.sys));
    ArriveIsSafe(w, d, c.sys);
    var (_, got) := Fetch(w.api, a, c.sys);
    if got.Found? {
      var labels := Nodes.LabelsFor(got.o.spec.kind, got.o.spec.nodeLabels);
      var nodes := Nodes.Eligible(Nodes.Matching(w.api.nodes(d.clock), labels), labels);
      DriveFollows(w, lb, c0, Cluster(e, c.sys), got.o, WantOf(got.o.spec, nodes), labels);
    }
  }

  lemma {:induction false} LifeFollows(w: Worlds, lb: string, c: Cluster, n: nat)
    requires Versioned(c.api) && Faithful(w.dev)
    ensures Followed(lb, c, Life(w, lb, c, n))
  {
    if n == 0 {
      assert Spared(c.sys, c.sys);
    } else {
      LifeFollows(w, lb, c, n - 1);
      LifeIsSafe(w, lb, c, n - 1);
      ReconcileFollows(w, lb, c, Life(w, lb, c, n - 1));
    }
  }

  // ---------- What stays on the device

  ghost predicate CreatedBetween(a: Sys, b: Sys, id: Id)
    requires Continues(a, b)
  {
    exists e :: e in Since(a, b) && Creates(e.op, id)
  }

  lemma SparedKeeps(a: Sys, b: Sys, id: Id)
    requires Spared(a, b)
    ensures Has(b.dev, id) <==> Has(a.dev, id) || CreatedBetween(a, b, id)
  {
    var log := Since(a, b);
    assert Chained(a, b, _ => true);
    Fate(a, b, id);
    assert NeverRemoved(log, 0, id) && forall i: nat :: NeverRemoved(log, i, id);
    if e :| e in log && Creates(e.op, id) {
      var i :| 0 <= i < |log| && log[i] == e;
      assert NeverRemoved(log, i + 1, id);
    }
  }

  /** While the stored object does not carry the finalizer, whether it is there or not, objects of the
      device only come: counted from any earlier moment since the last loss of the finalizer. */
  lemma NothingUnprotectedGoes(w: Worlds, lb: string, c: Cluster, n: nat, i: nat, id: Id)
    requires Versioned(c.api) && Faithful(w.dev)
    requires var r := Life(w, lb, c, n);
             |c.api.log| <= i <= |r.api.log| && NoLoss(r.api.log, i, |r.api.log|) && !Carries(r.api.store)
    ensures var r := Life(w, lb, c, n); var from := Mark(c, r.api.log, i);
            Continues(from, r.sys) && (Has(r.sys.dev, id) <==> Has(from.dev, id) || CreatedBetween(from, r.sys, id))
  {
    LifeFollows(w, lb, c, n);
    var r := Life(w, lb, c, n);
    SparedKeeps(Mark(c, r.api.log, i), r.sys, id);
  }

  /** An object that goes leaves its monitor on the device exactly if it does not carry the finalizer at
      that moment and the monitor had been there, or was created, since any earlier moment after which
      the finalizer was not lost. If it does carry it, nothing its status names is left; if it does
      not, everything that was there or was created in that time is. */
  lemma GoingLeavesIff(w: Worlds, lb: string, c: Cluster, n: nat, i: nat, k: nat, id: Id)
    requires Versioned(c.api) && Faithful(w.dev)
    requires var log := Life(w, lb, c, n).api.log;
             && |c.api.log| <= i <= k < |log| && NoLoss(log, i, k)
             && log[k].before.Some? && log[k].after.None?
    ensures var log := Life(w, lb, c, n).api.log;
            var e, from, monitor := log[k], Mark(c, log, i), MonitorId(MonitorName(lb));
            && (!Carries(e.before) ==> Continues(from, e.sys))
            && (Has(e.sys.dev, monitor) <==>
                  !Carries(e.before) && (Has(from.dev, monitor) || CreatedBetween(from, e.sys, monitor)))
            && (if Carries(e.before) then Covers(e.before.value.status, id) ==> !Has(e.sys.dev, id)
                else Has(e.sys.dev, id) <==> Has(from.dev, id) || CreatedBetween(from, e.sys, id))
  {
    LifeFollows(w, lb, c, n);
    var log := Life(w, lb, c, n).api.log;
    var e, monitor := log[k], MonitorId(MonitorName(lb));
    assert EntryFollowed(lb, c, log, k);
    if Carries(e.before) {
      assert e in log[|c.api.log|..] by { assert log[|c.api.log|..][k - |c.api.log|] == e; }
      FinalizerLeavesCleanDevice(w, lb, c, n, e);
    } else {
      SparedKeeps(Mark(c, log, i), e.sys, id);
      SparedKeeps(Mark(c, log, i), e.sys, monitor);
    }
  }
}
