/** Several load balancers with different names on one device. */
module Isolation {
  import opened Names
  import opened Devices
  import opened Passes

  /** The two devices hold the same for load balancer `lb`: monitor, and pool and VIP of every port. */
  ghost predicate AgreeOn(d: Device, e: Device, lb: string) {
    && SameAt(d, e, MonitorId(MonitorName(lb)))
    && forall p: nat :: SameAt(d, e, PoolId(PoolName(lb, p))) && SameAt(d, e, VipId(VipName(lb, p)))
  }

  ghost predicate RealPorts(want: Want) {
    forall p :: p in want.ports ==> 0 <= p
  }

  lemma ForeignObject(a: string, want: Want, b: string, p: nat)
    requires a != b && RealPorts(want)
    ensures !Owns(a, want, MonitorId(MonitorName(b)))
    ensures !Owns(a, want, PoolId(PoolName(b, p)))
    ensures !Owns(a, want, VipId(VipName(b, p)))
  {
    NamesInjective(a, 0, b, 0);
    forall q | q in want.ports
      ensures PoolName(a, q) != PoolName(b, p) && VipName(a, q) != VipName(b, p)
    {
      NamesInjective(a, q, b, p);
    }
  }

  /** At no call of a pass of one load balancer, faults included, does anything of the other change. */
  lemma PassLeavesOthers(w: World, s: Sys, a: string, want: Want, deleting: bool, b: string)
    requires a != b && RealPorts(want)
    ensures Throughout(s, Pass(w, s, a, want, deleting).sys, d => AgreeOn(s.dev, d, b))
  {
    var r := Pass(w, s, a, want, deleting).sys;
    ForeignObject(a, want, b, 0);
    PassFrames(w, s, a, want, deleting, MonitorId(MonitorName(b)));
    forall p: nat
      ensures Throughout(s, r, d => SameAt(s.dev, d, PoolId(PoolName(b, p))))
      ensures Throughout(s, r, d => SameAt(s.dev, d, VipId(VipName(b, p))))
    {
      ForeignObject(a, want, b, p);
      PassFrames(w, s, a, want, deleting, PoolId(PoolName(b, p)));
      PassFrames(w, s, a, want, deleting, VipId(VipName(b, p)));
    }
  }

  /** What an error-free pass leaves under one name depends only on what was there. */
  lemma PassDetermines(w: World, s: Sys, v: World, t: Sys, lb: string, want: Want, deleting: bool, id: Id)
    requires Faithful(w) && Faithful(v) && SameAt(s.dev, t.dev, id)
    requires Pass(w, s, lb, want, deleting).ok && Pass(v, t, lb, want, deleting).ok
    ensures SameAt(Pass(w, s, lb, want, deleting).sys.dev, Pass(v, t, lb, want, deleting).sys.dev, id)
  {
    if !Owns(lb, want, id) {
      PassFrames(w, s, lb, want, deleting, id);
      PassFrames(v, t, lb, want, deleting, id);
    } else if deleting {
      DeletingPassRemoves(w, s, lb, want, id);
      DeletingPassRemoves(v, t, lb, want, id);
    } else {
      ConfigureConverges(w, s, lb, want);
      ConfigureConverges(v, t, lb, want);
    }
  }

  datatype Job = Job(lb: string, want: Want, deleting: bool)

  /** Passes of several load balancers, one after the other; ok if every one of them ends so. */
  function RunJobs(w: World, s: Sys, jobs: seq<Job>): Outcome
    decreases |jobs|
  {
    if jobs == [] then Outcome(s, true)
    else
      var r := Pass(w, s, jobs[0].lb, jobs[0].want, jobs[0].deleting);
      if r.ok then RunJobs(w, r.sys, jobs[1..]) else r
  }

  function Only(jobs: seq<Job>, lb: string): seq<Job> {
    if jobs == [] then []
    else (if jobs[0].lb == lb then [jobs[0]] else []) + Only(jobs[1..], lb)
  }

  /** Any error-free interleaving of configures and cleanups gives load balancer `lb` exactly what it
      gets when its own passes run alone. */
  lemma {:induction false} InterleavingIsInvisible(w: World, s: Sys, v: World, t: Sys, jobs: seq<Job>, lb: string)
    requires Faithful(w) && Faithful(v) && AgreeOn(s.dev, t.dev, lb)
    requires forall j :: j in jobs ==> RealPorts(j.want)
    requires RunJobs(w, s, jobs).ok && RunJobs(v, t, Only(jobs, lb)).ok
    ensures AgreeOn(RunJobs(w, s, jobs).sys.dev, RunJobs(v, t, Only(jobs, lb)).sys.dev, lb)
    decreases |jobs|
  {
    if jobs != [] {
      var j := jobs[0];
      assert j in jobs;
      var r := Pass(w, s, j.lb, j.want, j.deleting);
      if j.lb == lb {
        assert Only(jobs, lb)[0] == j && Only(jobs, lb)[1..] == Only(jobs[1..], lb);
        var q := Pass(v, t, j.lb, j.want, j.deleting);
        PassDetermines(w, s, v, t, lb, j.want, j.deleting, MonitorId(MonitorName(lb)));
        forall p: nat
          ensures SameAt(r.sys.dev, q.sys.dev, PoolId(PoolName(lb, p)))
          ensures SameAt(r.sys.dev, q.sys.dev, VipId(VipName(lb, p)))
        {
          PassDetermines(w, s, v, t, lb, j.want, j.deleting, PoolId(PoolName(lb, p)));
          PassDetermines(w, s, v, t, lb, j.want, j.deleting, VipId(VipName(lb, p)));
        }
        InterleavingIsInvisible(w, r.sys, v, q.sys, jobs[1..], lb);
      } else {
        assert Only(jobs, lb) == Only(jobs[1..], lb);
        PassLeavesOthers(w, s, j.lb, j.want, j.deleting, lb);
        assert AgreeOn(s.dev, r.sys.dev, lb);
        AgreeJoins(r.sys.dev, s.dev, t.dev, lb);
        InterleavingIsInvisible(w, r.sys, v, t, jobs[1..], lb);
      }
    }
  }

  lemma AgreeJoins(d: Device, e: Device, f: Device, lb: string)
    requires AgreeOn(e, d, lb) && AgreeOn(e, f, lb)
    ensures AgreeOn(d, f, lb)
  {
    forall p: nat
      ensures SameAt(d, f, PoolId(PoolName(lb, p))) && SameAt(d, f, VipId(VipName(lb, p)))
    {
      assert SameAt(e, d, PoolId(PoolName(lb, p))) && SameAt(e, f, PoolId(PoolName(lb, p)));
      assert SameAt(e, d, VipId(VipName(lb, p))) && SameAt(e, f, VipId(VipName(lb, p)));
    }
  }
}
