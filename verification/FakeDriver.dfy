/** The in-memory cluster: a driver whose answers come from jobs and hosts it really keeps. */
module FakeCluster {
  import opened Text
  import opened Deployments
  import opened Replicas
  import opened Placement
  import opened Deps
  import opened Driver

  datatype Job = Job(nodeId: string, phase: Phase)

  datatype Cluster = Cluster(
    hosts: seq<AtlasEntry>,
    jobs: map<string, Job>,
    nextJob: nat,
    deployFails: seq<string>,
    killFails: seq<string>,
    deployFailOnce: bool,
    probeFails: seq<string>,
    advertised: seq<string>,
    readiness: map<string, DepReadiness>)

  /** Hosts with nothing of ours on them. */
  function Bare(hosts: seq<AtlasEntry>): Cluster {
    Cluster(hosts, map[], 0, [], [], false, [], [], map[])
  }

  function JobName(n: nat): string { "job-" + Decimal(n) }

  /** `find(|h| h.node_id == node)` and add to its job count, never below zero. */
  function Bump(hosts: seq<AtlasEntry>, node: string, delta: int): (r: seq<AtlasEntry>)
    ensures |r| == |hosts|
  {
    if hosts == [] then []
    else if hosts[0].nodeId == node then [hosts[0].(runningJobs := Max(0, hosts[0].runningJobs + delta))] + hosts[1..]
    else [hosts[0]] + Bump(hosts[1..], node, delta)
  }

  lemma {:induction false} BumpAt(hosts: seq<AtlasEntry>, node: string, delta: int, i: nat)
    requires i < |hosts| && hosts[i].nodeId == node && forall j :: 0 <= j < i ==> hosts[j].nodeId != node
    ensures Bump(hosts, node, delta) == hosts[i := hosts[i].(runningJobs := Max(0, hosts[i].runningJobs + delta))]
  {
    if i > 0 {
      BumpAt(hosts[1..], node, delta, i - 1);
      assert hosts[i := hosts[i].(runningJobs := Max(0, hosts[i].runningJobs + delta))]
          == [hosts[0]] + hosts[1..][i - 1 := hosts[i].(runningJobs := Max(0, hosts[i].runningJobs + delta))];
    }
  }

  lemma {:induction false} BumpNone(hosts: seq<AtlasEntry>, node: string, delta: int)
    requires forall j :: 0 <= j < |hosts| ==> hosts[j].nodeId != node
    ensures Bump(hosts, node, delta) == hosts
  {
    if hosts != [] { BumpNone(hosts[1..], node, delta); }
  }

  function DeployOn(c: Cluster, node: string): (Cluster, Option<string>) {
    if c.deployFailOnce then (c.(deployFailOnce := false), None)
    else if node in c.deployFails then (c, None)
    else
      var id := JobName(c.nextJob + 1);
      (c.(nextJob := c.nextJob + 1, hosts := Bump(c.hosts, node, 1), jobs := c.jobs[id := Job(node, Pending)]), Some(id))
  }

  function KillJob(c: Cluster, id: string): (Cluster, bool) {
    if id in c.killFails then (c, false)
    else if id in c.jobs then (c.(jobs := c.jobs - {id}, hosts := Bump(c.hosts, c.jobs[id].nodeId, -1)), true)
    else (c, true)
  }

  function PhaseOf(c: Cluster, id: string, probe: Option<Probe>): Option<Phase> {
    if id !in c.jobs then None
    else if probe.Some? && id in c.probeFails then Some(Failed)
    else Some(c.jobs[id].phase)
  }

  function ReadinessOf(c: Cluster, service: string): DepReadiness {
    if service in c.readiness then c.readiness[service] else Absent
  }

  /** The cluster as the driver the controller talks to; `now` is the wall clock. */
  function FakeMesh(now: nat): MeshDriver<Cluster> {
    MeshDriver(
      (c: Cluster) => now,
      (c: Cluster) => (c, Some(c.hosts)),
      (c: Cluster, node: string, id: string, probe: Option<Probe>) => (c, PhaseOf(c, id, probe)),
      (c: Cluster, node: string, id: string) => KillJob(c, id),
      (c: Cluster, node: string, d: Deployment) => DeployOn(c, node),
      (c: Cluster, service: string) => (c.(advertised := c.advertised + [service]), true),
      (c: Cluster, service: string) => (c, Some(ReadinessOf(c, service))))
  }

  /** Pending jobs become ready: what the cluster does between ticks. */
  function AllReady(c: Cluster): Cluster {
    c.(jobs := map id | id in c.jobs :: if c.jobs[id].phase == Pending then c.jobs[id].(phase := Running) else c.jobs[id])
  }

  // ---- the object ------------------------------------------------------------------------------

  class FakeDriver {
    var hosts: seq<AtlasEntry>
    var jobs: map<string, Job>
    var nextJob: nat
    var deployFails: seq<string>
    var killFails: seq<string>
    var deployFailOnce: bool
    var probeFails: seq<string>
    var advertised: seq<string>
    var readiness: map<string, DepReadiness>

    ghost function State(): Cluster reads this {
      Cluster(hosts, jobs, nextJob, deployFails, killFails, deployFailOnce, probeFails, advertised, readiness)
    }

    constructor (hosts: seq<AtlasEntry>)
      ensures State() == Bare(hosts)
    {
      this.hosts, jobs, nextJob, deployFails, killFails := hosts, map[], 0, [], [];
      deployFailOnce, probeFails, advertised, readiness := false, [], [], map[];
    }

    method AddToHost(node: string, delta: int)
      modifies this`hosts
      ensures hosts == Bump(old(hosts), node, delta)
    {
      for i := 0 to |hosts|
        invariant hosts == old(hosts)
        invariant forall j :: 0 <= j < i ==> hosts[j].nodeId != node
      {
        if hosts[i].nodeId == node {
          BumpAt(hosts, node, delta, i);
          hosts := hosts[i := hosts[i].(runningJobs := Max(0, hosts[i].runningJobs + delta))];
          return;
        }
      }
      BumpNone(hosts, node, delta);
    }

    method Deploy(node: string) returns (r: Option<string>)
      modifies this
      ensures (State(), r) == DeployOn(old(State()), node)
      ensures r.Some? <==> !old(deployFailOnce) && node !in old(deployFails)
      ensures !deployFailOnce && deployFails == old(deployFails) && killFails == old(killFails)
      ensures r.Some? ==> r.value == "job-" + Decimal(old(nextJob) + 1) && nextJob == old(nextJob) + 1
                          && jobs == old(jobs)[r.value := Job(node, Pending)]
      ensures r.None? ==> jobs == old(jobs) && hosts == old(hosts) && nextJob == old(nextJob)
    {
      if deployFailOnce {
        deployFailOnce := false;
        return None;
      }
      if node in deployFails {
        return None;
      }
      nextJob := nextJob + 1;
      var id := JobName(nextJob);
      AddToHost(node, 1);
      jobs := jobs[id := Job(node, Pending)];
      r := Some(id);
    }

    method Kill(id: string) returns (ok: bool)
      modifies this
      ensures (State(), ok) == KillJob(old(State()), id)
      ensures ok <==> id !in old(killFails)
      ensures ok ==> jobs == old(jobs) - {id}
      ensures !ok || id !in old(jobs) ==> jobs == old(jobs) && hosts == old(hosts)
      ensures nextJob == old(nextJob) && killFails == old(killFails) && deployFails == old(deployFails)
    {
      if id in killFails {
        return false;
      }
      if id in jobs {
        var node := jobs[id].nodeId;
        jobs := jobs - {id};
        AddToHost(node, -1);
      }
      ok := true;
    }

    method Phase(id: string, probe: Option<Probe>) returns (r: Option<Replicas.Phase>)
      ensures r == PhaseOf(State(), id, probe)
      ensures r.None? <==> id !in jobs
      ensures id in jobs ==> r == Some(if probe.Some? && id in probeFails then Failed else jobs[id].phase)
    {
      if id !in jobs {
        return None;
      }
      if probe.Some? && id in probeFails {
        return Some(Failed);
      }
      r := Some(jobs[id].phase);
    }

    method MarkAllReady()
      modifies this`jobs
      ensures State() == AllReady(old(State()))
    {
      jobs := map id | id in jobs :: if jobs[id].phase == Pending then jobs[id].(phase := Running) else jobs[id];
    }

    method SetPhase(id: string, phase: Replicas.Phase)
      modifies this`jobs
      ensures State() == WithPhase(old(State()), id, phase)
    {
      if id in jobs {
        jobs := jobs[id := jobs[id].(phase := phase)];
      }
    }
  }

  function WithPhase(c: Cluster, id: string, phase: Phase): Cluster {
    if id in c.jobs then c.(jobs := c.jobs[id := c.jobs[id].(phase := phase)]) else c
  }

  // ---- ids are never handed out twice -------------------------------------------------------------

  /** The ids a cluster has handed out so far. */
  ghost predicate Issued(c: Cluster, id: string) {
    exists n: nat :: 1 <= n <= c.nextJob && id == JobName(n)
  }

  lemma JobNameInjective(a: nat, b: nat)
    requires JobName(a) == JobName(b)
    ensures a == b
  {
    assert JobName(a)[4..] == Decimal(a) && JobName(b)[4..] == Decimal(b);
    DecimalInjective(a, b);
  }

  lemma NextIsNew(c: Cluster)
    ensures !Issued(c, JobName(c.nextJob + 1))
  {
    forall n: nat | 1 <= n <= c.nextJob ensures JobName(n) != JobName(c.nextJob + 1) {
      if JobName(n) == JobName(c.nextJob + 1) { JobNameInjective(n, c.nextJob + 1); }
    }
  }

  /** The fake driver is one of those the engine's laws are about. */
  lemma FakeNeverReissues(now: nat)
    ensures NeverReissues(FakeMesh(now), Issued)
  {
    forall c, n: string, d: Deployment | FakeMesh(now).deploy(c, n, d).1.Some?
      ensures !Issued(c, FakeMesh(now).deploy(c, n, d).1.value)
      ensures Issued(FakeMesh(now).deploy(c, n, d).0, FakeMesh(now).deploy(c, n, d).1.value)
    {
      NextIsNew(c);
      assert JobName(c.nextJob + 1) == FakeMesh(now).deploy(c, n, d).1.value;
    }
    forall c, n: string, d: Deployment, id | Issued(c, id) ensures Issued(FakeMesh(now).deploy(c, n, d).0, id) { }
    forall c, n: string, j, id | Issued(c, id) ensures Issued(FakeMesh(now).kill(c, n, j).0, id) { }
    hide JobName;
  }
}
