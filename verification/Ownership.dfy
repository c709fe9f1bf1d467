/** Which jobs on the fake cluster belong to one deployment, and that a tick keeps the books: nothing
    orphaned, nothing owned twice, host counts right. */
module Ownership {
  import opened Text
  import opened Sorting
  import opened Deployments
  import opened Replicas
  import opened Rollout
  import opened Placement
  import opened Deps
  import opened Ticking
  import opened Accounts
  import opened FakeCluster
  import opened Planner

  // ---- one deployment against the rest of the cluster -------------------------------------------

  function Load(jobs: map<string, Job>, node: string): nat {
    |set id | id in jobs && jobs[id].nodeId == node|
  }

  /** The hosts are the starting ones, their job counts raised by the jobs really there, and every job
      is on one of them. */
  ghost predicate Counted(c: Cluster, base: seq<AtlasEntry>) {
    && |c.hosts| == |base| && DistinctHosts(c.hosts)
    && (forall i :: 0 <= i < |base| ==> c.hosts[i] == base[i].(runningJobs := base[i].runningJobs + Load(c.jobs, base[i].nodeId)))
    && (forall id :: id in c.jobs ==> HasHost(c.hosts, c.jobs[id].nodeId))
  }

  ghost predicate HasHost(hosts: seq<AtlasEntry>, node: string) {
    exists i :: 0 <= i < |hosts| && hosts[i].nodeId == node
  }

  /** Tracked replicas are real jobs on the nodes they claim, none of them foreign. */
  ghost predicate Mine(jobs: map<string, Job>, replicas: seq<Replica>, others: map<string, Job>) {
    Unique(replicas) &&
    forall r :: r in replicas ==> r.jobId !in others && r.jobId in jobs && jobs[r.jobId].nodeId == r.nodeId
  }

  /** Foreign jobs are there, untouched. */
  ghost predicate Theirs(jobs: map<string, Job>, others: map<string, Job>) {
    forall id :: id in others ==> id in jobs && jobs[id] == others[id]
  }

  ghost predicate AllIssued(c: Cluster) {
    forall id :: id in c.jobs ==> Issued(c, id)
  }

  /** `jobs` are exactly `replicas`, each on its node, and `others`, left as they were. */
  ghost predicate Parted(jobs: map<string, Job>, replicas: seq<Replica>, others: map<string, Job>) {
    Mine(jobs, replicas, others) && jobs.Keys == IdSet(replicas) + others.Keys && Theirs(jobs, others)
  }

  /** The cluster's jobs are exactly `replicas` and `others`, and the host counts are right. */
  ghost predicate Good(c: Cluster, replicas: seq<Replica>, others: map<string, Job>, base: seq<AtlasEntry>) {
    Parted(c.jobs, replicas, others) && AllIssued(c) && Counted(c, base)
  }

  // ---- host counts under deploy and kill -----------------------------------------------------------

  lemma LoadAtMostAll(jobs: map<string, Job>, node: string)
    ensures Load(jobs, node) <= |jobs.Keys|
  {
    var here := set id | id in jobs && jobs[id].nodeId == node;
    var rest := jobs.Keys - here;
    assert jobs.Keys == here + rest;
  }

  lemma LoadAdd(jobs: map<string, Job>, id: string, job: Job, node: string)
    requires id !in jobs
    ensures Load(jobs[id := job], node) == Load(jobs, node) + (if job.nodeId == node then 1 else 0)
  {
    var before := set x | x in jobs && jobs[x].nodeId == node;
    var jobs' := jobs[id := job];
    var after := set x | x in jobs' && jobs'[x].nodeId == node;
    if job.nodeId == node {
      assert after == before + {id};
    } else {
      assert after == before;
    }
  }

  lemma LoadRemove(jobs: map<string, Job>, id: string, node: string)
    requires id in jobs
    ensures Load(jobs - {id}, node) == Load(jobs, node) - (if jobs[id].nodeId == node then 1 else 0)
  {
    var rest := jobs - {id};
    assert jobs == rest[id := jobs[id]];
    LoadAdd(rest, id, jobs[id], node);
  }

  lemma BumpShape(hosts: seq<AtlasEntry>, node: string, delta: int)
    requires DistinctHosts(hosts) && HasHost(hosts, node)
    ensures var r := Bump(hosts, node, delta);
            && |r| == |hosts|
            && forall i :: 0 <= i < |hosts| ==>
                 r[i] == if hosts[i].nodeId == node then hosts[i].(runningJobs := Max(0, hosts[i].runningJobs + delta)) else hosts[i]
  {
    var i :| 0 <= i < |hosts| && hosts[i].nodeId == node;
    BumpAt(hosts, node, delta, i);
    hide Bump;
  }

  lemma CountedAdd(c: Cluster, base: seq<AtlasEntry>, id: string, node: string, n: nat)
    requires Counted(c, base) && id !in c.jobs && HasHost(c.hosts, node)
    ensures Counted(c.(nextJob := n, hosts := Bump(c.hosts, node, 1), jobs := c.jobs[id := Job(node, Pending)]), base)
  {
    hide Bump, Load, HasHost;
    BumpShape(c.hosts, node, 1);
    forall i | 0 <= i < |base| { LoadAdd(c.jobs, id, Job(node, Pending), c.hosts[i].nodeId); }
    var c' := c.(nextJob := n, hosts := Bump(c.hosts, node, 1), jobs := c.jobs[id := Job(node, Pending)]);
    SameHosts(c.hosts, c'.hosts);
  }

  lemma CountedRemove(c: Cluster, base: seq<AtlasEntry>, id: string)
    requires Counted(c, base) && id in c.jobs
    ensures Counted(c.(jobs := c.jobs - {id}, hosts := Bump(c.hosts, c.jobs[id].nodeId, -1)), base)
  {
    hide Bump, Load, HasHost;
    BumpShape(c.hosts, c.jobs[id].nodeId, -1);
    forall i | 0 <= i < |base| { LoadRemove(c.jobs, id, c.hosts[i].nodeId); }
    var c' := c.(jobs := c.jobs - {id}, hosts := Bump(c.hosts, c.jobs[id].nodeId, -1));
    SameHosts(c.hosts, c'.hosts);
  }

  ghost predicate SamePlaces(jobs: map<string, Job>, jobs': map<string, Job>) {
    jobs'.Keys == jobs.Keys && forall id :: id in jobs ==> jobs'[id].nodeId == jobs[id].nodeId
  }

  lemma PhasesCounted(c: Cluster, c': Cluster, base: seq<AtlasEntry>)
    requires Counted(c, base) && SamePlaces(c.jobs, c'.jobs) && c'.hosts == c.hosts
    ensures Counted(c', base)
  {
    forall node ensures Load(c'.jobs, node) == Load(c.jobs, node) {
      assert (set id | id in c'.jobs && c'.jobs[id].nodeId == node) == (set id | id in c.jobs && c.jobs[id].nodeId == node);
    }
    hide Load, HasHost;
    forall id | id in c'.jobs ensures HasHost(c'.hosts, c'.jobs[id].nodeId) {
      assert HasHost(c.hosts, c.jobs[id].nodeId);
    }
  }

  lemma SameHosts(a: seq<AtlasEntry>, b: seq<AtlasEntry>)
    requires |a| == |b| && forall i :: 0 <= i < |a| ==> a[i].nodeId == b[i].nodeId
    ensures forall node :: HasHost(a, node) <==> HasHost(b, node)
    ensures DistinctHosts(a) ==> DistinctHosts(b)
  {
    forall node ensures HasHost(a, node) <==> HasHost(b, node) {
      if HasHost(a, node) {
        var i :| 0 <= i < |a| && a[i].nodeId == node;
        assert b[i].nodeId == node;
      }
    }
  }

  // ---- the stages of a tick keep the split ---------------------------------------------------------

  lemma WithoutIds(replicas: seq<Replica>, id: string)
    ensures IdSet(Without(replicas, id)) == IdSet(replicas) - {id}
  {
    forall x ensures x in IdSet(Without(replicas, id)) <==> x in IdSet(replicas) - {id} { }
  }

  lemma MineRemove(jobs: map<string, Job>, replicas: seq<Replica>, others: map<string, Job>, id: string)
    requires Mine(jobs, replicas, others) && id in IdSet(replicas)
    ensures id in jobs && id !in others && Mine(jobs - {id}, Without(replicas, id), others)
    ensures IdSet(Without(replicas, id)) == IdSet(replicas) - {id}
  {
    WithoutUnique(replicas, id);
    WithoutIds(replicas, id);
    assert forall x :: x in Without(replicas, id) ==> x in replicas && x.jobId != id;
    var r :| r in replicas && r.jobId == id;
    hide Without, Unique;
  }

  lemma PartedRemove(jobs: map<string, Job>, replicas: seq<Replica>, others: map<string, Job>, id: string)
    requires Parted(jobs, replicas, others) && id in IdSet(replicas)
    ensures id in jobs && Parted(jobs - {id}, Without(replicas, id), others)
  {
    MineRemove(jobs, replicas, others, id);
    hide Mine, Without, IdSet;
  }

  lemma BumpNodes(hosts: seq<AtlasEntry>, node: string, delta: int)
    requires DistinctHosts(hosts) && HasHost(hosts, node)
    ensures |Bump(hosts, node, delta)| == |hosts|
    ensures forall i :: 0 <= i < |hosts| ==> Bump(hosts, node, delta)[i].nodeId == hosts[i].nodeId
  {
    BumpShape(hosts, node, delta);
    hide Bump;
  }

  lemma KillKeeps(c: Cluster, replicas: seq<Replica>, others: map<string, Job>, base: seq<AtlasEntry>, id: string)
    requires Good(c, replicas, others, base) && id in IdSet(replicas)
    ensures var (c', ok) := KillJob(c, id);
            && Good(c', if ok then Without(replicas, id) else replicas, others, base)
            && SameNodes(c, c')
  {
    if id !in c.killFails {
      PartedRemove(c.jobs, replicas, others, id);
      KillShape(c, base, id);
      CountedRemove(c, base, id);
      var c' := KillJob(c, id).0;
      FewerIssued(c, c');
      hide Counted, Bump, Parted, Without, IdSet, AllIssued, SameNodes;
    }
  }

  lemma KillShape(c: Cluster, base: seq<AtlasEntry>, id: string)
    requires Counted(c, base) && id in c.jobs
    ensures SameNodes(c, KillJob(c, id).0)
  {
    BumpNodes(c.hosts, c.jobs[id].nodeId, -1);
    hide Bump;
  }

  lemma FewerIssued(c: Cluster, c': Cluster)
    requires AllIssued(c) && c'.nextJob >= c.nextJob && c'.jobs.Keys <= c.jobs.Keys
    ensures AllIssued(c')
  {
    forall x | x in c'.jobs ensures Issued(c', x) {
      assert Issued(c, x);
    }
  }

  ghost predicate SameNodes(c: Cluster, c': Cluster) {
    |c.hosts| == |c'.hosts| && forall i :: 0 <= i < |c.hosts| ==> c.hosts[i].nodeId == c'.hosts[i].nodeId
  }

  lemma {:induction false} RunKillsKeeps(now: nat, c: Cluster, replicas: seq<Replica>, ids: seq<string>, others: map<string, Job>, base: seq<AtlasEntry>)
    requires Good(c, replicas, others, base)
    ensures var k := RunKills(FakeMesh(now), c, replicas, ids);
            Good(k.world, k.replicas, others, base) && SameNodes(c, k.world)
    decreases |ids|
  {
    if ids != [] {
      match Find(replicas, ids[0]) {
        case None => RunKillsKeeps(now, c, replicas, ids[1..], others, base);
        case Some(r) =>
          assert ids[0] in IdSet(replicas);
          KillKeeps(c, replicas, others, base, ids[0]);
          var (c1, ok) := KillJob(c, ids[0]);
          hide Good, Without, IdSet, KillJob;
          RunKillsKeeps(now, c1, if ok then Without(replicas, ids[0]) else replicas, ids[1..], others, base);
      }
    }
  }

  lemma {:induction false} RunSubstitutesKeeps(now: nat, c: Cluster, replicas: seq<Replica>, alternates: seq<string>, planned: seq<string>,
                                               excess: int, failed: nat, others: map<string, Job>, base: seq<AtlasEntry>)
    requires Good(c, replicas, others, base)
    ensures var k := RunSubstitutes(FakeMesh(now), c, replicas, alternates, planned, excess, failed);
            Good(k.world, k.replicas, others, base) && SameNodes(c, k.world)
    decreases |alternates|
  {
    hide Good, Without, IdSet;
    if alternates != [] && excess > 0 {
      var id, rest := alternates[0], alternates[1..];
      if id in planned || Find(replicas, id).None? {
        RunSubstitutesKeeps(now, c, replicas, rest, planned, excess, failed, others, base);
      } else {
        FoundIsTracked(replicas, id);
        KillKeeps(c, replicas, others, base, id);
        var (c1, ok) := KillJob(c, id);
        if ok {
          RunSubstitutesKeeps(now, c1, Without(replicas, id), rest, planned, excess - 1, SatSub(failed, 1), others, base);
        } else {
          RunSubstitutesKeeps(now, c1, replicas, rest, planned, excess, failed, others, base);
        }
      }
    }
  }

  lemma FoundIsTracked(replicas: seq<Replica>, id: string)
    requires Find(replicas, id).Some?
    ensures id in IdSet(replicas)
  {
  }

  lemma GrownIds(replicas: seq<Replica>, r: Replica)
    ensures IdSet(replicas + [r]) == IdSet(replicas) + {r.jobId}
  {
    var grown := replicas + [r];
    assert grown[|replicas|] in grown;
    forall x | x in IdSet(replicas) ensures x in IdSet(grown) {
      var y :| y in replicas && y.jobId == x;
      assert y in grown;
    }
  }

  lemma GrownUnique(replicas: seq<Replica>, r: Replica)
    requires Unique(replicas) && r.jobId !in IdSet(replicas)
    ensures Unique(replicas + [r])
  {
    var grown := replicas + [r];
    forall i, j | 0 <= i < j < |grown| ensures grown[i].jobId != grown[j].jobId {
      assert grown[i] == replicas[i] && replicas[i] in replicas;
    }
  }

  lemma MineAdd(jobs: map<string, Job>, replicas: seq<Replica>, others: map<string, Job>, r: Replica)
    requires Mine(jobs, replicas, others) && r.jobId !in jobs && jobs.Keys == IdSet(replicas) + others.Keys
    ensures Mine(jobs[r.jobId := Job(r.nodeId, Pending)], replicas + [r], others)
    ensures IdSet(replicas + [r]) == IdSet(replicas) + {r.jobId}
  {
    GrownUnique(replicas, r);
    GrownIds(replicas, r);
    hide IdSet, Unique;
  }

  lemma NextIssued(c: Cluster, c': Cluster)
    requires AllIssued(c) && c'.nextJob == c.nextJob + 1 && c'.jobs.Keys == c.jobs.Keys + {JobName(c.nextJob + 1)}
    ensures AllIssued(c')
  {
    hide JobName;
    forall x | x in c'.jobs ensures Issued(c', x) { StillIssued(c, c', x); }
  }

  lemma PartedAdd(jobs: map<string, Job>, replicas: seq<Replica>, others: map<string, Job>, r: Replica)
    requires Parted(jobs, replicas, others) && r.jobId !in jobs
    ensures Parted(jobs[r.jobId := Job(r.nodeId, Pending)], replicas + [r], others)
  {
    MineAdd(jobs, replicas, others, r);
    hide Mine, IdSet;
  }

  lemma DeployKeeps(c: Cluster, replicas: seq<Replica>, others: map<string, Job>, base: seq<AtlasEntry>, node: string, target: string)
    requires Good(c, replicas, others, base) && HasHost(c.hosts, node)
    ensures var (c', res) := DeployOn(c, node);
            && Good(c', if res.Some? then replicas + [Replica(res.value, node, target, Pending)] else replicas, others, base)
            && SameNodes(c, c')
  {
    var (c', res) := DeployOn(c, node);
    if c.deployFailOnce {
      FewerIssued(c, c');
    } else if node !in c.deployFails {
      DeployTakes(c, replicas, others, base, node, target);
    }
  }

  lemma DeployTakes(c: Cluster, replicas: seq<Replica>, others: map<string, Job>, base: seq<AtlasEntry>, node: string, target: string)
    requires Good(c, replicas, others, base) && HasHost(c.hosts, node) && !c.deployFailOnce && node !in c.deployFails
    ensures var (c', res) := DeployOn(c, node);
            && res.Some? && Good(c', replicas + [Replica(res.value, node, target, Pending)], others, base)
            && SameNodes(c, c')
  {
    assert DistinctHosts(c.hosts);
    hide Counted, Bump, Parted, JobName, IdSet, Issued, AllIssued;
    var id := JobName(c.nextJob + 1);
    NextIsNew(c);
    NotThere(c, id);
    PartedAdd(c.jobs, replicas, others, Replica(id, node, target, Pending));
    CountedAdd(c, base, id, node, c.nextJob + 1);
    BumpNodes(c.hosts, node, 1);
    NextIssued(c, DeployOn(c, node).0);
  }

  lemma NotThere(c: Cluster, id: string)
    requires AllIssued(c) && !Issued(c, id)
    ensures id !in c.jobs
  {
  }

  lemma StillIssued(c: Cluster, c': Cluster, x: string)
    requires c'.nextJob == c.nextJob + 1 && (Issued(c, x) || x == JobName(c.nextJob + 1))
    ensures Issued(c', x)
  {
    hide JobName;
  }

  ghost predicate OnHosts(cands: seq<Candidate>, hosts: seq<AtlasEntry>) {
    forall x :: x in cands ==> HasHost(hosts, x.nodeId)
  }

  lemma ChargeOnHosts(cands: seq<Candidate>, hosts: seq<AtlasEntry>)
    requires cands != [] && OnHosts(cands, hosts)
    ensures OnHosts(Charge(cands), hosts)
  {
    hide HasHost;
    SortMembers(BetterOrEqual, [cands[0].(score := cands[0].score - 150)] + cands[1..]);
    hide Sort;
  }

  lemma {:induction false} DropOnHosts(cands: seq<Candidate>, node: string, hosts: seq<AtlasEntry>)
    requires OnHosts(cands, hosts)
    ensures OnHosts(Drop(cands, node), hosts)
    decreases |cands|
  {
    if cands != [] { DropOnHosts(cands[1..], node, hosts); }
    hide HasHost;
  }

  lemma RankOnHosts(atlas: seq<AtlasEntry>, d: Deployment, now: nat, maxStale: nat)
    ensures OnHosts(Rank(atlas, d, now, maxStale), atlas)
  {
    RankContents(atlas, d, now, maxStale);
    hide Rank, Eligible;
    forall x | x in Rank(atlas, d, now, maxStale) ensures HasHost(atlas, x.nodeId) {
      var h :| h in atlas && Eligible(h, d, now, maxStale) && CandidateOf(h, d) == x;
      assert h.nodeId == x.nodeId;
    }
  }

  lemma SameNodesOnHosts(c: Cluster, c': Cluster, cands: seq<Candidate>)
    requires SameNodes(c, c') && OnHosts(cands, c.hosts)
    ensures OnHosts(cands, c'.hosts)
  {
    SameHosts(c.hosts, c'.hosts);
    hide HasHost;
  }

  lemma PlaceOneKeeps(now: nat, d: Deployment, target: string, p: Placing<Cluster>, others: map<string, Job>, base: seq<AtlasEntry>)
    requires p.left > 0 && p.candidates != []
    requires Good(p.world, p.replicas, others, base) && OnHosts(p.candidates, p.world.hosts)
    ensures var q := PlaceOne(FakeMesh(now), d, target, p);
            && Good(q.world, q.replicas, others, base) && SameNodes(p.world, q.world) && OnHosts(q.candidates, q.world.hosts)
  {
    var node := p.candidates[0].nodeId;
    DeployKeeps(p.world, p.replicas, others, base, node, target);
    ChargeOnHosts(p.candidates, p.world.hosts);
    DropOnHosts(p.candidates, node, p.world.hosts);
    var q := PlaceOne(FakeMesh(now), d, target, p);
    hide Good, Charge, Drop, DeployOn, OnHosts;
    SameNodesOnHosts(p.world, q.world, q.candidates);
  }

  lemma {:induction false} PlaceLoopKeeps(now: nat, d: Deployment, target: string, p: Placing<Cluster>, limit: nat,
                                          others: map<string, Job>, base: seq<AtlasEntry>)
    requires Good(p.world, p.replicas, others, base) && OnHosts(p.candidates, p.world.hosts)
    ensures var q := PlaceLoop(FakeMesh(now), d, target, p, limit);
            Good(q.world, q.replicas, others, base)
    decreases limit - p.attempts
  {
    hide Good, OnHosts;
    if p.left > 0 && p.attempts < limit && p.candidates != [] {
      PlaceOneKeeps(now, d, target, p, others, base);
      PlaceLoopKeeps(now, d, target, PlaceOne(FakeMesh(now), d, target, p), limit, others, base);
    }
  }

  lemma PlaceStageKeeps(now: nat, c: Cluster, d: Deployment, target: string, maxStale: nat, replicas: seq<Replica>, want: nat,
                        gate: Gate, others: map<string, Job>, base: seq<AtlasEntry>)
    requires Good(c, replicas, others, base)
    ensures var p := PlaceStage(FakeMesh(now), c, d, target, maxStale, replicas, want, gate).1;
            Good(p.world, p.replicas, others, base)
  {
    hide Good, OnHosts, PlaceLoop, Rank;
    if want > 0 && gate.Ready? {
      var cands := Rank(c.hosts, d, now, maxStale);
      RankOnHosts(c.hosts, d, now, maxStale);
      PlaceLoopKeeps(now, d, target, Placing(c, replicas, cands, [], want, 0, 0), MaxAttempts(want, |cands|), others, base);
    }
  }

  lemma {:induction false} ObserveAllStill(now: nat, c: Cluster, replicas: seq<Replica>, probe: Option<Probe>)
    ensures ObserveAll(FakeMesh(now), c, replicas, probe).0 == c
    decreases |replicas|
  {
    if replicas != [] { ObserveAllStill(now, c, replicas[1..], probe); }
  }

  lemma {:induction false} ObserveDepsStill(now: nat, c: Cluster, namespace: string, deps: seq<DependencyRef>, seen: map<string, DepReadiness>)
    ensures ObserveDeps(FakeMesh(now), c, namespace, deps, seen).0 == c
    decreases |deps|
  {
    if deps != [] {
      var o := ReadinessOf(c, ResolvedServiceName(deps[0], namespace));
      ObserveDepsStill(now, c, namespace, deps[1..], seen[deps[0].service := o]);
    }
  }

  lemma SameFleetKeeps(c: Cluster, a: seq<Replica>, b: seq<Replica>, others: map<string, Job>, base: seq<AtlasEntry>)
    requires SameFleet(a, b) && Good(c, a, others, base)
    ensures Good(c, b, others, base)
  {
    SameFleetIds(a, b);
    forall r | r in b ensures exists q :: q in a && q.jobId == r.jobId && q.nodeId == r.nodeId {
      var i :| 0 <= i < |b| && b[i] == r;
      assert a[i] in a;
    }
    forall r | r in a ensures exists q :: q in b && q.jobId == r.jobId && q.nodeId == r.nodeId {
      var i :| 0 <= i < |a| && a[i] == r;
      assert b[i] in b;
    }
    hide SameFleet, Unique, AllIssued, Counted;
    assert IdSet(a) == IdSet(b);
  }

  /** The stages of a tick against the fake cluster: watching it changes nothing. */
  lemma FakeStages(now: nat, cfg: Config, c: Cluster, h: Health, d: Deployment, target: string)
    ensures var dr := FakeMesh(now);
            var t := TickOf(dr, cfg, c, h, d, target);
            && t.kills == RunKills(dr, c, t.refreshed.replicas, t.step.toKill)
            && t.substitutes == Substitute(dr, t.kills, t.step.toKill, d.replicas, target)
            && t.placing == PlaceStage(dr, t.substitutes.world, d, target, cfg.maxStaleSecs, t.substitutes.replicas, t.step.toPlace, t.gate).1
            && t.world == Advertise(dr, t.placing.world, d, t.placing.replicas, t.gate).0
  {
    hide ObserveAll, ObserveDeps, Refresh, PlanStep, RunKills, Substitute, PlaceStage, Advertise, GateOf;
    var c1 := ObserveAll(FakeMesh(now), c, h.replicas, d.liveness).0;
    ObserveAllStill(now, c, h.replicas, d.liveness);
    ObserveDepsStill(now, c1, d.namespace, d.dependsOn, map[]);
    hide FakeMesh;
  }

  lemma SubstituteKeeps(now: nat, k: Kills<Cluster>, planned: seq<string>, desired: U32, target: string, others: map<string, Job>, base: seq<AtlasEntry>)
    requires Good(k.world, k.replicas, others, base)
    ensures var s := Substitute(FakeMesh(now), k, planned, desired, target); Good(s.world, s.replicas, others, base)
  {
    hide Good;
    if k.failed > 0 {
      var alternates := Ids(Pick(k.replicas, target, NewKinds()));
      RunSubstitutesKeeps(now, k.world, k.replicas, alternates, planned, |alternates| - desired, k.failed, others, base);
    }
  }

  lemma AdvertiseKeeps(now: nat, c: Cluster, d: Deployment, replicas: seq<Replica>, gate: Gate, others: map<string, Job>, base: seq<AtlasEntry>)
    requires Good(c, replicas, others, base)
    ensures Good(Advertise(FakeMesh(now), c, d, replicas, gate).0, replicas, others, base)
  {
    var c' := Advertise(FakeMesh(now), c, d, replicas, gate).0;
    FewerIssued(c, c');
    hide Parted, AllIssued;
  }

  /** A tick of one deployment keeps the split: what it tracks is what it has on the cluster, the
      others' jobs are untouched, and the host counts stay right. */
  lemma TickKeeps(now: nat, cfg: Config, c: Cluster, h: Health, d: Deployment, target: string, others: map<string, Job>, base: seq<AtlasEntry>)
    requires Good(c, h.replicas, others, base)
    ensures var t := TickOf(FakeMesh(now), cfg, c, h, d, target);
            Good(t.world, t.After().replicas, others, base)
  {
    var dr := FakeMesh(now);
    var t := TickOf(dr, cfg, c, h, d, target);
    RefreshSameFleet(dr, cfg, c, h, d, target);
    FakeStages(now, cfg, c, h, d, target);
    hide TickOf, Good, RunKills, Substitute, PlaceStage, Advertise, FakeMesh;
    SameFleetKeeps(c, h.replicas, t.refreshed.replicas, others, base);
    RunKillsKeeps(now, c, t.refreshed.replicas, t.step.toKill, others, base);
    SubstituteKeeps(now, t.kills, t.step.toKill, d.replicas, target, others, base);
    PlaceStageKeeps(now, t.substitutes.world, d, target, cfg.maxStaleSecs, t.substitutes.replicas, t.step.toPlace, t.gate, others, base);
    AdvertiseKeeps(now, t.placing.world, d, t.placing.replicas, t.gate, others, base);
  }
}
