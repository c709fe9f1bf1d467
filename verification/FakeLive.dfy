/** The liveness law on the concrete cluster: nothing is assumed of it but what it starts with. */
module FakeLiveness {
  import opened Text
  import opened Deployments
  import opened Replicas
  import opened Rollout
  import opened Planner
  import opened Placement
  import opened Deps
  import opened Driver
  import opened Ticking
  import opened Accounts
  import opened Identity
  import opened WorkLaw
  import opened Safety
  import opened PlacementLoop
  import opened HealthLaw
  import opened HeldRuns
  import opened Convergence
  import opened FakeCluster
  import opened Ownership

  /** No injected fault, and every job starting or running. */
  predicate Calm(c: Cluster) {
    && c.killFails == [] && c.deployFails == [] && !c.deployFailOnce && c.probeFails == []
    && forall id :: id in c.jobs ==> c.jobs[id].phase.IsAlive()
  }

  function Accepting(): Cluster -> bool {
    (c: Cluster) => c.deployFails == [] && !c.deployFailOnce
  }

  /** Still calm, and answering service lookups as before. */
  ghost predicate StaysCalm(c: Cluster, c': Cluster) {
    Calm(c) ==> Calm(c') && c'.readiness == c.readiness
  }

  lemma {:induction false} RunKillsCalm(now: nat, c: Cluster, replicas: seq<Replica>, ids: seq<string>)
    requires Calm(c)
    ensures var k := RunKills(FakeMesh(now), c, replicas, ids);
            k.failed == 0 && StaysCalm(c, k.world)
    decreases |ids|
  {
    hide Bump, Find, Without;
    if ids != [] {
      match Find(replicas, ids[0]) {
        case None => RunKillsCalm(now, c, replicas, ids[1..]);
        case Some(r) =>
          var (c1, ok) := KillJob(c, ids[0]);
          assert ok && Calm(c1);
          hide Calm, KillJob;
          RunKillsCalm(now, c1, Without(replicas, ids[0]), ids[1..]);
      }
    }
  }

  lemma DeployCalm(c: Cluster, node: string)
    requires Calm(c)
    ensures DeployOn(c, node).1.Some? && StaysCalm(c, DeployOn(c, node).0)
  {
    hide Bump, JobName;
  }

  lemma {:induction false} PlaceLoopCalm(now: nat, d: Deployment, target: string, p: Placing<Cluster>, limit: nat)
    requires Calm(p.world)
    ensures StaysCalm(p.world, PlaceLoop(FakeMesh(now), d, target, p, limit).world)
    decreases limit - p.attempts
  {
    hide Charge, Drop, DeployOn, Calm;
    if p.left > 0 && p.attempts < limit && p.candidates != [] {
      DeployCalm(p.world, p.candidates[0].nodeId);
      PlaceLoopCalm(now, d, target, PlaceOne(FakeMesh(now), d, target, p), limit);
    }
  }

  lemma PlaceStageCalm(now: nat, c: Cluster, d: Deployment, target: string, maxStale: nat, replicas: seq<Replica>, want: nat, gate: Gate)
    requires Calm(c)
    ensures StaysCalm(c, PlaceStage(FakeMesh(now), c, d, target, maxStale, replicas, want, gate).1.world)
  {
    hide PlaceLoop, Rank, Calm;
    if want > 0 && gate.Ready? {
      var cands := Rank(c.hosts, d, now, maxStale);
      PlaceLoopCalm(now, d, target, Placing(c, replicas, cands, [], want, 0, 0), MaxAttempts(want, |cands|));
    }
  }

  /** On a calm cluster a tick's kills all succeed and no substitute is needed. */
  lemma TickCalm(now: nat, cfg: Config, c: Cluster, h: Health, d: Deployment, target: string)
    requires Calm(c)
    ensures var t := TickOf(FakeMesh(now), cfg, c, h, d, target);
            && t.kills.failed == 0 && t.substitutes == Kills(t.kills.world, t.kills.replicas, [], 0)
            && StaysCalm(c, t.kills.world) && StaysCalm(c, t.world)
  {
    var dr := FakeMesh(now);
    var t := TickOf(dr, cfg, c, h, d, target);
    FakeStages(now, cfg, c, h, d, target);
    hide TickOf, RunKills, PlaceStage, FakeMesh;
    RunKillsCalm(now, c, t.refreshed.replicas, t.step.toKill);
    PlaceStageCalm(now, t.substitutes.world, d, target, cfg.maxStaleSecs, t.substitutes.replicas, t.step.toPlace, t.gate);
    AdvertiseCalm(now, t.placing.world, d, t.placing.replicas, t.gate);
    hide Calm, Advertise;
  }

  lemma AdvertiseCalm(now: nat, c: Cluster, d: Deployment, replicas: seq<Replica>, gate: Gate)
    requires Calm(c)
    ensures StaysCalm(c, Advertise(FakeMesh(now), c, d, replicas, gate).0)
  {
  }

  // ---- what a refresh reads ---------------------------------------------------------------------------

  lemma {:induction false} FakeObserves(now: nat, c: Cluster, replicas: seq<Replica>, probe: Option<Probe>)
    ensures var obs := ObserveAll(FakeMesh(now), c, replicas, probe).1;
            forall i :: 0 <= i < |replicas| ==> obs[i] == PhaseOf(c, replicas[i].jobId, probe)
    decreases |replicas|
  {
    if replicas != [] { FakeObserves(now, c, replicas[1..], probe); }
  }

  /** After a refresh every tracked replica has the phase of its job. */
  lemma RefreshReads(now: nat, cfg: Config, c: Cluster, h: Health, d: Deployment, target: string)
    requires Calm(c) && Unique(h.replicas) && forall r :: r in h.replicas ==> r.jobId in c.jobs
    ensures var t := TickOf(FakeMesh(now), cfg, c, h, d, target);
            forall r :: r in t.refreshed.replicas ==> r.jobId in c.jobs && r.phase == c.jobs[r.jobId].phase
  {
    var dr := FakeMesh(now);
    var obs := ObserveAll(dr, c, h.replicas, d.liveness).1;
    FakeObserves(now, c, h.replicas, d.liveness);
    RefreshSameFleet(dr, cfg, c, h, d, target);
    hide ObserveAll, ObserveDeps, PlanStep, RunKills, Substitute, PlaceStage, Advertise, GateOf, Refresh, FakeMesh, Find, Unique;
    var t := TickOf(dr, cfg, c, h, d, target);
    forall r | r in t.refreshed.replicas ensures r.jobId in c.jobs && r.phase == c.jobs[r.jobId].phase {
      var i :| 0 <= i < |t.refreshed.replicas| && t.refreshed.replicas[i] == r;
      assert h.replicas[i] in h.replicas;
      RefreshAt(h, obs, cfg.failureThreshold, i);
    }
  }

  lemma {:induction false} NobodyDied(a: seq<Replica>, b: seq<Replica>, target: string)
    requires |a| == |b| && forall r :: r in b ==> r.phase.IsAlive()
    ensures MovesOf(a, b, target).newDied == 0
  {
    if a != [] {
      assert b[0] in b;
      NobodyDied(a[1..], b[1..], target);
    }
  }

  lemma NobodyStarting(s: seq<Replica>, target: string)
    requires forall r :: r in s ==> r.phase == Running
    ensures TallyOf(s, target).np == 0
  {
    CountNone(s, target, NewPending);
    hide Count;
  }

  lemma NobodyDead(s: seq<Replica>, target: string)
    requires forall r :: r in s ==> r.phase.IsAlive()
    ensures TallyOf(s, target).Live() == |s|
  {
    CountNone(s, target, Dead);
    TallySize(s, target);
    hide Count;
  }

  // ---- room ----------------------------------------------------------------------------------------------

  /** Host `i` would still fit a replica with its own jobs, the foreign ones and `bound` more on it. */
  ghost predicate Room(base: seq<AtlasEntry>, i: nat, others: map<string, Job>, bound: nat, d: Deployment, now: nat, maxStale: nat) {
    && i < |base|
    && Eligible(base[i].(runningJobs := base[i].runningJobs + Load(others, base[i].nodeId) + bound), d, now, maxStale)
  }

  lemma IdsAtMost(s: seq<Replica>)
    ensures |IdSet(s)| <= |s|
  {
    if s != [] {
      var rest := s[1..];
      assert s == [s[0]] + rest;
      IdsAtMost(rest);
      assert IdSet(s) == IdSet(rest) + {s[0].jobId};
    }
  }

  lemma LoadAtMost(jobs: map<string, Job>, replicas: seq<Replica>, others: map<string, Job>, node: string)
    requires Parted(jobs, replicas, others)
    ensures Load(jobs, node) <= Load(others, node) + |replicas|
  {
    var here := set id | id in jobs && jobs[id].nodeId == node;
    var theirs := set id | id in others && others[id].nodeId == node;
    hide IdSet, Mine;
    assert here <= theirs + IdSet(replicas);
    Within(here, theirs, IdSet(replicas));
    IdsAtMost(replicas);
  }

  lemma Within(a: set<string>, b: set<string>, c: set<string>)
    requires a <= b + c
    ensures |a| <= |b| + |c|
  {
    SubsetSize(a, b + c);
    assert |b + c| <= |b| + |c|;
  }

  /** With no more than `bound` replicas about, the roomy host is ranked. */
  lemma RoomyIsRanked(now: nat, c: Cluster, replicas: seq<Replica>, others: map<string, Job>, base: seq<AtlasEntry>, i: nat,
                      bound: nat, d: Deployment, maxStale: nat)
    requires Parted(c.jobs, replicas, others) && Counted(c, base) && |replicas| <= bound
    requires Room(base, i, others, bound, d, now, maxStale)
    ensures Lists(Rank(c.hosts, d, now, maxStale), base[i].nodeId) && DistinctCandidates(Rank(c.hosts, d, now, maxStale))
  {
    RankDistinct(c.hosts, d, now, maxStale);
    RankContents(c.hosts, d, now, maxStale);
    LoadAtMost(c.jobs, replicas, others, base[i].nodeId);
    hide Rank, Load, Eligible, Parted;
    var host := c.hosts[i];
    ImprovementHelps(host, base[i].(runningJobs := base[i].runningJobs + Load(others, base[i].nodeId) + bound), d, now, maxStale);
    assert host in c.hosts && CandidateOf(host, d) in Rank(c.hosts, d, now, maxStale);
  }

  lemma HostsAccept(now: nat, d: Deployment, node: string)
    ensures NeverRejects(FakeMesh(now), d, node, Accepting())
  {
    hide Bump, JobName;
  }

  lemma CalmAccepts(c: Cluster)
    requires Calm(c)
    ensures Accepting()(c)
  {
  }

  // ---- one tick ------------------------------------------------------------------------------------------

  function Lookups(readiness: map<string, DepReadiness>): string -> Option<DepReadiness> {
    s => Some(if s in readiness then readiness[s] else Absent)
  }

  predicate DepsUp(readiness: map<string, DepReadiness>, d: Deployment) {
    forall dep :: dep in d.dependsOn ==> Met(dep, Answer(Lookups(readiness), dep, d.namespace))
  }

  lemma GateOpen(now: nat, cfg: Config, c: Cluster, h: Health, d: Deployment, target: string)
    requires DepsUp(c.readiness, d)
    ensures TickOf(FakeMesh(now), cfg, c, h, d, target).gate.Ready?
  {
    var open := (x: Cluster) => x.readiness == c.readiness;
    hide TickOf, Answer;
    WaitingMeans(FakeMesh(now), Lookups(c.readiness), open, cfg, c, h, d, target);
  }

  /** Everything the run needs of the cluster and of what is tracked on it. */
  ghost predicate Fit(c: Cluster, h: Health, d: Deployment, others: map<string, Job>, base: seq<AtlasEntry>, i: nat, bound: nat,
                      now: nat, maxStale: nat)
  {
    && Good(c, h.replicas, others, base) && Owned(Issued, c, h)
    && Calm(c) && DepsUp(c.readiness, d) && Room(base, i, others, bound, d, now, maxStale)
    && |h.replicas| <= bound && Ceiling(d.strategy, d.replicas) <= bound
  }

  lemma GoodTracked(c: Cluster, replicas: seq<Replica>, others: map<string, Job>, base: seq<AtlasEntry>)
    requires Good(c, replicas, others, base)
    ensures Unique(replicas) && forall r :: r in replicas ==> r.jobId in c.jobs
  {
  }

  lemma RefreshAlive(now: nat, cfg: Config, c: Cluster, h: Health, d: Deployment, target: string, others: map<string, Job>, base: seq<AtlasEntry>)
    requires Good(c, h.replicas, others, base) && Calm(c)
    ensures var t := TickOf(FakeMesh(now), cfg, c, h, d, target);
            && |t.refreshed.replicas| == |h.replicas|
            && (forall r :: r in t.refreshed.replicas ==> r.jobId in c.jobs && r.phase == c.jobs[r.jobId].phase && r.phase.IsAlive())
            && Deaths(h, t, target) == 0
  {
    GoodTracked(c, h.replicas, others, base);
    RefreshReads(now, cfg, c, h, d, target);
    RefreshSameFleet(FakeMesh(now), cfg, c, h, d, target);
    hide TickOf, FakeMesh, Good;
    NobodyDied(h.replicas, TickOf(FakeMesh(now), cfg, c, h, d, target).refreshed.replicas, target);
    hide MovesOf;
  }

  /** A tick on a fit cluster is fair. */
  lemma FitIsFair(now: nat, cfg: Config, c: Cluster, h: Health, d: Deployment, target: string, others: map<string, Job>,
                  base: seq<AtlasEntry>, i: nat, bound: nat)
    requires Fit(c, h, d, others, base, i, bound, now, cfg.maxStaleSecs)
    ensures Fair(FakeMesh(now), d, h, TickOf(FakeMesh(now), cfg, c, h, d, target), target, Accepting())
  {
    hide TickOf, FakeMesh, Good, Owned, Calm, DepsUp, Room, Accepting, RunKills, PlaceStage, Substitute, Advertise, Deaths, NeverRejects;
    var t := TickOf(FakeMesh(now), cfg, c, h, d, target);
    RefreshAlive(now, cfg, c, h, d, target, others, base);
    TickCalm(now, cfg, c, h, d, target);
    GateOpen(now, cfg, c, h, d, target);
    if t.step.toPlace > 0 {
      RankedInTick(now, cfg, c, h, d, target, others, base, i, bound);
      HostsAccept(now, d, base[i].nodeId);
    }
  }

  lemma RankedInTick(now: nat, cfg: Config, c: Cluster, h: Health, d: Deployment, target: string, others: map<string, Job>,
                     base: seq<AtlasEntry>, i: nat, bound: nat)
    requires Fit(c, h, d, others, base, i, bound, now, cfg.maxStaleSecs)
    requires TickOf(FakeMesh(now), cfg, c, h, d, target).step.toPlace > 0
    ensures var t := TickOf(FakeMesh(now), cfg, c, h, d, target);
            && i < |base| && DistinctCandidates(t.candidates) && Lists(t.candidates, base[i].nodeId)
            && Accepting()(FakeMesh(now).atlas(t.substitutes.world).0)
  {
    hide TickOf, Good, Owned, Calm, DepsUp, Eligible, Load, Accepting, RunKills, Rank, Lists, DistinctCandidates, Unique, FakeMesh;
    var t := TickOf(FakeMesh(now), cfg, c, h, d, target);
    GateOpen(now, cfg, c, h, d, target);
    TickCalm(now, cfg, c, h, d, target);
    CandidatesRanked(now, cfg, c, h, d, target);
    KillsKeep(now, cfg, c, h, d, target, others, base);
    CalmAccepts(t.kills.world);
    assert FakeMesh(now).atlas(t.substitutes.world).0 == t.kills.world by { AtlasStill(now, t.kills.world); }
    RoomyIsRanked(now, t.kills.world, t.kills.replicas, others, base, i, bound, d, cfg.maxStaleSecs);
  }

  lemma AtlasStill(now: nat, c: Cluster)
    ensures FakeMesh(now).atlas(c).0 == c
  {
  }

  lemma CandidatesRanked(now: nat, cfg: Config, c: Cluster, h: Health, d: Deployment, target: string)
    requires var t := TickOf(FakeMesh(now), cfg, c, h, d, target); t.step.toPlace > 0 && t.gate.Ready?
    ensures var t := TickOf(FakeMesh(now), cfg, c, h, d, target);
            t.candidates == Rank(t.substitutes.world.hosts, d, now, cfg.maxStaleSecs)
  {
    hide TickOf, RunKills, Substitute, Advertise, Place, Rank, PlanStep;
    var w2 := TickStages(FakeMesh(now), cfg, c, h, d, target);
  }

  lemma KillsKeep(now: nat, cfg: Config, c: Cluster, h: Health, d: Deployment, target: string, others: map<string, Job>,
                  base: seq<AtlasEntry>)
    requires Good(c, h.replicas, others, base)
    ensures var t := TickOf(FakeMesh(now), cfg, c, h, d, target);
            && Parted(t.kills.world.jobs, t.kills.replicas, others) && Counted(t.kills.world, base)
            && |t.kills.replicas| <= |h.replicas|
  {
    hide TickOf, Good, RunKills, FakeMesh, Substitute, PlaceStage, Advertise;
    var t := TickOf(FakeMesh(now), cfg, c, h, d, target);
    RefreshSameFleet(FakeMesh(now), cfg, c, h, d, target);
    FakeStages(now, cfg, c, h, d, target);
    SameFleetKeeps(c, h.replicas, t.refreshed.replicas, others, base);
    RunKillsKeeps(now, c, t.refreshed.replicas, t.step.toKill, others, base);
    RunKillsFewer(now, c, t.refreshed.replicas, t.step.toKill);
    GoodParts(t.kills.world, t.kills.replicas, others, base);
  }

  lemma GoodParts(c: Cluster, replicas: seq<Replica>, others: map<string, Job>, base: seq<AtlasEntry>)
    requires Good(c, replicas, others, base)
    ensures Parted(c.jobs, replicas, others) && Counted(c, base)
  {
  }

  lemma {:induction false} RunKillsFewer(now: nat, c: Cluster, replicas: seq<Replica>, ids: seq<string>)
    ensures |RunKills(FakeMesh(now), c, replicas, ids).replicas| <= |replicas|
    decreases |ids|
  {
    hide FakeMesh, Find, Without;
    if ids != [] {
      match Find(replicas, ids[0]) {
        case None => RunKillsFewer(now, c, replicas, ids[1..]);
        case Some(r) =>
          var (c1, ok) := FakeMesh(now).kill(c, r.nodeId, ids[0]);
          RunKillsFewer(now, c1, if ok then Without(replicas, ids[0]) else replicas, ids[1..]);
      }
    }
  }

  /** Everything a tick leaves tracked is alive, and there is no more of it than there may be. */
  lemma FitAfter(now: nat, cfg: Config, c: Cluster, h: Health, d: Deployment, target: string, others: map<string, Job>,
                 base: seq<AtlasEntry>, i: nat, bound: nat)
    requires Fit(c, h, d, others, base, i, bound, now, cfg.maxStaleSecs)
    ensures var t := TickOf(FakeMesh(now), cfg, c, h, d, target);
            Fit(t.world, t.After(), d, others, base, i, bound, now, cfg.maxStaleSecs)
  {
    hide TickOf, FakeMesh, Good, Owned, Calm, DepsUp, Room, TallyOf, Ceiling, Tally.Live, NeverReissues, Unique;
    var dr := FakeMesh(now);
    var t := TickOf(dr, cfg, c, h, d, target);
    FakeNeverReissues(now);
    TickKeeps(now, cfg, c, h, d, target, others, base);
    TickOwns(dr, Issued, cfg, c, h, d, target);
    TickCalm(now, cfg, c, h, d, target);
    RefreshAlive(now, cfg, c, h, d, target, others, base);
    AfterMembers(dr, Issued, cfg, c, h, d, target);
    GoodTracked(c, h.replicas, others, base);
    SurgeCeiling(dr, cfg, c, h, d, target);
    NobodyDead(t.refreshed.replicas, target);
    assert forall r :: r in t.After().replicas ==> r.phase.IsAlive();
    NobodyDead(t.After().replicas, target);
  }

  // ---- between ticks -------------------------------------------------------------------------------------

  function Readied(jobs: map<string, Job>): map<string, Job> {
    map id | id in jobs :: if jobs[id].phase == Pending then jobs[id].(phase := Running) else jobs[id]
  }

  lemma ReadyParted(jobs: map<string, Job>, replicas: seq<Replica>, others: map<string, Job>)
    requires Parted(jobs, replicas, others)
    ensures Parted(Readied(jobs), replicas, Readied(others)) && SamePlaces(jobs, Readied(jobs)) && SamePlaces(others, Readied(others))
  {
    hide IdSet, Unique;
  }

  lemma SamePlacesLoad(a: map<string, Job>, b: map<string, Job>, node: string)
    requires SamePlaces(a, b)
    ensures Load(a, node) == Load(b, node)
  {
    assert (set id | id in a && a[id].nodeId == node) == (set id | id in b && b[id].nodeId == node);
  }

  lemma ReadyGood(c: Cluster, replicas: seq<Replica>, others: map<string, Job>, base: seq<AtlasEntry>)
    requires Good(c, replicas, others, base)
    ensures Good(AllReady(c), replicas, Readied(others), base) && SamePlaces(others, Readied(others))
  {
    ReadyParted(c.jobs, replicas, others);
    assert AllReady(c).jobs == Readied(c.jobs);
    FewerIssued(c, AllReady(c));
    PhasesCounted(c, AllReady(c), base);
    hide Parted, AllIssued, Counted;
  }

  /** Starting jobs get ready between ticks: still fit, and every job is running. */
  lemma FitReady(now: nat, c: Cluster, h: Health, d: Deployment, others: map<string, Job>, base: seq<AtlasEntry>, i: nat, bound: nat, maxStale: nat)
    requires Fit(c, h, d, others, base, i, bound, now, maxStale)
    ensures Fit(AllReady(c), h, d, Readied(others), base, i, bound, now, maxStale)
    ensures forall id :: id in AllReady(c).jobs ==> AllReady(c).jobs[id].phase == Running
  {
    hide Good, Load, Eligible, DepsUp, Unique;
    ReadyGood(c, h.replicas, others, base);
    SamePlacesLoad(others, Readied(others), base[i].nodeId);
    forall id | Issued(c, id) ensures Issued(AllReady(c), id) { }
  }

  lemma {:induction false} FitRunIsFair(now: nat, cfg: Config, c: Cluster, h: Health, d: Deployment, target: string, budget: nat,
                                        others: map<string, Job>, base: seq<AtlasEntry>, i: nat, bound: nat, quiet: nat)
    requires Fit(c, h, d, others, base, i, bound, now, cfg.maxStaleSecs)
    requires quiet == 0 ==> forall id :: id in c.jobs ==> c.jobs[id].phase == Running
    ensures var dr := FakeMesh(now);
            FairRun(dr, d, h, Run(dr, cfg, Worlds(dr, AllReady, cfg, c, h, d, target, budget), h, d, target), target, Accepting(), quiet)
    decreases budget
  {
    hide TickOf, Fair, Readied, AllReady, TallyOf, FakeMesh;
    if budget > 0 {
      var dr := FakeMesh(now);
      var t := TickOf(dr, cfg, c, h, d, target);
      FitIsFair(now, cfg, c, h, d, target, others, base, i, bound);
      FitAfter(now, cfg, c, h, d, target, others, base, i, bound);
      FitReady(now, t.world, t.After(), d, others, base, i, bound, cfg.maxStaleSecs);
      if quiet == 0 { QuietRefresh(now, cfg, c, h, d, target, others, base, i, bound); }
      hide Fit;
      var next := AllReady(t.world);
      FitRunIsFair(now, cfg, next, t.After(), d, target, budget - 1, Readied(others), base, i, bound, SatSub(quiet, 1));
      var ws, rest := Worlds(dr, AllReady, cfg, c, h, d, target, budget), Worlds(dr, AllReady, cfg, next, t.After(), d, target, budget - 1);
      assert ws == [c] + rest;
      var ticks, later := Run(dr, cfg, ws, h, d, target), Run(dr, cfg, rest, t.After(), d, target);
      assert ws[1..] == rest && ticks == [t] + later;
      assert ticks[1..] == later;
    }
  }

  lemma QuietRefresh(now: nat, cfg: Config, c: Cluster, h: Health, d: Deployment, target: string, others: map<string, Job>,
                     base: seq<AtlasEntry>, i: nat, bound: nat)
    requires Fit(c, h, d, others, base, i, bound, now, cfg.maxStaleSecs)
    requires forall id :: id in c.jobs ==> c.jobs[id].phase == Running
    ensures TallyOf(TickOf(FakeMesh(now), cfg, c, h, d, target).refreshed.replicas, target).np == 0
  {
    hide TickOf, FakeMesh, Good, Calm, Owned, TallyOf;
    RefreshAlive(now, cfg, c, h, d, target, others, base);
    NobodyStarting(TickOf(FakeMesh(now), cfg, c, h, d, target).refreshed.replicas, target);
  }

  /** From any fault-free start in which the tracked replicas are jobs of the cluster and one host has
      room, `converge` reports done within two ticks more than the work there is. */
  lemma FakeConverges(now: nat, cfg: Config, c: Cluster, h: Health, d: Deployment, target: string, budget: nat, last: TickReport,
                      others: map<string, Job>, base: seq<AtlasEntry>, i: nat)
    requires CanMove(d.strategy, d.replicas)
    requires Fit(c, h, d, others, base, i, Max(|h.replicas|, Ceiling(d.strategy, d.replicas)), now, cfg.maxStaleSecs)
    requires budget >= WorkLeft(d.replicas, TallyOf(h.replicas, target)) + 2
    ensures ConvergeOf(FakeMesh(now), AllReady, cfg, c, h, d, target, budget, last).2.done
  {
    hide TickOf, TallyOf, WorkLeft, FairRun, Good, Calm, DepsUp, Room, Owned, NeverReissues;
    FakeNeverReissues(now);
    FitRunIsFair(now, cfg, c, h, d, target, budget, others, base, i, Max(|h.replicas|, Ceiling(d.strategy, d.replicas)), 1);
    forall v ensures Remembers(Issued, v, AllReady(v)) { }
    hide FakeMesh;
    ConvergeReachesDone(FakeMesh(now), Issued, AllReady, cfg, c, h, d, target, budget, last, Accepting());
  }

  lemma NothingThere(hosts: seq<AtlasEntry>, readiness: map<string, DepReadiness>, node: string)
    requires DistinctHosts(hosts)
    ensures Good(Bare(hosts).(readiness := readiness), [], map[], hosts)
    ensures Load(map[], node) == 0
  {
    var none: map<string, Job> := map[];
    hide Load;
    forall n ensures Load(none, n) == 0 { LoadAtMostAll(none, n); }
    assert IdSet([]) == {};
  }

  lemma BareIsFit(now: nat, hosts: seq<AtlasEntry>, readiness: map<string, DepReadiness>, d: Deployment, i: nat, maxStale: nat)
    requires DepsUp(readiness, d) && DistinctHosts(hosts) && i < |hosts|
    requires Eligible(hosts[i].(runningJobs := hosts[i].runningJobs + Ceiling(d.strategy, d.replicas)), d, now, maxStale)
    ensures Fit(Bare(hosts).(readiness := readiness), Health([], map[]), d, map[], hosts, i, Ceiling(d.strategy, d.replicas), now, maxStale)
  {
    NothingThere(hosts, readiness, hosts[i].nodeId);
    hide Eligible, Good, Load, Ceiling, DepsUp;
  }

  lemma WorkAtFirst(desired: U32, target: string)
    ensures WorkLeft(desired, TallyOf([], target)) == desired
  {
    TallyNone(target);
    hide Count;
  }

  /** A first rollout: nothing runs yet, the services it depends on are up, and one host has room for
      the ceiling; then `converge` reports done within the desired count plus two ticks. */
  lemma FirstRolloutConverges(now: nat, cfg: Config, hosts: seq<AtlasEntry>, readiness: map<string, DepReadiness>, d: Deployment,
                              target: string, i: nat, last: TickReport)
    requires CanMove(d.strategy, d.replicas) && DepsUp(readiness, d)
    requires DistinctHosts(hosts) && i < |hosts|
    requires Eligible(hosts[i].(runningJobs := hosts[i].runningJobs + Ceiling(d.strategy, d.replicas)), d, now, cfg.maxStaleSecs)
    ensures ConvergeOf(FakeMesh(now), AllReady, cfg, Bare(hosts).(readiness := readiness), Health([], map[]), d, target,
                       d.replicas + 2, last).2.done
  {
    hide ConvergeOf, TickOf, FakeMesh, Eligible, Fit, TallyOf, CanMove, WorkLeft, Ceiling, AllReady, Rank, DepsUp;
    BareIsFit(now, hosts, readiness, d, i, cfg.maxStaleSecs);
    WorkAtFirst(d.replicas, target);
    FakeConverges(now, cfg, Bare(hosts).(readiness := readiness), Health([], map[]), d, target, d.replicas + 2, last, map[], hosts, i);
  }
}
