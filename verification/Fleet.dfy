/** The whole fleet on the fake cluster: whatever is applied, rolled back, broken or reconciled, the
    jobs there are exactly the tracked replicas of all deployments, each owned once. */
module Fleet {
  import opened Text
  import opened Deployments
  import opened Replicas
  import opened Placement
  import opened Deps
  import opened Ticking
  import opened Template
  import opened Stores
  import opened FakeCluster
  import opened Planner
  import opened Ownership
  import opened Daemon

  /** The tracked ids are all different and are jobs on the nodes they claim. */
  ghost predicate Tracked(jobs: map<string, Job>, replicas: seq<Replica>) {
    Unique(replicas) && forall r :: r in replicas ==> r.jobId in jobs && jobs[r.jobId].nodeId == r.nodeId
  }

  ghost predicate Apart(a: seq<Replica>, b: seq<Replica>) {
    IdSet(a) !! IdSet(b)
  }

  ghost predicate AllTracked(jobs: map<string, Job>, deployments: map<string, Managed>) {
    forall k :: k in deployments ==> Tracked(jobs, deployments[k].replicas)
  }

  ghost predicate AllApart(deployments: map<string, Managed>) {
    forall k, l :: k in deployments && l in deployments && k != l ==> Apart(deployments[k].replicas, deployments[l].replicas)
  }

  ghost predicate Claims(deployments: map<string, Managed>, k: string, id: string) {
    k in deployments && id in IdSet(deployments[k].replicas)
  }

  ghost predicate NoOrphans(jobs: map<string, Job>, deployments: map<string, Managed>) {
    forall id :: id in jobs ==> exists k :: Claims(deployments, k, id)
  }

  /** Every tracked replica is a job, no job belongs to two deployments, and each belongs to one. */
  ghost predicate Divided(jobs: map<string, Job>, deployments: map<string, Managed>) {
    AllTracked(jobs, deployments) && AllApart(deployments) && NoOrphans(jobs, deployments)
  }

  ghost predicate Sound(c: Cluster, deployments: map<string, Managed>, base: seq<AtlasEntry>) {
    Divided(c.jobs, deployments) && AllIssued(c) && Counted(c, base)
  }

  /** The jobs that are not these replicas. */
  function Rest(jobs: map<string, Job>, replicas: seq<Replica>): map<string, Job> {
    map id | id in jobs && id !in IdSet(replicas) :: jobs[id]
  }

  /** Jobs of `replicas` are there, as they were. */
  ghost predicate Untouched(before: map<string, Job>, after: map<string, Job>, replicas: seq<Replica>) {
    forall id :: id in IdSet(replicas) ==> id in before && id in after && after[id] == before[id]
  }

  // ---- one deployment's tick, seen from the fleet ---------------------------------------------------

  lemma TrackedIds(jobs: map<string, Job>, replicas: seq<Replica>)
    requires Tracked(jobs, replicas)
    ensures IdSet(replicas) <= jobs.Keys
  {
  }

  lemma DividedParts(jobs: map<string, Job>, replicas: seq<Replica>)
    requires Tracked(jobs, replicas)
    ensures Parted(jobs, replicas, Rest(jobs, replicas))
  {
    TrackedIds(jobs, replicas);
    forall r | r in replicas ensures r.jobId in IdSet(replicas) { }
    hide IdSet, Unique;
  }

  lemma OtherSurvives(jobs: map<string, Job>, jobs': map<string, Job>, mine: seq<Replica>, theirs: seq<Replica>)
    requires Tracked(jobs, theirs) && Apart(mine, theirs) && Theirs(jobs', Rest(jobs, mine))
    ensures Tracked(jobs', theirs) && Untouched(jobs, jobs', theirs)
  {
    TrackedIds(jobs, theirs);
    forall r | r in theirs ensures r.jobId in IdSet(theirs) { }
    hide IdSet, Unique;
    forall id | id in IdSet(theirs) ensures id in jobs && id in jobs' && jobs'[id] == jobs[id] {
      assert id in Rest(jobs, mine);
    }
  }

  lemma StaysApart(jobs: map<string, Job>, jobs': map<string, Job>, mine: seq<Replica>, mine': seq<Replica>, theirs: seq<Replica>)
    requires Tracked(jobs, theirs) && Apart(mine, theirs) && Mine(jobs', mine', Rest(jobs, mine))
    ensures Apart(mine', theirs) && Apart(theirs, mine')
  {
    TrackedIds(jobs, theirs);
    forall id | id in IdSet(mine') ensures id !in Rest(jobs, mine) {
      var r :| r in mine' && r.jobId == id;
    }
    hide IdSet, Unique;
    forall id | id in IdSet(theirs) ensures id !in IdSet(mine') {
      assert id in Rest(jobs, mine);
    }
  }

  lemma OthersSurvive(jobs: map<string, Job>, jobs': map<string, Job>, deployments: map<string, Managed>, key: string, m: Managed)
    requires AllTracked(jobs, deployments) && AllApart(deployments) && key in deployments
    requires Parted(jobs', m.replicas, Rest(jobs, deployments[key].replicas))
    ensures AllTracked(jobs', deployments[key := m]) && AllApart(deployments[key := m])
    ensures forall k :: k in deployments && k != key ==> Untouched(jobs, jobs', deployments[k].replicas)
  {
    var mine := deployments[key].replicas;
    forall k | k in deployments && k != key
      ensures Tracked(jobs', deployments[k].replicas) && Untouched(jobs, jobs', deployments[k].replicas)
      ensures Apart(m.replicas, deployments[k].replicas) && Apart(deployments[k].replicas, m.replicas)
    {
      OtherSurvives(jobs, jobs', mine, deployments[k].replicas);
      StaysApart(jobs, jobs', mine, m.replicas, deployments[k].replicas);
    }
    MineTracked(jobs', m.replicas, Rest(jobs, mine));
    hide IdSet, Apart, Tracked, Untouched, Parted, Rest;
  }

  lemma NoneOrphaned(jobs: map<string, Job>, jobs': map<string, Job>, deployments: map<string, Managed>, key: string, m: Managed)
    requires NoOrphans(jobs, deployments) && key in deployments
    requires Parted(jobs', m.replicas, Rest(jobs, deployments[key].replicas))
    ensures NoOrphans(jobs', deployments[key := m])
  {
    hide IdSet, Mine, Theirs;
    var next := deployments[key := m];
    forall id | id in jobs' ensures exists k :: Claims(next, k, id) {
      if id in IdSet(m.replicas) {
        assert Claims(next, key, id);
      } else {
        var k :| Claims(deployments, k, id);
        assert Claims(next, k, id);
      }
    }
  }

  lemma DividedJoins(jobs: map<string, Job>, jobs': map<string, Job>, deployments: map<string, Managed>, key: string, m: Managed)
    requires Divided(jobs, deployments) && key in deployments
    requires Parted(jobs', m.replicas, Rest(jobs, deployments[key].replicas))
    ensures Divided(jobs', deployments[key := m])
    ensures forall k :: k in deployments && k != key ==> Untouched(jobs, jobs', deployments[k].replicas)
  {
    hide AllTracked, AllApart, NoOrphans, Parted, Rest, Untouched;
    OthersSurvive(jobs, jobs', deployments, key, m);
    NoneOrphaned(jobs, jobs', deployments, key, m);
  }

  lemma MineTracked(jobs: map<string, Job>, replicas: seq<Replica>, others: map<string, Job>)
    requires Mine(jobs, replicas, others)
    ensures Tracked(jobs, replicas)
  {
  }

  lemma VisitSound(now: nat, hash: Bytes -> string, c: Cluster, deployments: map<string, Managed>, base: seq<AtlasEntry>, key: string)
    requires Sound(c, deployments, base) && key in deployments
    ensures var m := deployments[key];
            var t := TickFor(FakeMesh(now), hash, c, m);
            && Sound(t.world, deployments[key := m.(replicas := t.After().replicas)], base)
            && forall k :: k in deployments && k != key ==> Untouched(c.jobs, t.world.jobs, deployments[k].replicas)
  {
    var m := deployments[key];
    var t := TickFor(FakeMesh(now), hash, c, m);
    var others := Rest(c.jobs, m.replicas);
    DividedParts(c.jobs, m.replicas);
    hide TickOf, RevisionOf, Rest, FakeMesh, Parted, AllIssued, Counted, Divided, Untouched;
    TickKeeps(now, Defaults(), c, Health(m.replicas, map[]), m.spec, RevisionOf(hash, m.spec), others, base);
    DividedJoins(c.jobs, t.world.jobs, deployments, key, m.(replicas := t.After().replicas));
  }

  // ---- a whole pass -----------------------------------------------------------------------------------

  ghost predicate LeftAlone(c: Cluster, deployments: map<string, Managed>, c': Cluster, deployments': map<string, Managed>, key: string) {
    && key in deployments && key in deployments' && deployments'[key] == deployments[key]
    && Untouched(c.jobs, c'.jobs, deployments[key].replicas)
  }

  lemma NothingMoved(c: Cluster, deployments: map<string, Managed>, base: seq<AtlasEntry>)
    requires Sound(c, deployments, base)
    ensures forall k :: k in deployments ==> LeftAlone(c, deployments, c, deployments, k)
  {
    hide IdSet, Unique, AllIssued, Counted, AllApart, NoOrphans;
    forall k | k in deployments { TrackedIds(c.jobs, deployments[k].replicas); }
  }

  lemma {:induction false} PassSound(now: nat, hash: Bytes -> string, c: Cluster, deployments: map<string, Managed>, base: seq<AtlasEntry>, keys: seq<string>)
    requires Sound(c, deployments, base)
    ensures var p := PassOver(FakeMesh(now), hash, c, deployments, keys);
            && Sound(p.world, p.deployments, base)
            && forall k :: k in deployments && k !in keys ==> LeftAlone(c, deployments, p.world, p.deployments, k)
    decreases |keys|
  {
    hide TickFor, FakeMesh, Sound;
    if keys == [] {
      NothingMoved(c, deployments, base);
    } else if keys[0] !in deployments {
      hide LeftAlone;
      PassSound(now, hash, c, deployments, base, keys[1..]);
    } else {
      var m := deployments[keys[0]];
      var t := TickFor(FakeMesh(now), hash, c, m);
      var next := deployments[keys[0] := m.(replicas := t.After().replicas)];
      VisitSound(now, hash, c, deployments, base, keys[0]);
      PassSound(now, hash, t.world, next, base, keys[1..]);
      var p := PassOver(FakeMesh(now), hash, t.world, next, keys[1..]);
      forall k | k in deployments && k !in keys ensures LeftAlone(c, deployments, p.world, p.deployments, k) {
        assert LeftAlone(t.world, next, p.world, p.deployments, k);
      }
    }
  }

  /** A pass filtered to a namespace leaves every other namespace's entries and jobs as they were. */
  lemma NamespaceIsolated(now: nat, hash: Bytes -> string, c: Cluster, deployments: map<string, Managed>, base: seq<AtlasEntry>, namespace: string)
    requires Sound(c, deployments, base)
    ensures var p := PassOver(FakeMesh(now), hash, c, deployments, KeysFor(deployments, Some(namespace)));
            forall k :: k in deployments && deployments[k].spec.namespace != namespace ==>
              LeftAlone(c, deployments, p.world, p.deployments, k)
  {
    hide Sound, LeftAlone, PassOver, FakeMesh;
    var keys := KeysFor(deployments, Some(namespace));
    PassSound(now, hash, c, deployments, base, keys);
    assert forall k :: k in keys <==> k in deployments && deployments[k].spec.namespace == namespace;
  }

  // ---- any run of the system --------------------------------------------------------------------------

  datatype System = System(cluster: Cluster, deployments: map<string, Managed>)

  /** What operators, the daemon and the cluster itself can do. */
  datatype Event =
    | Apply(spec: Deployment, grant: Option<string>)
    | RollBack(key: string, toRevision: Option<string>)
    | Pause(key: string, paused: bool)
    | Reconcile(now: nat, namespace: Option<string>)
    | JobPhase(id: string, phase: Phase)
    | JobsReady
    | Faults(deployFails: seq<string>, killFails: seq<string>, deployFailOnce: bool, probeFails: seq<string>)
    | Services(readiness: map<string, DepReadiness>)

  function StepOf(hash: Bytes -> string, s: System, e: Event): System {
    match e
    case Apply(spec, grant) =>
      var entry := if spec.Key() in s.deployments then s.deployments[spec.Key()] else Blank();
      s.(deployments := s.deployments[spec.Key() := Applied(hash, entry, spec, grant)])
    case RollBack(key, toRevision) =>
      if key !in s.deployments then s else
        (match Undone(hash, s.deployments[key], toRevision)
         case Rolled(m) => s.(deployments := s.deployments[key := m])
         case Refused(_) => s)
    case Pause(key, paused) =>
      if key in s.deployments then s.(deployments := s.deployments[key := s.deployments[key].(paused := paused)]) else s
    case Reconcile(now, namespace) =>
      var p := PassOver(FakeMesh(now), hash, s.cluster, s.deployments, KeysFor(s.deployments, namespace));
      System(p.world, p.deployments)
    case JobPhase(id, phase) => s.(cluster := WithPhase(s.cluster, id, phase))
    case JobsReady => s.(cluster := AllReady(s.cluster))
    case Faults(df, kf, once, pf) =>
      s.(cluster := s.cluster.(deployFails := df, killFails := kf, deployFailOnce := once, probeFails := pf))
    case Services(readiness) => s.(cluster := s.cluster.(readiness := readiness))
  }

  function RunOf(hash: Bytes -> string, s: System, events: seq<Event>): System
    decreases |events|
  {
    if events == [] then s else RunOf(hash, StepOf(hash, s, events[0]), events[1..])
  }

  lemma EmptyHanded(jobs: map<string, Job>, a: seq<Replica>)
    ensures Tracked(jobs, []) && Apart([], a) && Apart(a, [])
  {
    assert IdSet([]) == {};
  }

  /** Changing what an entry says, but not what it tracks, moves nothing. */
  lemma SameReplicas(jobs: map<string, Job>, deployments: map<string, Managed>, key: string, m: Managed)
    requires Divided(jobs, deployments)
    requires m.replicas == if key in deployments then deployments[key].replicas else []
    ensures Divided(jobs, deployments[key := m])
  {
    SameHoldings(jobs, deployments, key, m);
    SameClaims(jobs, deployments, key, m);
    hide AllTracked, AllApart, NoOrphans;
  }

  lemma SameHoldings(jobs: map<string, Job>, deployments: map<string, Managed>, key: string, m: Managed)
    requires AllTracked(jobs, deployments) && AllApart(deployments)
    requires m.replicas == if key in deployments then deployments[key].replicas else []
    ensures AllTracked(jobs, deployments[key := m]) && AllApart(deployments[key := m])
  {
    hide Tracked, Apart;
    forall k | k in deployments { EmptyHanded(jobs, deployments[k].replicas); }
    EmptyHanded(jobs, []);
  }

  lemma SameClaims(jobs: map<string, Job>, deployments: map<string, Managed>, key: string, m: Managed)
    requires NoOrphans(jobs, deployments)
    requires m.replicas == if key in deployments then deployments[key].replicas else []
    ensures NoOrphans(jobs, deployments[key := m])
  {
    hide IdSet;
    var next := deployments[key := m];
    forall id | id in jobs ensures exists k :: Claims(next, k, id) {
      var k :| Claims(deployments, k, id);
      assert Claims(next, k, id);
    }
  }

  lemma PhasesTracked(jobs: map<string, Job>, jobs': map<string, Job>, deployments: map<string, Managed>)
    requires AllTracked(jobs, deployments) && NoOrphans(jobs, deployments) && SamePlaces(jobs, jobs')
    ensures AllTracked(jobs', deployments) && NoOrphans(jobs', deployments)
  {
    forall k | k in deployments ensures Tracked(jobs', deployments[k].replicas) {
      assert Tracked(jobs, deployments[k].replicas);
    }
    hide Claims;
  }

  /** The same jobs on the same nodes: phases do not matter to who owns what. */
  lemma PhasesOnly(c: Cluster, c': Cluster, deployments: map<string, Managed>, base: seq<AtlasEntry>)
    requires Sound(c, deployments, base)
    requires c'.hosts == c.hosts && c'.nextJob == c.nextJob && SamePlaces(c.jobs, c'.jobs)
    ensures Sound(c', deployments, base)
  {
    FewerIssued(c, c');
    PhasesTracked(c.jobs, c'.jobs, deployments);
    PhasesCounted(c, c', base);
    hide AllIssued, Counted, AllTracked, AllApart, NoOrphans;
  }

  lemma StepSound(hash: Bytes -> string, s: System, e: Event, base: seq<AtlasEntry>)
    requires Sound(s.cluster, s.deployments, base)
    ensures var n := StepOf(hash, s, e); Sound(n.cluster, n.deployments, base)
  {
    hide AllIssued, Counted, Divided, RevisionOf, FakeMesh, PassOver;
    match e {
      case Apply(spec, grant) =>
        var entry := if spec.Key() in s.deployments then s.deployments[spec.Key()] else Blank();
        SameReplicas(s.cluster.jobs, s.deployments, spec.Key(), Applied(hash, entry, spec, grant));
      case RollBack(key, toRevision) =>
        if key in s.deployments && Undone(hash, s.deployments[key], toRevision).Rolled? {
          SameReplicas(s.cluster.jobs, s.deployments, key, Undone(hash, s.deployments[key], toRevision).managed);
        }
      case Pause(key, paused) =>
        if key in s.deployments { SameReplicas(s.cluster.jobs, s.deployments, key, s.deployments[key].(paused := paused)); }
      case Reconcile(now, namespace) =>
        PassSound(now, hash, s.cluster, s.deployments, base, KeysFor(s.deployments, namespace));
      case _ =>
        PhasesOnly(s.cluster, StepOf(hash, s, e).cluster, s.deployments, base);
    }
  }

  /** The division of the cluster's jobs is an invariant of every run. */
  lemma {:induction false} RunSound(hash: Bytes -> string, s: System, events: seq<Event>, base: seq<AtlasEntry>)
    requires Sound(s.cluster, s.deployments, base)
    ensures var n := RunOf(hash, s, events); Sound(n.cluster, n.deployments, base)
    decreases |events|
  {
    hide Sound, StepOf;
    if events != [] {
      StepSound(hash, s, events[0], base);
      RunSound(hash, StepOf(hash, s, events[0]), events[1..], base);
    }
  }

  function Empty(hosts: seq<AtlasEntry>): System {
    System(Bare(hosts), map[])
  }

  lemma EmptySound(hosts: seq<AtlasEntry>)
    requires DistinctHosts(hosts)
    ensures Sound(Empty(hosts).cluster, Empty(hosts).deployments, hosts)
  {
    var none: map<string, Job> := map[];
    hide Load;
    forall node ensures Load(none, node) == 0 { LoadAtMostAll(none, node); }
  }

  ghost predicate TracksJob(deployments: map<string, Managed>, key: string, r: Replica) {
    key in deployments && r in deployments[key].replicas
  }

  /** From an empty fleet on distinct hosts, over any run of applies, rollbacks, passes and faults: no
      job is orphaned or owned twice, no tracked replica is imaginary, and each host counts its
      starting jobs plus those really on it. */
  lemma FleetRun(hash: Bytes -> string, hosts: seq<AtlasEntry>, events: seq<Event>)
    requires DistinctHosts(hosts)
    ensures var n := RunOf(hash, Empty(hosts), events);
            && (forall id :: id in n.cluster.jobs <==> exists k, r :: TracksJob(n.deployments, k, r) && r.jobId == id)
            && (forall k, r, l, q :: TracksJob(n.deployments, k, r) && TracksJob(n.deployments, l, q) && r.jobId == q.jobId ==>
                  k == l && r == q)
            && (forall k, r :: TracksJob(n.deployments, k, r) ==>
                  r.jobId in n.cluster.jobs && n.cluster.jobs[r.jobId].nodeId == r.nodeId)
            && |n.cluster.hosts| == |hosts|
            && (forall i :: 0 <= i < |hosts| ==>
                  n.cluster.hosts[i] == hosts[i].(runningJobs := hosts[i].runningJobs + Load(n.cluster.jobs, hosts[i].nodeId)))
  {
    EmptySound(hosts);
    RunSound(hash, Empty(hosts), events, hosts);
    var n := RunOf(hash, Empty(hosts), events);
    hide RunOf;
    DividedMeans(n.cluster.jobs, n.deployments);
    hide Divided, TracksJob, Load, AllIssued;
  }

  lemma DividedMeans(jobs: map<string, Job>, deployments: map<string, Managed>)
    requires Divided(jobs, deployments)
    ensures forall id :: id in jobs <==> exists k, r :: TracksJob(deployments, k, r) && r.jobId == id
    ensures forall k, r, l, q :: TracksJob(deployments, k, r) && TracksJob(deployments, l, q) && r.jobId == q.jobId ==> k == l && r == q
    ensures forall k, r :: TracksJob(deployments, k, r) ==> r.jobId in jobs && jobs[r.jobId].nodeId == r.nodeId
  {
    forall k, r | TracksJob(deployments, k, r) ensures r.jobId in jobs && jobs[r.jobId].nodeId == r.nodeId {
      assert Tracked(jobs, deployments[k].replicas);
    }
    forall id | id in jobs ensures exists k, r :: TracksJob(deployments, k, r) && r.jobId == id {
      var k :| Claims(deployments, k, id);
      var r :| r in deployments[k].replicas && r.jobId == id;
      assert TracksJob(deployments, k, r);
    }
    forall k, r, l, q | TracksJob(deployments, k, r) && TracksJob(deployments, l, q) && r.jobId == q.jobId ensures k == l && r == q {
      OneOwner(jobs, deployments, k, r, l, q);
    }
  }

  lemma OneOwner(jobs: map<string, Job>, deployments: map<string, Managed>, k: string, r: Replica, l: string, q: Replica)
    requires AllTracked(jobs, deployments) && AllApart(deployments)
    requires TracksJob(deployments, k, r) && TracksJob(deployments, l, q)
    ensures r.jobId == q.jobId ==> k == l && r == q
  {
    assert r.jobId in IdSet(deployments[k].replicas) && q.jobId in IdSet(deployments[l].replicas);
    if k != l {
      assert Apart(deployments[k].replicas, deployments[l].replicas);
    } else if r.jobId == q.jobId {
      assert Tracked(jobs, deployments[k].replicas);
      SameIdSame(deployments[k].replicas, r, q);
    }
  }
}
