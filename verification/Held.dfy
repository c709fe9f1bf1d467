/** Deployments held by an unmet dependency: nothing new starts, yet cleaning up goes on. */
module HeldRuns {
  import opened Text
  import opened Deployments
  import opened Replicas
  import opened Rollout
  import opened Deps
  import opened Driver
  import opened Ticking
  import opened Accounts
  import opened Identity
  import opened WorkLaw

  // ---- when it is held -------------------------------------------------------------------------

  /** What the mesh answers about a dependency; an error counts as absent. */
  function Answer(mesh: string -> Option<DepReadiness>, dep: DependencyRef, namespace: string): DepReadiness {
    match mesh(ResolvedServiceName(dep, namespace)) case Some(x) => x case None => Absent
  }

  /** In every `open` world lookups are answered as `mesh` does, and asking does not close one. */
  ghost predicate Steady<S(!new)>(dr: MeshDriver<S>, mesh: string -> Option<DepReadiness>, open: S -> bool) {
    && (forall w, s :: open(w) ==> dr.serviceReady(w, s).1 == mesh(s) && open(dr.serviceReady(w, s).0))
    && (forall w, n, j, p :: open(w) ==> open(dr.phase(w, n, j, p).0))
  }

  lemma {:induction false} ObserveAllOpen<S(!new)>(dr: MeshDriver<S>, mesh: string -> Option<DepReadiness>, open: S -> bool, w: S,
                                                  replicas: seq<Replica>, probe: Option<Probe>)
    requires Steady(dr, mesh, open) && open(w)
    ensures open(ObserveAll(dr, w, replicas, probe).0)
    decreases |replicas|
  {
    if replicas != [] {
      ObserveAllOpen(dr, mesh, open, dr.phase(w, replicas[0].nodeId, replicas[0].jobId, probe).0, replicas[1..], probe);
    }
  }

  lemma {:induction false} ObserveDepsAnswers<S(!new)>(dr: MeshDriver<S>, mesh: string -> Option<DepReadiness>, open: S -> bool, w: S,
                                                      namespace: string, deps: seq<DependencyRef>, seen: map<string, DepReadiness>)
    requires Steady(dr, mesh, open) && open(w)
    ensures var after := ObserveDeps(dr, w, namespace, deps, seen).1;
            && (forall dep :: dep in deps ==> dep.service in after && after[dep.service] == Answer(mesh, dep, namespace))
            && (forall s :: s in seen && (forall dep :: dep in deps ==> dep.service != s) ==> s in after && after[s] == seen[s])
    decreases |deps|
  {
    if deps != [] {
      var dep, rest := deps[0], deps[1..];
      assert deps == [dep] + rest;
      var (w1, o) := dr.serviceReady(w, ResolvedServiceName(dep, namespace));
      var observed := match o case Some(x) => x case None => Absent;
      assert observed == Answer(mesh, dep, namespace);
      var seen1 := seen[dep.service := observed];
      ObserveDepsAnswers(dr, mesh, open, w1, namespace, rest, seen1);
      hide ObserveDeps;
      var after := ObserveDeps(dr, w1, namespace, rest, seen1).1;
      if e :| e in rest && e.service == dep.service {
        assert after[dep.service] == Answer(mesh, e, namespace) == Answer(mesh, dep, namespace);
      }
    }
  }

  /** While the mesh answers steadily, a tick waits exactly when some dependency is unmet there, and
      it names precisely the unmet services, ascending and once each. */
  lemma WaitingMeans<S(!new)>(dr: MeshDriver<S>, mesh: string -> Option<DepReadiness>, open: S -> bool, cfg: Config, w: S, h: Health,
                              d: Deployment, target: string)
    requires Steady(dr, mesh, open) && open(w)
    ensures var gate := TickOf(dr, cfg, w, h, d, target).gate;
            && (gate.Waiting? <==> exists dep :: dep in d.dependsOn && !Met(dep, Answer(mesh, dep, d.namespace)))
            && (gate.Waiting? ==>
                  && StrictlyAscending(gate.unmet)
                  && forall s :: s in gate.unmet <==>
                       exists dep :: dep in d.dependsOn && dep.service == s && !Met(dep, Answer(mesh, dep, d.namespace)))
  {
    var w1 := ObserveAll(dr, w, h.replicas, d.liveness).0;
    var seen := ObserveDeps(dr, w1, d.namespace, d.dependsOn, map[]).1;
    var gate := TickOf(dr, cfg, w, h, d, target).gate;
    assert gate == GateOf(d.dependsOn, Lookup(seen));
    hide TickOf, ObserveAll;
    ObserveAllOpen(dr, mesh, open, w, h.replicas, d.liveness);
    ObserveDepsAnswers(dr, mesh, open, w1, d.namespace, d.dependsOn, map[]);
    GateMeaning(d.dependsOn, Lookup(seen));
    hide ObserveDeps, GateOf;
    assert forall dep :: dep in d.dependsOn ==> Lookup(seen)(dep.service) == Answer(mesh, dep, d.namespace);
  }

  /** Nobody live under the dependency's name, or a healthy one asked for and none healthy. */
  ghost predicate Missing(mesh: string -> Option<DepReadiness>, dep: DependencyRef, namespace: string) {
    var found := mesh("ce-gke/" + namespace + "/" + dep.service);
    found == None || found == Some(Absent) || (dep.healthy && found == Some(LivePresent))
  }

  /** The same in full: which answers hold a deployment back, under which names they are asked for, and
      that the report lists the services in ascending order, once each. */
  lemma WaitsExactly<S(!new)>(dr: MeshDriver<S>, mesh: string -> Option<DepReadiness>, open: S -> bool, cfg: Config, w: S, h: Health,
                              d: Deployment, target: string)
    requires Steady(dr, mesh, open) && open(w)
    ensures var t := TickOf(dr, cfg, w, h, d, target);
            var waitingOn := t.Report().waitingOn;
            && (forall s :: s in waitingOn <==> exists dep :: dep in d.dependsOn && dep.service == s && Missing(mesh, dep, d.namespace))
            && (forall i, j :: 0 <= i < j < |waitingOn| ==> waitingOn[i] != waitingOn[j] && Le(waitingOn[i], waitingOn[j]))
            && (t.gate.Waiting? <==> waitingOn != [])
  {
    hide TickOf, Missing;
    WaitingMeans(dr, mesh, open, cfg, w, h, d, target);
    forall dep | dep in d.dependsOn ensures Missing(mesh, dep, d.namespace) <==> !Met(dep, Answer(mesh, dep, d.namespace)) {
      MissingIsUnmet(mesh, dep, d.namespace);
    }
    hide Met, Answer;
    var t := TickOf(dr, cfg, w, h, d, target);
    if t.gate.Waiting? {
      var dep :| dep in d.dependsOn && !Met(dep, Answer(mesh, dep, d.namespace));
      assert dep.service in t.gate.unmet;
    }
  }

  lemma MissingIsUnmet(mesh: string -> Option<DepReadiness>, dep: DependencyRef, namespace: string)
    ensures Missing(mesh, dep, namespace) <==> !Met(dep, Answer(mesh, dep, namespace))
  {
  }

  // ---- what a held tick does -------------------------------------------------------------------

  lemma {:induction false} RunSubstitutesSubset<S>(dr: MeshDriver<S>, w: S, replicas: seq<Replica>, alternates: seq<string>,
                                                   planned: seq<string>, excess: int, failed: nat)
    ensures forall r :: r in RunSubstitutes(dr, w, replicas, alternates, planned, excess, failed).replicas ==> r in replicas
    decreases |alternates|
  {
    if alternates != [] && excess > 0 {
      var id, rest := alternates[0], alternates[1..];
      if id in planned || Find(replicas, id).None? {
        RunSubstitutesSubset(dr, w, replicas, rest, planned, excess, failed);
      } else {
        var (w1, ok) := dr.kill(w, Find(replicas, id).value.nodeId, id);
        if ok {
          RunSubstitutesSubset(dr, w1, Without(replicas, id), rest, planned, excess - 1, SatSub(failed, 1));
        } else {
          RunSubstitutesSubset(dr, w1, replicas, rest, planned, excess, failed);
        }
      }
    }
  }

  lemma HeldArithmetic(strategy: Strategy, desired: U32, before: Tally, after: Tally, b: Books)
    requires Balanced(strategy, desired, before, after, b, true) && b.placed == 0
    ensures after.dead == 0
    ensures !(strategy.Recreate? && before.OldLive() > 0) ==> after.NewLive() <= desired
    ensures strategy.Recreate? ==> after.OldLive() == 0
    ensures after.NewLive() >= Min(before.NewLive(), desired)
  {
  }

  lemma HeldSubset<S>(dr: MeshDriver<S>, cfg: Config, w: S, h: Health, d: Deployment, target: string)
    requires TickOf(dr, cfg, w, h, d, target).gate.Waiting?
    ensures var t := TickOf(dr, cfg, w, h, d, target);
            && t.Placed() == [] && !t.advertised && !t.Done()
            && forall r :: r in t.After().replicas ==> r in t.refreshed.replicas
  {
    var t := TickOf(dr, cfg, w, h, d, target);
    var w2 := TickStages(dr, cfg, w, h, d, target);
    hide TickOf, PlanStep;
    RunKillsSubset(dr, w2, t.refreshed.replicas, t.step.toKill);
    if t.kills.failed > 0 {
      var alternates := Ids(Pick(t.kills.replicas, target, NewKinds()));
      RunSubstitutesSubset(dr, t.kills.world, t.kills.replicas, alternates, t.step.toKill, |alternates| - d.replicas, t.kills.failed);
    }
    hide RunKills, RunSubstitutes;
  }

  /** A held tick starts nothing, advertises nothing, is never done and only removes replicas; and
      if the driver lets its kills through, no dead or surplus replica outlives it. */
  lemma HeldTick<S>(dr: MeshDriver<S>, cfg: Config, w: S, h: Health, d: Deployment, target: string)
    requires Unique(h.replicas)
    requires TickOf(dr, cfg, w, h, d, target).gate.Waiting?
    ensures var t := TickOf(dr, cfg, w, h, d, target);
            && t.Placed() == [] && !t.advertised && !t.Done()
            && (forall r :: r in t.After().replicas ==> r in t.refreshed.replicas)
            && (forall id :: id in Ids(t.After().replicas) ==> id in Ids(h.replicas))
            && (t.kills.failed == 0 ==>
                  var before, after := TallyOf(t.refreshed.replicas, target), TallyOf(t.After().replicas, target);
                  && after.dead == 0
                  && (d.strategy.RollingUpdate? || before.OldLive() == 0 ==> after.NewLive() <= d.replicas)
                  && (d.strategy.Recreate? ==> after.OldLive() == 0))
  {
    var t := TickOf(dr, cfg, w, h, d, target);
    HeldSubset(dr, cfg, w, h, d, target);
    RefreshSameFleet(dr, cfg, w, h, d, target);
    hide TickOf, TallyOf, Balanced;
    SubsetIds(t.After().replicas, t.refreshed.replicas);
    var b := TickBooks(dr, cfg, w, h, d, target);
    if t.kills.failed == 0 {
      HeldArithmetic(d.strategy, d.replicas, TallyOf(t.refreshed.replicas, target), TallyOf(t.After().replicas, target), b);
    }
  }

  /** Over any run of held ticks the tracked ids only shrink, and nothing is ever placed, advertised
      or reported done. */
  lemma {:induction false} HeldRun<S(!new)>(dr: MeshDriver<S>, issued: (S, string) -> bool, cfg: Config, ws: seq<S>,
                                           h: Health, d: Deployment, target: string)
    requires NeverReissues(dr, issued)
    requires ws != [] ==> Owned(issued, ws[0], h)
    requires Continues(issued, Run(dr, cfg, ws, h, d, target), ws)
    requires forall i :: 0 <= i < |ws| ==> Run(dr, cfg, ws, h, d, target)[i].gate.Waiting?
    ensures var ticks := Run(dr, cfg, ws, h, d, target);
            && (forall id :: id in Ids(EndOf(h, ticks).replicas) ==> id in Ids(h.replicas))
            && Placements(ticks) == 0
            && forall i :: 0 <= i < |ticks| ==> !ticks[i].advertised && !ticks[i].Done()
    decreases |ws|
  {
    hide TickOf, Unique;
    if ws != [] {
      var t := TickOf(dr, cfg, ws[0], h, d, target);
      RunTail(dr, issued, cfg, ws, h, d, target);
      var rest := Run(dr, cfg, ws[1..], t.After(), d, target);
      var ticks := Run(dr, cfg, ws, h, d, target);
      assert ticks[0] == t && ticks[1..] == rest;
      assert forall i :: 0 <= i < |rest| ==> rest[i] == ticks[i + 1];
      HeldTick(dr, cfg, ws[0], h, d, target);
      HeldRun(dr, issued, cfg, ws[1..], t.After(), d, target);
      assert rest != [] ==> ticks[|ticks| - 1] == rest[|rest| - 1];
      assert EndOf(h, ticks) == EndOf(t.After(), rest);
    }
  }
}
