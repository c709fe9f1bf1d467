/** With a driver that never hands out a job id twice, tracked ids stay unique through every tick. */
module Identity {
  import opened Text
  import opened Deployments
  import opened Replicas
  import opened Rollout
  import opened Placement
  import opened Deps
  import opened Driver
  import opened Ticking
  import opened Accounts

  ghost predicate Remembers<S(!new)>(issued: (S, string) -> bool, w: S, w': S) {
    forall id :: issued(w, id) ==> issued(w', id)
  }

  /** Unique tracked ids, every one of them (and every counted one) issued by the driver. */
  ghost predicate Owned<S(!new)>(issued: (S, string) -> bool, w: S, h: Health) {
    && Unique(h.replicas)
    && (forall r :: r in h.replicas ==> issued(w, r.jobId))
    && (forall id :: id in h.failures ==> issued(w, id))
  }

  lemma {:induction false} ObserveAllRemembers<S(!new)>(dr: MeshDriver<S>, issued: (S, string) -> bool, w: S, replicas: seq<Replica>, probe: Option<Probe>)
    requires NeverReissues(dr, issued)
    ensures Remembers(issued, w, ObserveAll(dr, w, replicas, probe).0)
    decreases |replicas|
  {
    if replicas != [] {
      var w1 := dr.phase(w, replicas[0].nodeId, replicas[0].jobId, probe).0;
      ObserveAllRemembers(dr, issued, w1, replicas[1..], probe);
    }
  }

  lemma {:induction false} ObserveDepsRemembers<S(!new)>(dr: MeshDriver<S>, issued: (S, string) -> bool, w: S, namespace: string,
                                                        deps: seq<DependencyRef>, seen: map<string, DepReadiness>)
    requires NeverReissues(dr, issued)
    ensures Remembers(issued, w, ObserveDeps(dr, w, namespace, deps, seen).0)
    decreases |deps|
  {
    if deps != [] {
      var (w1, o) := dr.serviceReady(w, ResolvedServiceName(deps[0], namespace));
      var observed := match o case Some(x) => x case None => Absent;
      ObserveDepsRemembers(dr, issued, w1, namespace, deps[1..], seen[deps[0].service := observed]);
    }
  }

  /** Fewer or the same replicas, still unique, in a world that forgot no id. */
  ghost predicate Shrunk<S(!new)>(issued: (S, string) -> bool, w: S, replicas: seq<Replica>, w': S, replicas': seq<Replica>) {
    && Remembers(issued, w, w')
    && (Unique(replicas) ==> Unique(replicas'))
    && forall r :: r in replicas' ==> r in replicas
  }

  lemma ShrunkStep<S(!new)>(issued: (S, string) -> bool, w: S, replicas: seq<Replica>, id: string, w1: S, w2: S, left: seq<Replica>)
    requires Remembers(issued, w, w1) && Shrunk(issued, w1, Without(replicas, id), w2, left)
    ensures Shrunk(issued, w, replicas, w2, left)
  {
    if Unique(replicas) { WithoutUnique(replicas, id); }
  }

  lemma {:induction false} RunKillsShrinks<S(!new)>(dr: MeshDriver<S>, issued: (S, string) -> bool, w: S, replicas: seq<Replica>, ids: seq<string>)
    requires NeverReissues(dr, issued)
    ensures var k := RunKills(dr, w, replicas, ids); Shrunk(issued, w, replicas, k.world, k.replicas)
    decreases |ids|
  {
    if ids != [] {
      match Find(replicas, ids[0]) {
        case None => RunKillsShrinks(dr, issued, w, replicas, ids[1..]);
        case Some(r) =>
          var (w1, ok) := dr.kill(w, r.nodeId, ids[0]);
          assert Remembers(issued, w, w1);
          if ok {
            RunKillsShrinks(dr, issued, w1, Without(replicas, ids[0]), ids[1..]);
            var k := RunKills(dr, w1, Without(replicas, ids[0]), ids[1..]);
            ShrunkStep(issued, w, replicas, ids[0], w1, k.world, k.replicas);
          } else {
            RunKillsShrinks(dr, issued, w1, replicas, ids[1..]);
          }
      }
    }
  }

  lemma {:induction false} RunSubstitutesShrinks<S(!new)>(dr: MeshDriver<S>, issued: (S, string) -> bool, w: S, replicas: seq<Replica>,
                                                         alternates: seq<string>, planned: seq<string>, excess: int, failed: nat)
    requires NeverReissues(dr, issued)
    ensures var k := RunSubstitutes(dr, w, replicas, alternates, planned, excess, failed);
            Shrunk(issued, w, replicas, k.world, k.replicas)
    decreases |alternates|
  {
    hide Find, Without, Unique;
    if alternates != [] && excess > 0 {
      var id, rest := alternates[0], alternates[1..];
      if id in planned || Find(replicas, id).None? {
        RunSubstitutesShrinks(dr, issued, w, replicas, rest, planned, excess, failed);
      } else {
        var (w1, ok) := dr.kill(w, Find(replicas, id).value.nodeId, id);
        assert Remembers(issued, w, w1);
        if ok {
          RunSubstitutesShrinks(dr, issued, w1, Without(replicas, id), rest, planned, excess - 1, SatSub(failed, 1));
          var k := RunSubstitutes(dr, w1, Without(replicas, id), rest, planned, excess - 1, SatSub(failed, 1));
          ShrunkStep(issued, w, replicas, id, w1, k.world, k.replicas);
        } else {
          RunSubstitutesShrinks(dr, issued, w1, replicas, rest, planned, excess, failed);
        }
      }
    }
  }

  ghost predicate Held<S(!new)>(issued: (S, string) -> bool, w: S, replicas: seq<Replica>) {
    Unique(replicas) && forall r :: r in replicas ==> issued(w, r.jobId)
  }

  lemma {:induction false} PlaceLoopOwns<S(!new)>(dr: MeshDriver<S>, issued: (S, string) -> bool, d: Deployment, target: string,
                                                 p: Placing<S>, limit: nat)
    requires NeverReissues(dr, issued) && Held(issued, p.world, p.replicas)
    ensures var q := PlaceLoop(dr, d, target, p, limit);
            Remembers(issued, p.world, q.world) && Held(issued, q.world, q.replicas)
    decreases limit - p.attempts
  {
    hide Charge, Drop;
    if p.left > 0 && p.attempts < limit && p.candidates != [] {
      var q := PlaceOne(dr, d, target, p);
      var node := p.candidates[0].nodeId;
      var (w1, res) := dr.deploy(p.world, node, d);
      assert Remembers(issued, p.world, w1);
      if res.Some? {
        var r := Replica(res.value, node, target, Pending);
        assert q.replicas == p.replicas + [r];
        forall i, j | 0 <= i < j < |q.replicas| ensures q.replicas[i].jobId != q.replicas[j].jobId {
          assert q.replicas[i] == p.replicas[i] && p.replicas[i] in p.replicas;
        }
      }
      assert Held(issued, q.world, q.replicas);
      PlaceLoopOwns(dr, issued, d, target, q, limit);
    }
  }

  lemma PlaceStageOwns<S(!new)>(dr: MeshDriver<S>, issued: (S, string) -> bool, w: S, d: Deployment, target: string, maxStale: nat,
                                replicas: seq<Replica>, want: nat, gate: Gate)
    requires NeverReissues(dr, issued) && Held(issued, w, replicas)
    ensures var p := PlaceStage(dr, w, d, target, maxStale, replicas, want, gate).1;
            Remembers(issued, w, p.world) && Held(issued, p.world, p.replicas)
  {
    hide Rank, PlaceLoop;
    if want > 0 && gate.Ready? {
      var (w1, candidates) := RankedHosts(dr, w, d, maxStale);
      assert Remembers(issued, w, w1);
      PlaceLoopOwns(dr, issued, d, target, Placing(w1, replicas, candidates, [], want, 0, 0), MaxAttempts(want, |candidates|));
    }
  }

  lemma SubstituteShrinks<S(!new)>(dr: MeshDriver<S>, issued: (S, string) -> bool, k: Kills<S>, planned: seq<string>, desired: U32, target: string)
    requires NeverReissues(dr, issued)
    ensures var s := Substitute(dr, k, planned, desired, target); Shrunk(issued, k.world, k.replicas, s.world, s.replicas)
  {
    if k.failed > 0 {
      var alternates := Ids(Pick(k.replicas, target, NewKinds()));
      RunSubstitutesShrinks(dr, issued, k.world, k.replicas, alternates, planned, |alternates| - desired, k.failed);
    }
  }

  // ---- refresh keeps the counters within issued ids -----------------------------------------

  lemma {:induction false} ReportAllKeys(h: Health, ids: seq<string>, obs: seq<Option<Phase>>, threshold: nat)
    requires |ids| == |obs|
    ensures forall id :: id in ReportAll(h, ids, obs, threshold).failures ==> id in h.failures || id in ids
    decreases |ids|
  {
    hide SetPhase;
    if ids != [] {
      ReportAllKeys(Report(h, ids[0], obs[0], threshold), ids[1..], obs[1..], threshold);
    }
  }

  lemma RefreshOwned<S(!new)>(dr: MeshDriver<S>, issued: (S, string) -> bool, cfg: Config, w: S, h: Health, d: Deployment, target: string)
    returns (w2: S)
    requires NeverReissues(dr, issued) && Owned(issued, w, h)
    ensures var t := TickOf(dr, cfg, w, h, d, target);
            && Remembers(issued, w, w2) && Owned(issued, w2, t.refreshed)
            && t.kills == RunKills(dr, w2, t.refreshed.replicas, t.step.toKill)
  {
    hide ObserveAll, ObserveDeps, ReportAll, PlanStep, RunKills, Substitute, PlaceStage, Advertise, GateOf;
    var t := TickOf(dr, cfg, w, h, d, target);
    var (w1, obs) := ObserveAll(dr, w, h.replicas, d.liveness);
    w2 := ObserveDeps(dr, w1, d.namespace, d.dependsOn, map[]).0;
    ObserveAllRemembers(dr, issued, w, h.replicas, d.liveness);
    ObserveDepsRemembers(dr, issued, w1, d.namespace, d.dependsOn, map[]);
    RefreshSameFleet(dr, cfg, w, h, d, target);
    ReportAllKeys(h, Ids(h.replicas), obs, cfg.failureThreshold);
    forall r | r in t.refreshed.replicas ensures issued(w2, r.jobId) {
      var i :| 0 <= i < |t.refreshed.replicas| && t.refreshed.replicas[i] == r;
      assert h.replicas[i] in h.replicas;
    }
    forall id | id in t.refreshed.failures ensures issued(w2, id) {
      assert id in Ids(t.refreshed.replicas);
      var i :| 0 <= i < |t.refreshed.replicas| && t.refreshed.replicas[i].jobId == id;
      assert h.replicas[i] in h.replicas;
    }
  }

  /** Ownership is an invariant of the tick, whatever the driver answers. */
  lemma TickOwns<S(!new)>(dr: MeshDriver<S>, issued: (S, string) -> bool, cfg: Config, w: S, h: Health, d: Deployment, target: string)
    requires NeverReissues(dr, issued) && Owned(issued, w, h)
    ensures var t := TickOf(dr, cfg, w, h, d, target);
            Remembers(issued, w, t.world) && Owned(issued, t.world, t.After())
  {
    hide TickOf, RunKills, Substitute, PlaceStage, PlanStep, Unique;
    var t := TickOf(dr, cfg, w, h, d, target);
    var w2 := RefreshOwned(dr, issued, cfg, w, h, d, target);
    var w2' := TickStages(dr, cfg, w, h, d, target);
    RunKillsShrinks(dr, issued, w2, t.refreshed.replicas, t.step.toKill);
    SubstituteShrinks(dr, issued, t.kills, t.step.toKill, d.replicas, target);
    PlaceStageOwns(dr, issued, t.substitutes.world, d, target, cfg.maxStaleSecs, t.substitutes.replicas, t.step.toPlace, t.gate);
    assert Remembers(issued, t.placing.world, t.world);
  }
}
