/** What a tick says to the mesh: every call in order, with its addressee, whatever the answers. */
module Dialogue {
  import opened Text
  import opened Deployments
  import opened Replicas
  import opened Rollout
  import opened Planner
  import opened Placement
  import opened Deps
  import opened Driver
  import opened Ticking
  import opened Accounts
  import opened PlacementLoop

  datatype Call =
    | AskPhase(node: string, id: string, probe: Option<Probe>)
    | AskService(name: string)
    | AskKill(node: string, id: string)
    | AskAtlas
    | AskDeploy(node: string, spec: Deployment)
    | AskAdvertise(name: string)

  /** A world with the calls made to it so far. */
  datatype Tape<S> = Tape(calls: seq<Call>, world: S)

  /** Any driver, with every call written down before it is answered. */
  function Recording<S>(dr: MeshDriver<S>): MeshDriver<Tape<S>> {
    MeshDriver(
      (t: Tape<S>) => dr.clock(t.world),
      (t: Tape<S>) => var (w, a) := dr.atlas(t.world); (Tape(t.calls + [AskAtlas], w), a),
      (t: Tape<S>, node: string, id: string, probe: Option<Probe>) =>
        var (w, p) := dr.phase(t.world, node, id, probe); (Tape(t.calls + [AskPhase(node, id, probe)], w), p),
      (t: Tape<S>, node: string, id: string) =>
        var (w, ok) := dr.kill(t.world, node, id); (Tape(t.calls + [AskKill(node, id)], w), ok),
      (t: Tape<S>, node: string, d: Deployment) =>
        var (w, r) := dr.deploy(t.world, node, d); (Tape(t.calls + [AskDeploy(node, d)], w), r),
      (t: Tape<S>, service: string) =>
        var (w, ok) := dr.advertise(t.world, service); (Tape(t.calls + [AskAdvertise(service)], w), ok),
      (t: Tape<S>, service: string) =>
        var (w, r) := dr.serviceReady(t.world, service); (Tape(t.calls + [AskService(service)], w), r))
  }

  // ---- what each stage should say ------------------------------------------------------------------

  /** Each replica once, in order, on its own host. */
  function PhaseCalls(replicas: seq<Replica>, probe: Option<Probe>): seq<Call> {
    seq(|replicas|, i requires 0 <= i < |replicas| => AskPhase(replicas[i].nodeId, replicas[i].jobId, probe))
  }

  function ServiceCalls(deps: seq<DependencyRef>, namespace: string): seq<Call> {
    seq(|deps|, i requires 0 <= i < |deps| => AskService("ce-gke/" + namespace + "/" + deps[i].service))
  }

  /** Each victim once, in order, on its own host. */
  function KillCalls(victims: seq<Replica>): seq<Call> {
    seq(|victims|, i requires 0 <= i < |victims| => AskKill(victims[i].nodeId, victims[i].jobId))
  }

  lemma {:induction false} ObserveAllSays<S>(dr: MeshDriver<S>, w: Tape<S>, replicas: seq<Replica>, probe: Option<Probe>)
    ensures ObserveAll(Recording(dr), w, replicas, probe).0.calls == w.calls + PhaseCalls(replicas, probe)
    decreases |replicas|
  {
    if replicas == [] {
      assert w.calls + PhaseCalls(replicas, probe) == w.calls;
    } else {
      var w1 := Recording(dr).phase(w, replicas[0].nodeId, replicas[0].jobId, probe).0;
      ObserveAllSays(dr, w1, replicas[1..], probe);
      assert PhaseCalls(replicas, probe) == [AskPhase(replicas[0].nodeId, replicas[0].jobId, probe)] + PhaseCalls(replicas[1..], probe);
      Regroup(w.calls, AskPhase(replicas[0].nodeId, replicas[0].jobId, probe), PhaseCalls(replicas[1..], probe));
    }
  }

  lemma Regroup(calls: seq<Call>, c: Call, more: seq<Call>)
    ensures calls + [c] + more == calls + ([c] + more)
  {
  }

  lemma {:induction false} ObserveDepsSays<S>(dr: MeshDriver<S>, w: Tape<S>, namespace: string, deps: seq<DependencyRef>,
                                             seen: map<string, DepReadiness>)
    ensures ObserveDeps(Recording(dr), w, namespace, deps, seen).0.calls == w.calls + ServiceCalls(deps, namespace)
    decreases |deps|
  {
    if deps == [] {
      assert w.calls + ServiceCalls(deps, namespace) == w.calls;
    } else {
      var name := "ce-gke/" + namespace + "/" + deps[0].service;
      var (w1, o) := Recording(dr).serviceReady(w, ResolvedServiceName(deps[0], namespace));
      var observed := match o case Some(x) => x case None => Absent;
      ObserveDepsSays(dr, w1, namespace, deps[1..], seen[deps[0].service := observed]);
      assert ServiceCalls(deps, namespace) == [AskService(name)] + ServiceCalls(deps[1..], namespace);
      Regroup(w.calls, AskService(name), ServiceCalls(deps[1..], namespace));
    }
  }

  lemma {:induction false} RunKillsSays<S>(dr: MeshDriver<S>, w: Tape<S>, replicas: seq<Replica>, victims: seq<Replica>)
    requires Unique(replicas) && Tracked(victims, replicas)
    ensures RunKills(Recording(dr), w, replicas, Ids(victims)).world.calls == w.calls + KillCalls(victims)
    decreases |victims|
  {
    if victims == [] {
      assert w.calls + KillCalls(victims) == w.calls;
    } else {
      var v, rest := victims[0], victims[1..];
      TrackedRest(victims, replicas);
      hide Unique, Tracked, Find, Without, Ids;
      var (w1, ok) := Recording(dr).kill(w, v.nodeId, v.jobId);
      RunKillsSays(dr, w1, if ok then Without(replicas, v.jobId) else replicas, rest);
      assert KillCalls(victims) == [AskKill(v.nodeId, v.jobId)] + KillCalls(rest);
      Regroup(w.calls, AskKill(v.nodeId, v.jobId), KillCalls(rest));
    }
  }

  /** A kill request for a tracked replica, on its own host, not planned before. */
  ghost predicate SubstituteCall(c: Call, replicas: seq<Replica>, alternates: seq<string>, planned: seq<string>) {
    c.AskKill? && c.id in alternates && c.id !in planned && exists r :: r in replicas && r.nodeId == c.node && r.jobId == c.id
  }

  lemma {:induction false} RunSubstitutesSays<S>(dr: MeshDriver<S>, w: Tape<S>, replicas: seq<Replica>, alternates: seq<string>,
                                                planned: seq<string>, excess: int, failed: nat) returns (said: seq<Call>)
    ensures RunSubstitutes(Recording(dr), w, replicas, alternates, planned, excess, failed).world.calls == w.calls + said
    ensures forall c :: c in said ==> SubstituteCall(c, replicas, alternates, planned)
    decreases |alternates|
  {
    if alternates == [] || excess <= 0 {
      said := [];
      assert w.calls + said == w.calls;
    } else {
      var id, rest := alternates[0], alternates[1..];
      if id in planned || Find(replicas, id).None? {
        said := RunSubstitutesSays(dr, w, replicas, rest, planned, excess, failed);
      } else {
        var r := Find(replicas, id).value;
        var (w1, ok) := Recording(dr).kill(w, r.nodeId, id);
        var more: seq<Call>;
        if ok {
          more := RunSubstitutesSays(dr, w1, Without(replicas, id), rest, planned, excess - 1, SatSub(failed, 1));
        } else {
          more := RunSubstitutesSays(dr, w1, replicas, rest, planned, excess, failed);
        }
        said := [AskKill(r.nodeId, id)] + more;
        Regroup(w.calls, AskKill(r.nodeId, id), more);
      }
    }
  }

  lemma {:induction false} PlaceLoopSays<S>(dr: MeshDriver<S>, d: Deployment, target: string, p: Placing<Tape<S>>, limit: nat)
    returns (said: seq<Call>)
    ensures var q := PlaceLoop(Recording(dr), d, target, p, limit);
            && q.world.calls == p.world.calls + said
            && |said| <= q.attempts - p.attempts && |q.placed| - |p.placed| <= |said|
    ensures forall c :: c in said ==> c.AskDeploy? && c.spec == d && Lists(p.candidates, c.node)
    decreases limit - p.attempts
  {
    if p.left == 0 || p.attempts >= limit || p.candidates == [] {
      said := [];
      assert p.world.calls + said == p.world.calls;
    } else {
      var node := p.candidates[0].nodeId;
      var q := PlaceOne(Recording(dr), d, target, p);
      SameHostsLeft(Recording(dr), d, target, p);
      hide Charge, Drop;
      var more := PlaceLoopSays(dr, d, target, q, limit);
      said := [AskDeploy(node, d)] + more;
      assert p.candidates[0] in p.candidates;
      Regroup(p.world.calls, AskDeploy(node, d), more);
    }
  }

  lemma SameHostsLeft<S>(dr: MeshDriver<S>, d: Deployment, target: string, p: Placing<S>)
    requires p.left > 0 && p.candidates != []
    ensures forall node :: Lists(PlaceOne(dr, d, target, p).candidates, node) ==> Lists(p.candidates, node)
  {
    ChargeShape(p.candidates);
    DropMembers(p.candidates, p.candidates[0].nodeId);
    hide Charge, Drop;
    var q := PlaceOne(dr, d, target, p);
    forall node | Lists(q.candidates, node) ensures Lists(p.candidates, node) {
      var c :| c in q.candidates && c.nodeId == node;
      if c !in p.candidates { assert p.candidates[0] in p.candidates && p.candidates[0].nodeId == node; }
    }
  }

  lemma {:induction false} DropMembers(cands: seq<Candidate>, node: string)
    ensures forall c :: c in Drop(cands, node) ==> c in cands
  {
    if cands != [] { DropMembers(cands[1..], node); }
  }

  /** What the placement stage says: nothing when nothing is wanted or the gate is shut, otherwise one
      look at the atlas and then deploys of this very spec to ranked hosts. */
  ghost predicate PlacingCalls(said: seq<Call>, want: nat, gate: Gate, d: Deployment, candidates: seq<Candidate>, attempts: nat) {
    if want > 0 && gate.Ready? then
      && said != [] && said[0] == AskAtlas && |said| - 1 <= attempts
      && forall i :: 1 <= i < |said| ==> said[i].AskDeploy? && said[i].spec == d && Lists(candidates, said[i].node)
    else said == []
  }

  lemma PlaceStageSays<S>(dr: MeshDriver<S>, w: Tape<S>, d: Deployment, target: string, maxStale: nat, replicas: seq<Replica>,
                          want: nat, gate: Gate) returns (said: seq<Call>)
    ensures var (cands, p) := PlaceStage(Recording(dr), w, d, target, maxStale, replicas, want, gate);
            p.world.calls == w.calls + said && PlacingCalls(said, want, gate, d, cands, p.attempts)
  {
    hide Rank, PlaceLoop, Lists;
    if want > 0 && gate.Ready? {
      var (w1, cands) := RankedHosts(Recording(dr), w, d, maxStale);
      var deploys := PlaceLoopSays(dr, d, target, Placing(w1, replicas, cands, [], want, 0, 0), MaxAttempts(want, |cands|));
      said := [AskAtlas] + deploys;
      Regroup(w.calls, AskAtlas, deploys);
      forall i | 1 <= i < |said| ensures said[i].AskDeploy? && said[i].spec == d && Lists(cands, said[i].node) {
        assert said[i] == deploys[i - 1] && deploys[i - 1] in deploys;
      }
    } else {
      said := [];
      assert w.calls + said == w.calls;
    }
  }

  /** A named service with a ready replica behind an open gate is advertised, once, under its own name
      in its own namespace; nothing else ever is. */
  function AdvertiseCalls(d: Deployment, replicas: seq<Replica>, gate: Gate): seq<Call> {
    if d.service != "" && gate.Ready? && (exists r :: r in replicas && r.phase == Running)
    then [AskAdvertise("ce-gke/" + d.namespace + "/" + d.service)] else []
  }

  lemma AdvertiseSays<S>(dr: MeshDriver<S>, w: Tape<S>, d: Deployment, replicas: seq<Replica>, gate: Gate)
    ensures Advertise(Recording(dr), w, d, replicas, gate).0.calls == w.calls + AdvertiseCalls(d, replicas, gate)
    ensures Advertise(Recording(dr), w, d, replicas, gate).1 ==> AdvertiseCalls(d, replicas, gate) != []
  {
    if AdvertiseCalls(d, replicas, gate) == [] { assert w.calls + [] == w.calls; }
  }

  // ---- the whole tick --------------------------------------------------------------------------------

  lemma WatchSays<S>(dr: MeshDriver<S>, cfg: Config, w: S, h: Health, d: Deployment, target: string) returns (w2: Tape<S>)
    ensures var t := TickOf(Recording(dr), cfg, Tape([], w), h, d, target);
            && w2.calls == PhaseCalls(h.replicas, d.liveness) + ServiceCalls(d.dependsOn, d.namespace)
            && t.kills == RunKills(Recording(dr), w2, t.refreshed.replicas, t.step.toKill)
  {
    hide ObserveAll, ObserveDeps, Refresh, PlanStep, RunKills, Substitute, PlaceStage, Advertise, GateOf, Recording, PhaseCalls, ServiceCalls;
    var w1 := ObserveAll(Recording(dr), Tape([], w), h.replicas, d.liveness).0;
    w2 := ObserveDeps(Recording(dr), w1, d.namespace, d.dependsOn, map[]).0;
    ObserveAllSays(dr, Tape([], w), h.replicas, d.liveness);
    ObserveDepsSays(dr, w1, d.namespace, d.dependsOn, map[]);
    assert [] + PhaseCalls(h.replicas, d.liveness) == PhaseCalls(h.replicas, d.liveness);
  }

  /** A tick asks for the phase of each tracked replica once, on its own host and with the liveness
      probe; looks each dependency up once; asks each planned victim's own host to kill it, once and in
      order; asks for substitutes only tracked, unplanned replicas on their own hosts; deploys only this
      spec to ranked hosts; and advertises exactly when it may. Nothing else is ever said. */
  lemma TickSays<S>(dr: MeshDriver<S>, cfg: Config, w: S, h: Health, d: Deployment, target: string)
    returns (victims: seq<Replica>, substitutes: seq<Call>, placing: seq<Call>)
    requires Unique(h.replicas)
    ensures var t := TickOf(Recording(dr), cfg, Tape([], w), h, d, target);
            && t.world.calls == PhaseCalls(h.replicas, d.liveness) + ServiceCalls(d.dependsOn, d.namespace)
                 + KillCalls(victims) + substitutes + placing + AdvertiseCalls(d, t.After().replicas, t.gate)
            && Ids(victims) == t.step.toKill && (forall v :: v in victims ==> v in t.refreshed.replicas)
            && (forall c :: c in substitutes ==> SubstituteCall(c, t.kills.replicas, Ids(t.kills.replicas), t.step.toKill))
            && PlacingCalls(placing, t.step.toPlace, t.gate, d, t.candidates, t.placing.attempts)
            && (t.advertised ==> AdvertiseCalls(d, t.After().replicas, t.gate) != [])
  {
    hide TickOf, PlanStep, RunKills, Substitute, PlaceStage, Advertise, Recording, PhaseCalls, ServiceCalls, KillCalls, AdvertiseCalls;
    hide Victims, Unique, Ids, PlacingCalls, SubstituteCall;
    var rec := Recording(dr);
    var t := TickOf(rec, cfg, Tape([], w), h, d, target);
    var wk := WatchSays(dr, cfg, w, h, d, target);
    var w2 := TickStages(rec, cfg, Tape([], w), h, d, target);
    RefreshSameFleet(rec, cfg, Tape([], w), h, d, target);
    var r := t.refreshed.replicas;
    victims := Victims(d.strategy, d.replicas, r, target);
    VictimsTracked(d.strategy, d.replicas, r, target);
    PlannedIds(d.strategy, d.replicas, r, target);
    RunKillsSays(dr, wk, r, victims);
    substitutes := SubstituteSays(dr, t.kills, t.step.toKill, d.replicas, target);
    placing := PlaceStageSays(dr, t.substitutes.world, d, target, cfg.maxStaleSecs, t.substitutes.replicas, t.step.toPlace, t.gate);
    AdvertiseSays(dr, t.placing.world, d, t.placing.replicas, t.gate);
  }

  lemma SubstituteSays<S>(dr: MeshDriver<S>, k: Kills<Tape<S>>, planned: seq<string>, desired: U32, target: string) returns (said: seq<Call>)
    ensures Substitute(Recording(dr), k, planned, desired, target).world.calls == k.world.calls + said
    ensures forall c :: c in said ==> SubstituteCall(c, k.replicas, Ids(k.replicas), planned)
  {
    hide Pick, RunSubstitutes, Recording;
    if k.failed == 0 {
      said := [];
      assert k.world.calls + said == k.world.calls;
    } else {
      var p := Pick(k.replicas, target, NewKinds());
      said := RunSubstitutesSays(dr, k.world, k.replicas, Ids(p), planned, |p| - desired, k.failed);
      forall c | c in said ensures SubstituteCall(c, k.replicas, Ids(k.replicas), planned) {
        SubsetIds(p, k.replicas);
      }
    }
  }
}
