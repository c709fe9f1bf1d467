/** The controller object: the program's own loops over its mutable fields, proved to carry out
    exactly the tick that the properties are stated about. */
module Controlling {
  import opened Text
  import opened Sorting
  import opened Deployments
  import opened Replicas
  import opened Rollout
  import opened Placement
  import opened Deps
  import opened Driver
  import opened Ticking
  import opened Convergence

  class Controller {
    var replicas: seq<Replica>
    var refreshFailures: map<string, nat>
    var maxStaleSecs: nat
    var failureThreshold: nat

    constructor ()
      ensures replicas == [] && refreshFailures == map[]
      ensures maxStaleSecs == 120 && failureThreshold == 3
    {
      replicas, refreshFailures, maxStaleSecs, failureThreshold := [], map[], 120, 3;
    }

    ghost function State(): Health reads this {
      Health(replicas, refreshFailures)
    }

    ghost function Settings(): Config reads this {
      Config(maxStaleSecs, failureThreshold)
    }

    /** Ask after every tracked replica first; nothing is updated until all have answered. */
    method Observe<S>(dr: MeshDriver<S>, w: S, probe: Option<Probe>)
      returns (w': S, updates: seq<Option<Phase>>)
      ensures (w', updates) == ObserveAll(dr, w, replicas, probe)
    {
      w', updates := w, [];
      ghost var (wEnd, obs) := ObserveAll(dr, w, replicas, probe);
      for i := 0 to |replicas|
        invariant |updates| == i
        invariant ObserveAll(dr, w', replicas[i..], probe).0 == wEnd
        invariant updates + ObserveAll(dr, w', replicas[i..], probe).1 == obs
      {
        var r := replicas[i];
        var (w1, res) := dr.phase(w', r.nodeId, r.jobId, probe);
        assert replicas[i..][1..] == replicas[i + 1..];
        ghost var rest := ObserveAll(dr, w1, replicas[i + 1..], probe).1;
        assert updates + ([res] + rest) == (updates + [res]) + rest;
        w' := w1;
        updates := updates + [res];
      }
      assert replicas[|replicas|..] == [] && updates + [] == updates;
    }

    method ApplyReports(updates: seq<Option<Phase>>)
      requires |updates| == |replicas|
      modifies this`replicas, this`refreshFailures
      ensures State() == Ticking.Refresh(old(State()), updates, failureThreshold)
    {
      hide SetPhase, Retained, Ids;
      var ids := Ids(replicas);
      ghost var start := State();
      for i := 0 to |ids|
        invariant ReportAll(State(), ids[i..], updates[i..], failureThreshold)
               == ReportAll(start, ids, updates, failureThreshold)
      {
        var id := ids[i];
        assert ids[i..][1..] == ids[i + 1..] && updates[i..][1..] == updates[i + 1..];
        match updates[i] {
          case Some(p) =>
            refreshFailures := refreshFailures - {id};
            replicas := SetPhase(replicas, id, p);
          case None =>
            var n := (if id in refreshFailures then refreshFailures[id] else 0) + 1;
            refreshFailures := refreshFailures[id := n];
            if n >= Max(failureThreshold, 1) {
              replicas := SetPhase(replicas, id, Failed);
            }
        }
      }
      refreshFailures := Retained(refreshFailures, replicas);
    }

    method Refresh<S>(dr: MeshDriver<S>, w: S, probe: Option<Probe>) returns (w': S)
      modifies this`replicas, this`refreshFailures
      ensures w' == ObserveAll(dr, w, old(replicas), probe).0
      ensures State() == Ticking.Refresh(old(State()), ObserveAll(dr, w, old(replicas), probe).1, failureThreshold)
    {
      var updates;
      w', updates := Observe(dr, w, probe);
      ApplyReports(updates);
    }

    method EvaluateDeps<S>(dr: MeshDriver<S>, w: S, d: Deployment) returns (w': S, gate: Gate)
      ensures var (w1, seen) := ObserveDeps(dr, w, d.namespace, d.dependsOn, map[]);
              w' == w1 && gate == GateOf(d.dependsOn, Lookup(seen))
    {
      w' := w;
      if d.dependsOn == [] {
        gate := Ready;
        return;
      }
      var readiness: map<string, DepReadiness> := map[];
      for i := 0 to |d.dependsOn|
        invariant ObserveDeps(dr, w', d.namespace, d.dependsOn[i..], readiness)
               == ObserveDeps(dr, w, d.namespace, d.dependsOn, map[])
      {
        var dep := d.dependsOn[i];
        var (w1, o) := dr.serviceReady(w', ResolvedServiceName(dep, d.namespace));
        var observed := match o case Some(x) => x case None => Absent;
        assert d.dependsOn[i..][1..] == d.dependsOn[i + 1..];
        w', readiness := w1, readiness[dep.service := observed];
      }
      assert d.dependsOn[|d.dependsOn|..] == [];
      gate := Evaluate(d, Lookup(readiness));
    }

    method KillPlanned<S>(dr: MeshDriver<S>, w: S, ids: seq<string>) returns (w': S, killed: seq<string>, failed: nat)
      modifies this`replicas
      ensures Kills(w', replicas, killed, failed) == RunKills(dr, w, old(replicas), ids)
    {
      w', killed, failed := w, [], 0;
      for i := 0 to |ids|
        invariant var k := RunKills(dr, w', replicas, ids[i..]);
                  var all := RunKills(dr, w, old(replicas), ids);
                  && all.world == k.world && all.replicas == k.replicas
                  && all.killed == killed + k.killed && all.failed == failed + k.failed
      {
        var id := ids[i];
        assert ids[i..][1..] == ids[i + 1..] && ids[i..][0] == id;
        match Find(replicas, id) {
          case None =>
          case Some(r) =>
            var (w1, ok) := dr.kill(w', r.nodeId, id);
            w' := w1;
            if ok {
              ghost var k := RunKills(dr, w1, Without(replicas, id), ids[i + 1..]);
              assert killed + ([id] + k.killed) == (killed + [id]) + k.killed;
              replicas := Without(replicas, id);
              killed := killed + [id];
            } else {
              failed := failed + 1;
            }
        }
      }
      assert ids[|ids|..] == [];
    }

    method KillSubstitutes<S>(dr: MeshDriver<S>, w: S, planned: seq<string>, desired: U32, target: string, failures: nat)
      returns (w': S, killed: seq<string>, failed: nat)
      requires failures > 0
      modifies this`replicas
      ensures Kills(w', replicas, killed, failed)
           == RunSubstitutes(dr, w, old(replicas), Ids(Pick(old(replicas), target, NewKinds())), planned,
                             |Pick(old(replicas), target, NewKinds())| - desired, failures)
    {
      hide Count, KindOf, Find, Without, Pick, Ids;
      w', killed, failed := w, [], failures;
      var alternates := Ids(Pick(replicas, target, NewKinds()));
      var excess := |alternates| - desired;
      ghost var all := RunSubstitutes(dr, w, replicas, alternates, planned, excess, failures);
      for i := 0 to |alternates|
        invariant var k := RunSubstitutes(dr, w', replicas, alternates[i..], planned, excess, failed);
                  && all.world == k.world && all.replicas == k.replicas
                  && all.killed == killed + k.killed && all.failed == k.failed
      {
        var id := alternates[i];
        assert alternates[i..][1..] == alternates[i + 1..] && alternates[i..][0] == id;
        if excess <= 0 {
          return;
        }
        if id in planned {
          continue;
        }
        match Find(replicas, id) {
          case None => continue;
          case Some(r) =>
            var (w1, ok) := dr.kill(w', r.nodeId, id);
            w' := w1;
            if ok {
              ghost var k := RunSubstitutes(dr, w1, Without(replicas, id), alternates[i + 1..], planned, excess - 1, SatSub(failed, 1));
              assert killed + ([id] + k.killed) == (killed + [id]) + k.killed;
              replicas := Without(replicas, id);
              killed := killed + [id];
              failed := SatSub(failed, 1);
              excess := excess - 1;
            }
        }
      }
      assert alternates[|alternates|..] == [];
    }

    method PlaceReplicas<S>(dr: MeshDriver<S>, w: S, d: Deployment, target: string, ranked: seq<Candidate>, want: nat)
      returns (w': S, placed: seq<string>, failures: nat,
               ghost candidates: seq<Candidate>, ghost left: nat, ghost tries: nat)
      modifies this`replicas
      ensures Placing(w', replicas, candidates, placed, left, tries, failures)
           == Place(dr, w, d, target, old(replicas), ranked, want)
    {
      hide Rank;
      w', placed, failures := w, [], 0;
      var cands, toPlace, attempts := ranked, want, 0;
      var maxAttempts := MaxAttempts(want, |ranked|);
      ghost var all := PlaceLoop(dr, d, target, Placing(w, replicas, ranked, [], want, 0, 0), maxAttempts);
      while toPlace > 0 && attempts < maxAttempts
        invariant failures == 0 && attempts <= maxAttempts
        invariant PlaceLoop(dr, d, target, Placing(w', replicas, cands, placed, toPlace, attempts, failures), maxAttempts) == all
        decreases maxAttempts - attempts
      {
        ghost var before := Placing(w', replicas, cands, placed, toPlace, attempts, failures);
        attempts := attempts + 1;
        if cands == [] {
          failures := failures + toPlace;
          break;
        }
        var nodeId := cands[0].nodeId;
        var (w1, res) := dr.deploy(w', nodeId, d);
        w' := w1;
        match res {
          case Some(jobId) =>
            replicas := replicas + [Replica(jobId, nodeId, target, Pending)];
            placed := placed + [jobId];
            toPlace := toPlace - 1;
            cands := Sort(BetterOrEqual, [cands[0].(score := cands[0].score - 150)] + cands[1..]);
          case None =>
            cands := Drop(cands, nodeId);
        }
        assert Placing(w', replicas, cands, placed, toPlace, attempts, failures) == PlaceOne(dr, d, target, before);
      }
      if toPlace > 0 && cands != [] {
        failures := failures + toPlace;
      }
      candidates, left, tries := cands, toPlace, attempts;
    }

    /** Planned kills, then substitutes if any of them failed. */
    method Retire<S>(dr: MeshDriver<S>, w: S, planned: seq<string>, desired: U32, target: string)
      returns (w': S, killed: seq<string>, failed: nat)
      modifies this`replicas
      ensures var k := RunKills(dr, w, old(replicas), planned);
              var s := Substitute(dr, k, planned, desired, target);
              w' == s.world && replicas == s.replicas && killed == k.killed + s.killed && failed == s.failed
    {
      hide Count, KindOf, RunKills, RunSubstitutes, Pick;
      w', killed, failed := KillPlanned(dr, w, planned);
      if failed > 0 {
        var more;
        w', more, failed := KillSubstitutes(dr, w', planned, desired, target, failed);
        killed := killed + more;
      } else {
        assert killed + [] == killed;
      }
    }

    method Grow<S>(dr: MeshDriver<S>, w: S, d: Deployment, target: string, want: nat, gate: Gate)
      returns (w': S, placed: seq<string>, failures: nat)
      modifies this`replicas
      ensures var p := PlaceStage(dr, w, d, target, maxStaleSecs, old(replicas), want, gate).1;
              w' == p.world && replicas == p.replicas && placed == p.placed && failures == p.failures
    {
      hide Place, Rank;
      w', placed, failures := w, [], 0;
      if want > 0 && gate.Ready? {
        var (w1, a) := dr.atlas(w');
        var atlas := match a case Some(x) => x case None => [];
        w' := w1;
        var candidates := Rank(atlas, d, dr.clock(w'), maxStaleSecs);
        ghost var c, l, n;
        w', placed, failures, c, l, n := PlaceReplicas(dr, w', d, target, candidates, want);
      }
    }

    method Announce<S>(dr: MeshDriver<S>, w: S, d: Deployment, gate: Gate) returns (w': S, advertised: bool)
      ensures (w', advertised) == Advertise(dr, w, d, replicas, gate)
    {
      w', advertised := w, false;
      match d.ServiceName() {
        case None =>
        case Some(service) =>
          var hasReady := exists r :: r in replicas && r.phase == Running;
          if hasReady && gate.Ready? {
            var (w1, ok) := dr.advertise(w', service);
            w', advertised := w1, ok;
          }
      }
    }

    /** Refresh, gate, plan, kill, substitute, place, advertise. Never fails on a driver error. */
    method Tick<S>(dr: MeshDriver<S>, w: S, d: Deployment, target: string) returns (w': S, report: TickReport)
      modifies this`replicas, this`refreshFailures
      ensures var t := TickOf(dr, Settings(), w, old(State()), d, target);
              w' == t.world && State() == t.After() && report == t.Report()
    {
      hide Count, KindOf, PlanStep, RunKills, Substitute, PlaceStage, GateOf, ObserveAll, ObserveDeps, Advertise;
      hide Ticking.Refresh;
      w' := Refresh(dr, w, d.liveness);
      var gate;
      w', gate := EvaluateDeps(dr, w', d);
      var waitingOn := match gate case Ready => [] case Waiting(unmet) => unmet;
      var step := PlanNext(d, replicas, target);
      var done := step.done && gate.Ready?;
      var killed, killFailures, placed, placeFailures, advertised;
      w', killed, killFailures := Retire(dr, w', step.toKill, d.replicas, target);
      w', placed, placeFailures := Grow(dr, w', d, target, step.toPlace, gate);
      w', advertised := Announce(dr, w', d, gate);
      report := TickReport(placed, killed, placeFailures, killFailures, advertised, done, waitingOn);
    }

    /** Tick until the deployment reports done or `maxTicks` are spent; `between` is what the mesh
        does while the loop sleeps. */
    method Converge<S>(dr: MeshDriver<S>, between: S -> S, w: S, d: Deployment, target: string, maxTicks: nat)
      returns (w': S, last: TickReport)
      modifies this`replicas, this`refreshFailures
      ensures (w', State(), last) == ConvergeOf(dr, between, Settings(), w, old(State()), d, target, maxTicks, NoReport())
    {
      hide TickOf;
      w', last := w, NoReport();
      for i := 0 to maxTicks
        invariant ConvergeOf(dr, between, Settings(), w', State(), d, target, maxTicks - i, last)
               == ConvergeOf(dr, between, Settings(), w, old(State()), d, target, maxTicks, NoReport())
        invariant Settings() == old(Settings())
      {
        w', last := Tick(dr, w', d, target);
        if last.done {
          return;
        }
        w' := between(w');
      }
    }
  }
}
