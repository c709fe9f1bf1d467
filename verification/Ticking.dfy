/** One reconcile tick as a function: every call to the driver in order, threading the world through.
    The trace it returns keeps what each stage saw, so that whole runs can be reasoned about. */
module Ticking {
  import opened Text
  import opened Sorting
  import opened Deployments
  import opened Replicas
  import opened Rollout
  import opened Placement
  import opened Deps
  import opened Driver

  /** What the controller carries between ticks. */
  datatype Health = Health(replicas: seq<Replica>, failures: map<string, nat>)

  datatype Config = Config(maxStaleSecs: nat, failureThreshold: nat)

  // ---- 1. health refresh -------------------------------------------------------------------

  function ObserveAll<S>(dr: MeshDriver<S>, w: S, replicas: seq<Replica>, probe: Option<Probe>)
    : (r: (S, seq<Option<Phase>>))
    ensures |r.1| == |replicas|
  {
    if replicas == [] then (w, []) else
      var (w1, p) := dr.phase(w, replicas[0].nodeId, replicas[0].jobId, probe);
      var (w2, rest) := ObserveAll(dr, w1, replicas[1..], probe);
      (w2, [p] + rest)
  }

  /** `find(|r| r.job_id == id)` then overwrite its phase. */
  function SetPhase(s: seq<Replica>, id: string, p: Phase): (r: seq<Replica>)
    ensures |r| == |s|
  {
    if s == [] then []
    else if s[0].jobId == id then [s[0].(phase := p)] + s[1..]
    else [s[0]] + SetPhase(s[1..], id, p)
  }

  function Streak(failures: map<string, nat>, id: string): nat {
    if id in failures then failures[id] else 0
  }

  /** One health report: success resets the error counter; a miss bumps it, and only a sustained
      run of misses condemns the replica. */
  function Report(h: Health, id: string, obs: Option<Phase>, threshold: nat): Health {
    match obs
    case Some(p) => Health(SetPhase(h.replicas, id, p), h.failures - {id})
    case None =>
      var n := Streak(h.failures, id) + 1;
      Health(if n >= Max(threshold, 1) then SetPhase(h.replicas, id, Failed) else h.replicas,
             h.failures[id := n])
  }

  function ReportAll(h: Health, ids: seq<string>, obs: seq<Option<Phase>>, threshold: nat): Health
    requires |ids| == |obs|
    decreases |ids|
  {
    if ids == [] then h else ReportAll(Report(h, ids[0], obs[0], threshold), ids[1..], obs[1..], threshold)
  }

  /** `retain`: counters of replicas no longer tracked are forgotten. */
  function Retained(failures: map<string, nat>, replicas: seq<Replica>): map<string, nat> {
    map id | id in failures && id in Ids(replicas) :: failures[id]
  }

  function Refresh(h: Health, obs: seq<Option<Phase>>, threshold: nat): Health
    requires |obs| == |h.replicas|
  {
    var r := ReportAll(h, Ids(h.replicas), obs, threshold);
    Health(r.replicas, Retained(r.failures, r.replicas))
  }

  // ---- 1b. dependency gate -----------------------------------------------------------------

  /** Resolve every dependency over the mesh; a lookup that errors counts as absent. */
  function ObserveDeps<S>(dr: MeshDriver<S>, w: S, namespace: string, deps: seq<DependencyRef>,
                          seen: map<string, DepReadiness>): (S, map<string, DepReadiness>)
  {
    if deps == [] then (w, seen) else
      var (w1, o) := dr.serviceReady(w, ResolvedServiceName(deps[0], namespace));
      var observed := match o case Some(x) => x case None => Absent;
      ObserveDeps(dr, w1, namespace, deps[1..], seen[deps[0].service := observed])
  }

  function Lookup(seen: map<string, DepReadiness>): string -> DepReadiness {
    svc => if svc in seen then seen[svc] else Absent
  }

  // ---- 3. kills ----------------------------------------------------------------------------

  datatype Kills<S> = Kills(world: S, replicas: seq<Replica>, killed: seq<string>, failed: nat)

  /** Kill what the plan retired: success drops the replica, failure leaves it for the next tick. */
  function RunKills<S>(dr: MeshDriver<S>, w: S, replicas: seq<Replica>, ids: seq<string>): Kills<S>
    decreases |ids|
  {
    if ids == [] then Kills(w, replicas, [], 0) else
      match Find(replicas, ids[0])
      case None => RunKills(dr, w, replicas, ids[1..])
      case Some(r) =>
        var (w1, ok) := dr.kill(w, r.nodeId, ids[0]);
        if ok then
          var k := RunKills(dr, w1, Without(replicas, ids[0]), ids[1..]);
          k.(killed := [ids[0]] + k.killed)
        else
          var k := RunKills(dr, w1, replicas, ids[1..]);
          k.(failed := k.failed + 1)
  }

  /** 3b. Retire alternates for planned victims whose kill failed, while on-target replicas are in
      excess. */
  function RunSubstitutes<S>(dr: MeshDriver<S>, w: S, replicas: seq<Replica>, alternates: seq<string>,
                             planned: seq<string>, excess: int, failed: nat): Kills<S>
    decreases |alternates|
  {
    if alternates == [] || excess <= 0 then Kills(w, replicas, [], failed)
    else
      var id, rest := alternates[0], alternates[1..];
      if id in planned || Find(replicas, id).None? then
        RunSubstitutes(dr, w, replicas, rest, planned, excess, failed)
      else
        var (w1, ok) := dr.kill(w, Find(replicas, id).value.nodeId, id);
        if ok then
          var k := RunSubstitutes(dr, w1, Without(replicas, id), rest, planned, excess - 1, SatSub(failed, 1));
          k.(killed := [id] + k.killed)
        else RunSubstitutes(dr, w1, replicas, rest, planned, excess, failed)
  }

  function Substitute<S>(dr: MeshDriver<S>, k: Kills<S>, planned: seq<string>, desired: U32, target: string): Kills<S> {
    if k.failed == 0 then Kills(k.world, k.replicas, [], 0) else
      var alternates := Ids(Pick(k.replicas, target, NewKinds()));
      RunSubstitutes(dr, k.world, k.replicas, alternates, planned, |alternates| - desired, k.failed)
  }

  // ---- 4. placements -----------------------------------------------------------------------

  datatype Placing<S> = Placing(world: S, replicas: seq<Replica>, candidates: seq<Candidate>,
                                placed: seq<string>, left: nat, attempts: nat, failures: nat)

  /** Charge the chosen host and put the candidates back in order. */
  function Charge(candidates: seq<Candidate>): seq<Candidate>
    requires candidates != []
  {
    Sort(BetterOrEqual, [candidates[0].(score := candidates[0].score - 150)] + candidates[1..])
  }

  function Drop(candidates: seq<Candidate>, nodeId: string): (r: seq<Candidate>)
    ensures |r| <= |candidates|
  {
    if candidates == [] then []
    else if candidates[0].nodeId == nodeId then Drop(candidates[1..], nodeId)
    else [candidates[0]] + Drop(candidates[1..], nodeId)
  }

  /** One turn of the placement loop; `limit` attempts in all. */
  function PlaceOne<S>(dr: MeshDriver<S>, d: Deployment, target: string, p: Placing<S>): Placing<S>
    requires p.left > 0 && p.candidates != []
  {
    var node := p.candidates[0].nodeId;
    var (w1, res) := dr.deploy(p.world, node, d);
    match res
    case Some(id) =>
      Placing(w1, p.replicas + [Replica(id, node, target, Pending)], Charge(p.candidates),
              p.placed + [id], p.left - 1, p.attempts + 1, p.failures)
    case None =>
      Placing(w1, p.replicas, Drop(p.candidates, node), p.placed, p.left, p.attempts + 1, p.failures)
  }

  function PlaceLoop<S>(dr: MeshDriver<S>, d: Deployment, target: string, p: Placing<S>, limit: nat): Placing<S>
    decreases limit - p.attempts
  {
    if p.left == 0 || p.attempts >= limit then p
    else if p.candidates == [] then p.(attempts := p.attempts + 1, failures := p.failures + p.left)
    else PlaceLoop(dr, d, target, PlaceOne(dr, d, target, p), limit)
  }

  function MaxAttempts(want: nat, candidates: nat): nat {
    Max(SatMul(want, 4), candidates + 1)
  }

  function Place<S>(dr: MeshDriver<S>, w: S, d: Deployment, target: string, replicas: seq<Replica>,
                    candidates: seq<Candidate>, want: nat): Placing<S>
  {
    var p := PlaceLoop(dr, d, target, Placing(w, replicas, candidates, [], want, 0, 0),
                       MaxAttempts(want, |candidates|));
    if p.left > 0 && p.candidates != [] then p.(failures := p.failures + p.left) else p
  }

  // ---- the tick ----------------------------------------------------------------------------

  datatype Tick<S> = Tick(
    refreshed: Health,        // after the health refresh
    gate: Gate,
    step: Step,               // what the planner asked for
    kills: Kills<S>,          // planned kills
    substitutes: Kills<S>,    // substitute kills
    candidates: seq<Candidate>, // ranked hosts, when placing
    placing: Placing<S>,
    world: S,
    advertised: bool)
  {
    function Killed(): seq<string> { kills.killed + substitutes.killed }
    function Placed(): seq<string> { placing.placed }
    function Done(): bool { step.done && gate.Ready? }
    function After(): Health { Health(placing.replicas, refreshed.failures) }
    function Report(): TickReport {
      TickReport(Placed(), Killed(), placing.failures, substitutes.failed, advertised, Done(),
                 match gate case Ready => [] case Waiting(unmet) => unmet)
    }
  }

  datatype TickReport = TickReport(placed: seq<string>, killed: seq<string>, placeFailures: nat,
                                   killFailures: nat, serviceAdvertised: bool, done: bool,
                                   waitingOn: seq<string>)

  function NoReport(): TickReport { TickReport([], [], 0, 0, false, false, []) }

  function RankedHosts<S>(dr: MeshDriver<S>, w: S, d: Deployment, maxStale: nat): (S, seq<Candidate>) {
    var (w1, a) := dr.atlas(w);
    var atlas := match a case Some(x) => x case None => [];
    (w1, Rank(atlas, d, dr.clock(w1), maxStale))
  }

  function PlaceStage<S>(dr: MeshDriver<S>, w: S, d: Deployment, target: string, maxStale: nat,
                         replicas: seq<Replica>, want: nat, gate: Gate): (seq<Candidate>, Placing<S>)
  {
    if want > 0 && gate.Ready? then
      var (w1, candidates) := RankedHosts(dr, w, d, maxStale);
      (candidates, Place(dr, w1, d, target, replicas, candidates, want))
    else ([], Placing(w, replicas, [], [], want, 0, 0))
  }

  /** Advertise a named service with a ready replica, unless it is held itself. */
  function Advertise<S>(dr: MeshDriver<S>, w: S, d: Deployment, replicas: seq<Replica>, gate: Gate): (S, bool) {
    match d.ServiceName()
    case None => (w, false)
    case Some(service) =>
      if (exists r :: r in replicas && r.phase == Running) && gate.Ready? then dr.advertise(w, service) else (w, false)
  }

  function TickOf<S>(dr: MeshDriver<S>, cfg: Config, w: S, h: Health, d: Deployment, target: string): Tick<S> {
    var (w1, obs) := ObserveAll(dr, w, h.replicas, d.liveness);
    var refreshed := Refresh(h, obs, cfg.failureThreshold);
    var (w2, seen) := ObserveDeps(dr, w1, d.namespace, d.dependsOn, map[]);
    var gate := GateOf(d.dependsOn, Lookup(seen));
    var step := PlanStep(d.strategy, d.replicas, refreshed.replicas, target);
    var kills := RunKills(dr, w2, refreshed.replicas, step.toKill);
    var subs := Substitute(dr, kills, step.toKill, d.replicas, target);
    var (candidates, placing) := PlaceStage(dr, subs.world, d, target, cfg.maxStaleSecs, subs.replicas, step.toPlace, gate);
    var (w3, advertised) := Advertise(dr, placing.world, d, placing.replicas, gate);
    Tick(refreshed, gate, step, kills, subs, candidates, placing, w3, advertised)
  }
}
