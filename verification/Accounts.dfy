/** What one tick does to the head count, stage by stage, for any driver whatsoever. */
module Accounts {
  import opened Text
  import opened Deployments
  import opened Replicas
  import opened Rollout
  import opened Planner
  import opened Placement
  import opened Deps
  import opened Driver
  import opened Ticking

  // ---- refresh: identities stay, phases move -------------------------------------------------

  ghost predicate SameFleet(a: seq<Replica>, b: seq<Replica>) {
    |a| == |b| && forall i :: 0 <= i < |a| ==>
      a[i].jobId == b[i].jobId && a[i].nodeId == b[i].nodeId && a[i].revision == b[i].revision
  }

  lemma {:induction false} SetPhaseSameFleet(s: seq<Replica>, id: string, p: Phase)
    ensures SameFleet(s, SetPhase(s, id, p))
  {
    if s != [] && s[0].jobId != id {
      SetPhaseSameFleet(s[1..], id, p);
    }
  }

  lemma {:induction false} ReportAllSameFleet(h: Health, ids: seq<string>, obs: seq<Option<Phase>>, threshold: nat)
    requires |ids| == |obs|
    ensures SameFleet(h.replicas, ReportAll(h, ids, obs, threshold).replicas)
    decreases |ids|
  {
    if ids != [] {
      match obs[0] {
        case Some(p) => SetPhaseSameFleet(h.replicas, ids[0], p);
        case None => SetPhaseSameFleet(h.replicas, ids[0], Failed);
      }
      ReportAllSameFleet(Report(h, ids[0], obs[0], threshold), ids[1..], obs[1..], threshold);
    }
  }

  lemma SameFleetIds(a: seq<Replica>, b: seq<Replica>)
    requires SameFleet(a, b)
    ensures Ids(a) == Ids(b)
    ensures Unique(a) ==> Unique(b)
  {
  }

  lemma RefreshSameFleet<S>(dr: MeshDriver<S>, cfg: Config, w: S, h: Health, d: Deployment, target: string)
    ensures SameFleet(h.replicas, TickOf(dr, cfg, w, h, d, target).refreshed.replicas)
    ensures Ids(h.replicas) == Ids(TickOf(dr, cfg, w, h, d, target).refreshed.replicas)
    ensures Unique(h.replicas) ==> Unique(TickOf(dr, cfg, w, h, d, target).refreshed.replicas)
  {
    var obs := ObserveAll(dr, w, h.replicas, d.liveness).1;
    ReportAllSameFleet(h, Ids(h.replicas), obs, cfg.failureThreshold);
    var t := TickOf(dr, cfg, w, h, d, target);
    hide ObserveAll, ReportAll, ObserveDeps, GateOf, PlanStep, RunKills, Substitute, PlaceStage, Advertise;
    SameFleetIds(h.replicas, t.refreshed.replicas);
  }

  // ---- kills ---------------------------------------------------------------------------------

  lemma {:induction false} SpareMembers(s: seq<Replica>, gone: set<string>)
    ensures forall r :: r in Spare(s, gone) <==> r in s && r.jobId !in gone
    ensures Unique(s) ==> Unique(Spare(s, gone))
  {
    if s != [] {
      SpareMembers(s[1..], gone);
      assert s == [s[0]] + s[1..];
      if Unique(s) {
        UniqueTail(s);
      }
    }
  }

  lemma ConsUnique(v: Replica, g: seq<Replica>)
    requires Unique(g) && forall x :: x in g ==> x.jobId != v.jobId
    ensures Unique([v] + g)
  {
    var c := [v] + g;
    forall i, j | 0 <= i < j < |c| ensures c[i].jobId != c[j].jobId {
      assert c[j] == g[j - 1] && g[j - 1] in g;
      if i > 0 { assert c[i] == g[i - 1]; }
    }
  }

  lemma TrackedCons(v: Replica, g: seq<Replica>, s: seq<Replica>)
    requires Unique(s) && v in s && Tracked(g, Without(s, v.jobId))
    ensures Tracked([v] + g, s)
  {
    assert forall x :: x in Without(s, v.jobId) ==> x in s && x.jobId != v.jobId;
    hide Without, Unique;
    ConsUnique(v, g);
  }

  lemma IdsCons(v: Replica, g: seq<Replica>)
    ensures Ids([v] + g) == [v.jobId] + Ids(g)
  {
  }

  lemma KilledNone(replicas: seq<Replica>)
    ensures IdSet([]) == {} && Ids([]) == [] && Spare(replicas, {}) == replicas
  {
    SpareNone(replicas);
  }

  lemma ConsMembers(v: Replica, g: seq<Replica>, victims: seq<Replica>)
    requires victims != [] && v == victims[0]
    requires forall x :: x in g ==> x in victims[1..]
    ensures forall x :: x in [v] + g ==> x in victims
  {
  }

  lemma TailMembers(g: seq<Replica>, victims: seq<Replica>)
    requires victims != [] && forall x :: x in g ==> x in victims[1..]
    ensures forall x :: x in g ==> x in victims
  {
  }

  lemma SparedStays(v: Replica, s: seq<Replica>, victims: seq<Replica>, gone: seq<Replica>)
    requires Unique(s) && Tracked(victims, s) && victims != [] && v == victims[0]
    requires forall x :: x in gone ==> x in victims[1..]
    ensures v in Spare(s, IdSet(gone))
  {
    SpareMembers(s, IdSet(gone));
    UniqueTail(victims);
    assert v in victims;
    hide Spare;
  }

  /** Whatever the driver answers, the kill loop removes exactly the victims whose kill succeeded
      (`gone`); the others (`spared`) stay tracked and are counted as failures. */
  lemma {:induction false} RunKillsEffect<S>(dr: MeshDriver<S>, w: S, replicas: seq<Replica>, victims: seq<Replica>, target: string)
    returns (gone: seq<Replica>, spared: seq<Replica>)
    requires Unique(replicas) && Tracked(victims, replicas)
    ensures var k := RunKills(dr, w, replicas, Ids(victims));
            && k.replicas == Spare(replicas, IdSet(gone)) && k.killed == Ids(gone) && k.failed == |spared|
            && forall v :: v in spared ==> v in k.replicas
    ensures Tracked(gone, replicas)
    ensures (forall v :: v in gone ==> v in victims) && (forall v :: v in spared ==> v in victims)
    ensures TallyOf(gone, target).Plus(TallyOf(spared, target)) == TallyOf(victims, target)
    decreases |victims|
  {
    if victims == [] {
      gone, spared := [], [];
      KilledNone(replicas);
      TallyNone(target);
      hide Count, TallyOf, Spare, IdSet, Ids;
    } else {
      var v, rest := victims[0], victims[1..];
      TrackedRest(victims, replicas);
      TallyHead(victims, target);
      var (w1, ok) := dr.kill(w, v.nodeId, v.jobId);
      hide Count, KindOf, TallyOf, Find, Without, Spare, IdSet, Ids, Unique, Tracked, One, Tally.Plus;
      if ok {
        var g;
        g, spared := RunKillsEffect(dr, w1, Without(replicas, v.jobId), rest, target);
        gone := [v] + g;
        TrackedCons(v, g, replicas);
        IdsCons(v, g);
        SpareHead(replicas, v, g);
        TallyHead(gone, target);
        assert gone[1..] == g;
        PlusShift(One(KindOf(v, target)), TallyOf(g, target), TallyOf(spared, target), TallyOf(rest, target));
        ConsMembers(v, g, victims);
        TailMembers(spared, victims);
      } else {
        var s;
        gone, s := RunKillsEffect(dr, w1, replicas, rest, target);
        spared := [v] + s;
        TallyHead(spared, target);
        assert spared[1..] == s;
        PlusShift(One(KindOf(v, target)), TallyOf(gone, target), TallyOf(s, target), TallyOf(rest, target));
        ConsMembers(v, s, victims);
        TailMembers(gone, victims);
        SparedStays(v, replicas, victims, gone);
      }
    }
  }

  lemma RunKillsSubset<S>(dr: MeshDriver<S>, w: S, replicas: seq<Replica>, ids: seq<string>)
    ensures forall r :: r in RunKills(dr, w, replicas, ids).replicas ==> r in replicas
    decreases |ids|
  {
    if ids != [] {
      match Find(replicas, ids[0]) {
        case None => RunKillsSubset(dr, w, replicas, ids[1..]);
        case Some(r) =>
          var (w1, ok) := dr.kill(w, r.nodeId, ids[0]);
          RunKillsSubset(dr, w1, if ok then Without(replicas, ids[0]) else replicas, ids[1..]);
      }
    }
  }

  lemma SubsetIds(a: seq<Replica>, b: seq<Replica>)
    requires forall r :: r in a ==> r in b
    ensures forall id :: id in Ids(a) ==> id in Ids(b)
  {
    forall id | id in Ids(a) ensures id in Ids(b) {
      var i :| 0 <= i < |a| && Ids(a)[i] == id;
      assert a[i] in b;
      var j :| 0 <= j < |b| && b[j] == a[i];
      assert Ids(b)[j] == id;
    }
  }

  lemma NoSubstitutes<S>(dr: MeshDriver<S>, w: S, replicas: seq<Replica>, ids: seq<string>,
                         planned: seq<string>, excess: int, failed: nat)
    requires ids == [] || excess <= 0
    ensures RunSubstitutes(dr, w, replicas, ids, planned, excess, failed) == Kills(w, replicas, [], failed)
  {
  }

  /** One turn of the substitute loop. */
  lemma SubstituteTurn<S>(dr: MeshDriver<S>, w: S, replicas: seq<Replica>, ids: seq<string>,
                          planned: seq<string>, excess: int, failed: nat, v: Replica)
    requires ids != [] && excess > 0 && ids[0] == v.jobId && Find(replicas, v.jobId) == Some(v)
    ensures var k := RunSubstitutes(dr, w, replicas, ids, planned, excess, failed);
            if v.jobId in planned then k == RunSubstitutes(dr, w, replicas, ids[1..], planned, excess, failed)
            else var (w1, ok) := dr.kill(w, v.nodeId, v.jobId);
                 if ok then
                   var r := RunSubstitutes(dr, w1, Without(replicas, v.jobId), ids[1..], planned, excess - 1, SatSub(failed, 1));
                   k.replicas == r.replicas && k.killed == [v.jobId] + r.killed
                 else k == RunSubstitutes(dr, w1, replicas, ids[1..], planned, excess, failed)
  {
    hide Find, Without;
  }

  /** `gone` is what a substitute pass removed. */
  ghost predicate Substituted(replicas: seq<Replica>, left: seq<Replica>, killed: seq<string>, alternates: seq<Replica>,
                              planned: seq<string>, excess: int, gone: seq<Replica>)
  {
    && left == Spare(replicas, IdSet(gone)) && killed == Ids(gone)
    && Tracked(gone, replicas)
    && |gone| <= Max(excess, 0)
    && forall v :: v in gone ==> v in alternates && v.jobId !in planned
  }

  lemma SubstitutedCons(replicas: seq<Replica>, left: seq<Replica>, killed: seq<string>, alternates: seq<Replica>,
                        planned: seq<string>, excess: int, g: seq<Replica>)
    requires Unique(replicas) && alternates != [] && alternates[0] in replicas && excess > 0
    requires alternates[0].jobId !in planned
    requires Substituted(Without(replicas, alternates[0].jobId), left, killed, alternates[1..], planned, excess - 1, g)
    ensures Substituted(replicas, left, [alternates[0].jobId] + killed, alternates, planned, excess, [alternates[0]] + g)
  {
    var v := alternates[0];
    hide Without, Spare, IdSet;
    TrackedCons(v, g, replicas);
    IdsCons(v, g);
    SpareHead(replicas, v, g);
    ConsMembers(v, g, alternates);
  }

  lemma SubstitutedRest(replicas: seq<Replica>, left: seq<Replica>, killed: seq<string>, alternates: seq<Replica>,
                        planned: seq<string>, excess: int, g: seq<Replica>)
    requires alternates != []
    requires Substituted(replicas, left, killed, alternates[1..], planned, excess, g)
    ensures Substituted(replicas, left, killed, alternates, planned, excess, g)
  {
    hide Spare, IdSet, Ids, Tracked;
    TailMembers(g, alternates);
  }

  /** Substitute kills only ever take listed alternates not planned before, at most `excess`. */
  lemma {:induction false} RunSubstitutesEffect<S>(dr: MeshDriver<S>, w: S, replicas: seq<Replica>, alternates: seq<Replica>,
                                 planned: seq<string>, excess: int, failed: nat)
    returns (gone: seq<Replica>)
    requires Unique(replicas) && Tracked(alternates, replicas)
    ensures var k := RunSubstitutes(dr, w, replicas, Ids(alternates), planned, excess, failed);
            Substituted(replicas, k.replicas, k.killed, alternates, planned, excess, gone)
    decreases |alternates|
  {
    var ids := Ids(alternates);
    hide Find, Without, Spare, IdSet, Ids, Unique, RunSubstitutes, Substituted, Tracked;
    if alternates == [] || excess <= 0 {
      gone := [];
      NoSubstitutes(dr, w, replicas, ids, planned, excess, failed);
      SubstitutedNone(replicas, alternates, planned, excess);
    } else {
      var v, rest := alternates[0], alternates[1..];
      TrackedRest(alternates, replicas);
      SubstituteTurn(dr, w, replicas, ids, planned, excess, failed, v);
      var (w1, ok) := dr.kill(w, v.nodeId, v.jobId);
      var k := RunSubstitutes(dr, w, replicas, ids, planned, excess, failed);
      if v.jobId !in planned && ok {
        var g := RunSubstitutesEffect(dr, w1, Without(replicas, v.jobId), rest, planned, excess - 1, SatSub(failed, 1));
        gone := [v] + g;
        var r := RunSubstitutes(dr, w1, Without(replicas, v.jobId), Ids(rest), planned, excess - 1, SatSub(failed, 1));
        SubstitutedCons(replicas, r.replicas, r.killed, alternates, planned, excess, g);
      } else {
        gone := RunSubstitutesEffect(dr, if v.jobId in planned then w else w1, replicas, rest, planned, excess, failed);
        SubstitutedRest(replicas, k.replicas, k.killed, alternates, planned, excess, gone);
      }
    }
  }

  lemma SubstitutedNone(replicas: seq<Replica>, alternates: seq<Replica>, planned: seq<string>, excess: int)
    ensures Substituted(replicas, replicas, [], alternates, planned, excess, [])
  {
    KilledNone(replicas);
    var gone: seq<Replica> := [];
    assert IdSet(gone) == {} && Ids(gone) == [];
    assert Tracked(gone, replicas);
    assert |gone| <= Max(excess, 0);
    assert replicas == Spare(replicas, IdSet(gone));
  }

  // ---- placements ----------------------------------------------------------------------------

  /** `n` pending on-target replicas have been appended, one per returned id. */
  ghost predicate Grown(before: seq<Replica>, after: seq<Replica>, placed: seq<string>, target: string) {
    && |after| == |before| + |placed|
    && after[..|before|] == before
    && forall i :: |before| <= i < |after| ==>
         after[i].jobId == placed[i - |before|] && after[i].revision == target && after[i].phase == Pending
  }

  lemma GrownPush(before: seq<Replica>, after: seq<Replica>, placed: seq<string>, target: string, r: Replica)
    requires Grown(before, after, placed, target) && r.revision == target && r.phase == Pending
    ensures Grown(before, after + [r], placed + [r.jobId], target)
  {
    assert (after + [r])[..|before|] == after[..|before|];
    assert forall k :: 0 <= k < |after| ==> (after + [r])[k] == after[k];
  }

  lemma GrownOne<S>(dr: MeshDriver<S>, d: Deployment, target: string, before: seq<Replica>, p: Placing<S>)
    requires p.left > 0 && p.candidates != [] && Grown(before, p.replicas, p.placed, target)
    ensures var q := PlaceOne(dr, d, target, p);
            Grown(before, q.replicas, q.placed, target) && |q.placed| + q.left == |p.placed| + p.left
  {
    var node := p.candidates[0].nodeId;
    var res := dr.deploy(p.world, node, d).1;
    if res.Some? { GrownPush(before, p.replicas, p.placed, target, Replica(res.value, node, target, Pending)); }
    hide Charge, Drop, Grown;
  }

  lemma {:induction false} PlaceLoopGrows<S>(dr: MeshDriver<S>, d: Deployment, target: string, before: seq<Replica>,
                                            p: Placing<S>, limit: nat)
    requires Grown(before, p.replicas, p.placed, target)
    ensures var q := PlaceLoop(dr, d, target, p, limit);
            Grown(before, q.replicas, q.placed, target) && |q.placed| + q.left == |p.placed| + p.left
    decreases limit - p.attempts
  {
    hide Charge, Drop, Grown;
    if p.left > 0 && p.attempts < limit && p.candidates != [] {
      GrownOne(dr, d, target, before, p);
      PlaceLoopGrows(dr, d, target, before, PlaceOne(dr, d, target, p), limit);
    }
  }

  lemma {:induction false} GrownTally(before: seq<Replica>, after: seq<Replica>, placed: seq<string>, target: string)
    requires Grown(before, after, placed, target)
    ensures TallyOf(after, target) == TallyOf(before, target).Plus(Tally(|placed|, 0, 0, 0, 0))
  {
    var added := after[|before|..];
    assert after == before + added;
    forall r | r in added ensures KindOf(r, target) == NewPending {
      var i :| 0 <= i < |added| && added[i] == r;
      assert after[|before| + i] == r;
    }
    AllOfKind(added, target, NewPending);
    hide Count;
    hide KindOf;
    TallyAppend(before, added, target);
  }

  lemma PlaceStageGrows<S>(dr: MeshDriver<S>, w: S, d: Deployment, target: string, maxStale: nat,
                           replicas: seq<Replica>, want: nat, gate: Gate)
    ensures var p := PlaceStage(dr, w, d, target, maxStale, replicas, want, gate).1;
            && Grown(replicas, p.replicas, p.placed, target)
            && |p.placed| + p.left == want
            && (gate.Waiting? ==> p.placed == [])
  {
    hide Rank;
    if want > 0 && gate.Ready? {
      var (w1, candidates) := RankedHosts(dr, w, d, maxStale);
      PlaceLoopGrows(dr, d, target, replicas, Placing(w1, replicas, candidates, [], want, 0, 0), MaxAttempts(want, |candidates|));
    }
  }

  // ---- the whole tick --------------------------------------------------------------------------

  /** What a tick removed and added, as five-way counts. */
  datatype Books = Books(planned: Tally, substituted: Tally, placed: nat)

  /** The relation between the fleet after refresh and the fleet after the tick. */
  ghost predicate Balanced(strategy: Strategy, desired: U32, before: Tally, after: Tally, b: Books, allKilled: bool) {
    var want := VictimCount(strategy, desired, before);
    && b.planned.AtMost(want)
    && b.substituted.op == 0 && b.substituted.orun == 0 && b.substituted.dead == 0
    && b.substituted.Size() <= Max(0, before.NewLive() - b.planned.NewLive() - desired)
    && (allKilled ==> b.planned == want && b.substituted.Size() == 0)
    && b.placed <= ToPlace(strategy, desired, before)
    && after.Plus(b.planned).Plus(b.substituted) == before.Plus(Tally(b.placed, 0, 0, 0, 0))
  }

  lemma OnlyOnTargetTally(s: seq<Replica>, target: string)
    requires forall r :: r in s ==> KindOf(r, target) in NewKinds()
    ensures var t := TallyOf(s, target); t.op == 0 && t.orun == 0 && t.dead == 0 && t.Size() == |s|
  {
    OnTargetOnly(s, target);
    TallySize(s, target);
  }

  /** What a substitute stage may have removed from `before`. */
  ghost predicate Replaced(before: seq<Replica>, after: seq<Replica>, killed: seq<string>, planned: seq<string>, room: nat,
                           target: string, gone: seq<Replica>)
  {
    && after == Spare(before, IdSet(gone)) && killed == Ids(gone)
    && Tracked(gone, before)
    && (forall v :: v in gone ==> KindOf(v, target) in NewKinds() && v.jobId !in planned)
    && |gone| <= room
  }

  lemma ReplacedNone(before: seq<Replica>, planned: seq<string>, room: nat, target: string)
    ensures Replaced(before, before, [], planned, room, target, [])
  {
    KilledNone(before);
    hide Spare, IdSet, Ids, KindOf;
  }

  lemma OnTargetCount(replicas: seq<Replica>, target: string)
    ensures |Pick(replicas, target, NewKinds())| == TallyOf(replicas, target).NewLive()
  {
    var alternates := Pick(replicas, target, NewKinds());
    TallyPick(replicas, target, NewKinds());
    TallySize(alternates, target);
    hide Count, KindOf, Pick;
  }

  /** The substitute stage over the fleet the planned kills left behind. */
  lemma SubstituteTally<S>(dr: MeshDriver<S>, k: Kills<S>, planned: seq<string>, desired: U32, target: string)
    returns (gone: seq<Replica>)
    requires Unique(k.replicas)
    ensures var s := Substitute(dr, k, planned, desired, target);
            && s.replicas == Spare(k.replicas, IdSet(gone)) && s.killed == Ids(gone)
    ensures Tracked(gone, k.replicas)
    ensures forall v :: v in gone ==> KindOf(v, target) in NewKinds() && v.jobId !in planned
    ensures |gone| <= Max(0, TallyOf(k.replicas, target).NewLive() - desired)
    ensures k.failed == 0 ==> gone == []
  {
    var room := Max(0, TallyOf(k.replicas, target).NewLive() - desired);
    if k.failed == 0 {
      gone := [];
      ReplacedNone(k.replicas, planned, room, target);
    } else {
      gone := SubstituteSome(dr, k, planned, desired, target);
    }
    ghost var s := Substitute(dr, k, planned, desired, target);
    hide Count, KindOf, Pick, TallyOf, Spare, IdSet, Ids, Unique, Tracked, RunSubstitutes, NewKinds;
    assert Replaced(k.replicas, s.replicas, s.killed, planned, room, target, gone);
  }

  lemma SubstituteSome<S>(dr: MeshDriver<S>, k: Kills<S>, planned: seq<string>, desired: U32, target: string)
    returns (gone: seq<Replica>)
    requires Unique(k.replicas) && k.failed > 0
    ensures var s := Substitute(dr, k, planned, desired, target);
            Replaced(k.replicas, s.replicas, s.killed, planned, Max(0, TallyOf(k.replicas, target).NewLive() - desired), target, gone)
  {
    var alternates := Pick(k.replicas, target, NewKinds());
    TrackedPick(k.replicas, target, NewKinds());
    gone := RunSubstitutesEffect(dr, k.world, k.replicas, alternates, planned, |alternates| - desired, k.failed);
    OnTargetCount(k.replicas, target);
    hide Count, KindOf, Pick, TallyOf, Spare, IdSet, Ids, Unique, Tracked, RunSubstitutes, NewKinds;
  }

  /** The stages of a tick, with `w2` the world the kills start in. */
  lemma TickStages<S>(dr: MeshDriver<S>, cfg: Config, w: S, h: Health, d: Deployment, target: string) returns (w2: S)
    ensures var t := TickOf(dr, cfg, w, h, d, target);
            && t.step == PlanStep(d.strategy, d.replicas, t.refreshed.replicas, target)
            && t.kills == RunKills(dr, w2, t.refreshed.replicas, t.step.toKill)
            && t.substitutes == Substitute(dr, t.kills, t.step.toKill, d.replicas, target)
            && t.placing == PlaceStage(dr, t.substitutes.world, d, target, cfg.maxStaleSecs, t.substitutes.replicas, t.step.toPlace, t.gate).1
            && t.candidates == PlaceStage(dr, t.substitutes.world, d, target, cfg.maxStaleSecs, t.substitutes.replicas, t.step.toPlace, t.gate).0
            && (t.world, t.advertised) == Advertise(dr, t.placing.world, d, t.placing.replicas, t.gate)
  {
    hide ObserveAll, ObserveDeps, Refresh, PlanStep, RunKills, Substitute, PlaceStage, Advertise, GateOf;
    w2 := ObserveDeps(dr, ObserveAll(dr, w, h.replicas, d.liveness).0, d.namespace, d.dependsOn, map[]).0;
  }

  lemma PlannedIds(strategy: Strategy, desired: U32, r: seq<Replica>, target: string)
    ensures PlanStep(strategy, desired, r, target).toKill == Ids(Victims(strategy, desired, r, target))
    ensures PlanStep(strategy, desired, r, target).toPlace == ToPlace(strategy, desired, TallyOf(r, target))
    ensures PlanStep(strategy, desired, r, target).done == Converged(desired, TallyOf(r, target))
  {
    hide Victims, TallyOf, ToPlace;
  }

  lemma PlannedBooks<S>(dr: MeshDriver<S>, w2: S, r: seq<Replica>, d: Deployment, target: string)
    returns (planned: Tally, spared: Tally)
    requires Unique(r)
    ensures var k := RunKills(dr, w2, r, PlanStep(d.strategy, d.replicas, r, target).toKill);
            && Unique(k.replicas)
            && TallyOf(k.replicas, target).Plus(planned) == TallyOf(r, target)
            && planned.Plus(spared) == VictimCount(d.strategy, d.replicas, TallyOf(r, target))
            && |k.killed| == planned.Size() && k.failed == spared.Size()
  {
    var victims := Victims(d.strategy, d.replicas, r, target);
    VictimsTracked(d.strategy, d.replicas, r, target);
    VictimsTally(d.strategy, d.replicas, r, target);
    PlannedIds(d.strategy, d.replicas, r, target);
    hide Count, KindOf, Victims, RunKills, Spare, PlanStep, IdSet, VictimCount, TallyOf, Tally.Plus;
    var gone, left := RunKillsEffect(dr, w2, r, victims, target);
    SpareTally(r, gone, target);
    SpareMembers(r, IdSet(gone));
    TallySize(gone, target);
    TallySize(left, target);
    planned, spared := TallyOf(gone, target), TallyOf(left, target);
  }

  lemma SubstituteBooks<S>(dr: MeshDriver<S>, k: Kills<S>, planned: seq<string>, desired: U32, target: string)
    returns (substituted: Tally)
    requires Unique(k.replicas)
    ensures var s := Substitute(dr, k, planned, desired, target);
            && TallyOf(s.replicas, target).Plus(substituted) == TallyOf(k.replicas, target)
            && substituted.op == 0 && substituted.orun == 0 && substituted.dead == 0
            && substituted.Size() <= Max(0, TallyOf(k.replicas, target).NewLive() - desired)
            && (k.failed == 0 ==> substituted.Size() == 0)
            && |s.killed| == substituted.Size()
  {
    hide Count, KindOf, RunSubstitutes, Spare, Substitute, IdSet, TallyOf, Tally.Plus;
    var subs := SubstituteTally(dr, k, planned, desired, target);
    SpareTally(k.replicas, subs, target);
    OnlyOnTargetTally(subs, target);
    substituted := TallyOf(subs, target);
  }

  /** The books of one tick: for every driver, strategy and fleet with unique ids. */
  lemma TickBooks<S>(dr: MeshDriver<S>, cfg: Config, w: S, h: Health, d: Deployment, target: string)
    returns (b: Books)
    requires Unique(h.replicas)
    ensures var t := TickOf(dr, cfg, w, h, d, target);
            && Balanced(d.strategy, d.replicas, TallyOf(t.refreshed.replicas, target), TallyOf(t.After().replicas, target), b, t.kills.failed == 0)
            && |t.kills.killed| == b.planned.Size() && |t.substitutes.killed| == b.substituted.Size()
            && |t.Placed()| == b.placed
            && (t.gate.Waiting? ==> b.placed == 0)
  {
    var t := TickOf(dr, cfg, w, h, d, target);
    RefreshSameFleet(dr, cfg, w, h, d, target);
    var w2 := TickStages(dr, cfg, w, h, d, target);
    hide TickOf, TallyOf, PlaceStage, RunKills, Substitute, Victims, VictimCount, PlanStep;
    var r := t.refreshed.replicas;
    PlannedIds(d.strategy, d.replicas, r, target);
    var planned, spared := PlannedBooks(dr, w2, r, d, target);
    var substituted := SubstituteBooks(dr, t.kills, t.step.toKill, d.replicas, target);
    PlaceStageGrows(dr, t.substitutes.world, d, target, cfg.maxStaleSecs, t.substitutes.replicas, t.step.toPlace, t.gate);
    GrownTally(t.substitutes.replicas, t.placing.replicas, t.placing.placed, target);
    b := Books(planned, substituted, |t.placing.placed|);
    BooksBalance(d.strategy, d.replicas, TallyOf(r, target), spared, TallyOf(t.kills.replicas, target),
                 TallyOf(t.substitutes.replicas, target), TallyOf(t.placing.replicas, target), b, t.kills.failed == 0);
  }

  /** The arithmetic behind `TickBooks`, free of sequences. */
  lemma BooksBalance(strategy: Strategy, desired: U32, r: Tally, spared: Tally, k: Tally, s: Tally, p: Tally, b: Books, allKilled: bool)
    requires k.Plus(b.planned) == r && s.Plus(b.substituted) == k && p == s.Plus(Tally(b.placed, 0, 0, 0, 0))
    requires b.planned.Plus(spared) == VictimCount(strategy, desired, r)
    requires b.substituted.op == 0 && b.substituted.orun == 0 && b.substituted.dead == 0
    requires b.substituted.Size() <= Max(0, k.NewLive() - desired)
    requires allKilled ==> spared.Size() == 0 && b.substituted.Size() == 0
    requires b.placed <= ToPlace(strategy, desired, r)
    ensures Balanced(strategy, desired, r, p, b, allKilled)
  {
    hide VictimCount, ToPlace;
  }

  // ---- the kill report ---------------------------------------------------------------------------

  lemma {:induction false} SubstituteFailures<S>(dr: MeshDriver<S>, w: S, replicas: seq<Replica>, alternates: seq<string>,
                                                planned: seq<string>, excess: int, failed: nat)
    ensures var k := RunSubstitutes(dr, w, replicas, alternates, planned, excess, failed);
            k.failed == Max(0, failed - |k.killed|)
    decreases |alternates|
  {
    if alternates != [] && excess > 0 {
      var id, rest := alternates[0], alternates[1..];
      if id in planned || Find(replicas, id).None? {
        SubstituteFailures(dr, w, replicas, rest, planned, excess, failed);
      } else {
        var (w1, ok) := dr.kill(w, Find(replicas, id).value.nodeId, id);
        if ok {
          SubstituteFailures(dr, w1, Without(replicas, id), rest, planned, excess - 1, SatSub(failed, 1));
        } else {
          SubstituteFailures(dr, w1, replicas, rest, planned, excess, failed);
        }
      }
    }
  }

  /** A tick reports as kill failures the planned kills that no kill of any sort made up for. */
  lemma KillReport<S>(dr: MeshDriver<S>, cfg: Config, w: S, h: Health, d: Deployment, target: string)
    requires Unique(h.replicas)
    ensures var t := TickOf(dr, cfg, w, h, d, target);
            t.Report().killFailures == Max(0, |t.step.toKill| - |t.Report().killed|)
  {
    hide TickOf, TallyOf, PlaceStage, Advertise, RunKills, Victims, VictimCount, PlanStep, RunSubstitutes, Pick, Unique, Tally.Plus;
    var t := TickOf(dr, cfg, w, h, d, target);
    RefreshSameFleet(dr, cfg, w, h, d, target);
    var w2 := TickStages(dr, cfg, w, h, d, target);
    var r := t.refreshed.replicas;
    PlannedIds(d.strategy, d.replicas, r, target);
    VictimsTally(d.strategy, d.replicas, r, target);
    TallySize(Victims(d.strategy, d.replicas, r, target), target);
    var planned, spared := PlannedBooks(dr, w2, r, d, target);
    SizePlus(planned, spared);
    if t.kills.failed > 0 {
      var p := Pick(t.kills.replicas, target, NewKinds());
      SubstituteFailures(dr, t.kills.world, t.kills.replicas, Ids(p), t.step.toKill, |p| - d.replicas, t.kills.failed);
    }
  }

  lemma SizePlus(a: Tally, b: Tally)
    ensures a.Plus(b).Size() == a.Size() + b.Size()
  {
  }
}
