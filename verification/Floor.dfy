/** The availability floor at the level of a tick, exactly: substitute kills can break it, and this
    is when. */
module FloorLaw {
  import opened Text
  import opened Deployments
  import opened Replicas
  import opened Rollout
  import opened Planner
  import opened Deps
  import opened Driver
  import opened Ticking
  import opened Accounts
  import opened HealthLaw

  /** Not over-provisioned, or nothing ready on target, or no floor, or few enough still starting. */
  predicate FloorSafe(maxUnavailable: U32, desired: U32, t: Tally) {
    t.NewLive() <= desired || t.nr == 0 || desired <= maxUnavailable || t.np <= maxUnavailable
  }

  ghost predicate KeepsFloor<S>(dr: MeshDriver<S>, cfg: Config, w: S, h: Health, d: Deployment, target: string)
    requires d.strategy.RollingUpdate?
  {
    var t := TickOf(dr, cfg, w, h, d, target);
    TallyOf(t.After().replicas, target).Running()
    >= Min(TallyOf(t.refreshed.replicas, target).Running(), Floor(d.replicas, d.strategy.maxUnavailable))
  }

  lemma SafeArithmetic(mu: U32, ms: U32, desired: U32, before: Tally, after: Tally, b: Books, allKilled: bool)
    requires Balanced(RollingUpdate(mu, ms), desired, before, after, b, allKilled) && FloorSafe(mu, desired, before)
    ensures after.Running() >= Min(before.Running(), Floor(desired, mu))
  {
  }

  /** When what it refreshed is safe, a rolling tick keeps the floor under any driver. */
  lemma SafeKeepsFloor<S>(dr: MeshDriver<S>, cfg: Config, w: S, h: Health, d: Deployment, target: string)
    requires Unique(h.replicas) && d.strategy.RollingUpdate?
    requires FloorSafe(d.strategy.maxUnavailable, d.replicas, TallyOf(TickOf(dr, cfg, w, h, d, target).refreshed.replicas, target))
    ensures KeepsFloor(dr, cfg, w, h, d, target)
  {
    hide TickOf, TallyOf, Balanced, FloorSafe;
    var t := TickOf(dr, cfg, w, h, d, target);
    var b := TickBooks(dr, cfg, w, h, d, target);
    SafeArithmetic(d.strategy.maxUnavailable, d.strategy.maxSurge, d.replicas, TallyOf(t.refreshed.replicas, target),
                   TallyOf(t.After().replicas, target), b, t.kills.failed == 0);
  }

  // ---- the driver that breaks it ------------------------------------------------------------------

  function KnownPhase(replicas: seq<Replica>, id: string): Option<Phase> {
    match Find(replicas, id)
    case Some(r) => Some(r.phase)
    case None => None
  }

  /** Reports every replica as it is, deploys nothing, and kills all but the ids in `stuck`. */
  function Stubborn(replicas: seq<Replica>, stuck: set<string>): MeshDriver<()> {
    MeshDriver(
      (w: ()) => 0,
      (w: ()) => (w, None),
      (w: (), node: string, id: string, probe: Option<Probe>) => (w, KnownPhase(replicas, id)),
      (w: (), node: string, id: string) => (w, id !in stuck),
      (w: (), node: string, d: Deployment) => (w, None),
      (w: (), service: string) => (w, true),
      (w: (), service: string) => (w, Some(Absent)))
  }

  lemma {:induction false} StubbornObserves(all: seq<Replica>, stuck: set<string>, replicas: seq<Replica>, probe: Option<Probe>)
    ensures var obs := ObserveAll(Stubborn(all, stuck), (), replicas, probe).1;
            forall i :: 0 <= i < |replicas| ==> obs[i] == KnownPhase(all, replicas[i].jobId)
    decreases |replicas|
  {
    if replicas != [] { StubbornObserves(all, stuck, replicas[1..], probe); }
  }

  lemma StubbornRefreshes(replicas: seq<Replica>, stuck: set<string>, cfg: Config, d: Deployment, target: string)
    requires Unique(replicas)
    ensures TickOf(Stubborn(replicas, stuck), cfg, (), Health(replicas, map[]), d, target).refreshed.replicas == replicas
  {
    var dr, h := Stubborn(replicas, stuck), Health(replicas, map[]);
    var obs := ObserveAll(dr, (), replicas, d.liveness).1;
    StubbornObserves(replicas, stuck, replicas, d.liveness);
    RefreshSameFleet(dr, cfg, (), h, d, target);
    hide ObserveAll, ObserveDeps, PlanStep, RunKills, Substitute, PlaceStage, Advertise, GateOf, Refresh, Stubborn, Find, Unique;
    var t := TickOf(dr, cfg, (), h, d, target);
    forall i: nat | i < |replicas| ensures t.refreshed.replicas[i] == replicas[i] {
      FindUnique(replicas, replicas[i]);
      RefreshAt(h, obs, cfg.failureThreshold, i);
    }
  }

  lemma {:induction false} StubbornKills(all: seq<Replica>, stuck: set<string>, replicas: seq<Replica>, ids: seq<string>)
    ensures var k := RunKills(Stubborn(all, stuck), (), replicas, ids);
            && (forall r :: r in k.replicas ==> r.jobId in ids ==> r.jobId in stuck)
            && (forall r :: r in k.replicas ==> r in replicas)
            && (forall id :: id in k.killed ==> id !in stuck)
    decreases |ids|
  {
    if ids != [] {
      match Find(replicas, ids[0]) {
        case None => StubbornKills(all, stuck, replicas, ids[1..]);
        case Some(_) =>
          StubbornKills(all, stuck, if ids[0] in stuck then replicas else Without(replicas, ids[0]), ids[1..]);
      }
    }
  }

  /** How many of the alternates would take a substitute kill. */
  function Willing(alternates: seq<Replica>, planned: seq<string>, stuck: set<string>): nat {
    if alternates == [] then 0 else
      Willing(alternates[1..], planned, stuck)
      + (if alternates[0].jobId !in planned && alternates[0].jobId !in stuck then 1 else 0)
  }

  lemma {:induction false} StubbornSubstitutes(all: seq<Replica>, stuck: set<string>, replicas: seq<Replica>, alternates: seq<Replica>,
                                               planned: seq<string>, excess: int, failed: nat)
    requires Unique(replicas) && Tracked(alternates, replicas)
    ensures var k := RunSubstitutes(Stubborn(all, stuck), (), replicas, Ids(alternates), planned, excess, failed);
            && |k.killed| == Min(Max(excess, 0), Willing(alternates, planned, stuck))
            && (forall id :: id in k.killed ==> id !in stuck)
    decreases |alternates|
  {
    var dr := Stubborn(all, stuck);
    if alternates == [] || excess <= 0 {
      NoSubstitutes(dr, (), replicas, Ids(alternates), planned, excess, failed);
    } else {
      var v, rest := alternates[0], alternates[1..];
      TrackedRest(alternates, replicas);
      SubstituteTurn(dr, (), replicas, Ids(alternates), planned, excess, failed, v);
      hide RunSubstitutes, Find, Without, Unique, Tracked, Ids;
      if v.jobId in planned || v.jobId in stuck {
        StubbornSubstitutes(all, stuck, replicas, rest, planned, excess, failed);
      } else {
        StubbornSubstitutes(all, stuck, Without(replicas, v.jobId), rest, planned, excess - 1, SatSub(failed, 1));
      }
    }
  }

  /** The ids of the on-target replicas still starting. */
  function Starting(replicas: seq<Replica>, target: string): set<string> {
    IdSet(Pick(replicas, target, {NewPending}))
  }

  lemma StartingMeans(replicas: seq<Replica>, target: string, r: Replica)
    requires Unique(replicas) && r in replicas
    ensures r.jobId in Starting(replicas, target) <==> KindOf(r, target).NewPending?
  {
    var p := Pick(replicas, target, {NewPending});
    if r.jobId in IdSet(p) {
      var q :| q in p && q.jobId == r.jobId;
      SameIdSame(replicas, q, r);
    }
    hide Unique, KindOf;
  }

  /** Killing every victim that is not a starting on-target replica. */
  lemma PlannedStubborn(strategy: Strategy, desired: U32, replicas: seq<Replica>, target: string)
    returns (gone: seq<Replica>, spared: seq<Replica>)
    requires Unique(replicas)
    ensures var want := VictimCount(strategy, desired, TallyOf(replicas, target));
            var ids := Ids(Victims(strategy, desired, replicas, target));
            var k := RunKills(Stubborn(replicas, Starting(replicas, target)), (), replicas, ids);
            && Unique(k.replicas) && (forall r :: r in k.replicas ==> r in replicas)
            && TallyOf(k.replicas, target).Plus(TallyOf(gone, target)) == TallyOf(replicas, target)
            && TallyOf(gone, target).Plus(TallyOf(spared, target)) == want
            && k.failed == |spared|
            && (forall r :: r in gone ==> !KindOf(r, target).NewPending?)
            && (forall r :: r in spared ==> KindOf(r, target).NewPending?)
            && (forall r :: r in k.replicas && r.jobId in ids ==> KindOf(r, target).NewPending?)
  {
    var victims := Victims(strategy, desired, replicas, target);
    var stuck := Starting(replicas, target);
    var dr := Stubborn(replicas, stuck);
    VictimsTracked(strategy, desired, replicas, target);
    VictimsTally(strategy, desired, replicas, target);
    hide Count, KindOf, Victims, RunKills, Spare, IdSet, VictimCount, TallyOf, Tally.Plus, Stubborn, Starting, Unique, Ids;
    gone, spared := RunKillsEffect(dr, (), replicas, victims, target);
    SpareTally(replicas, gone, target);
    SpareMembers(replicas, IdSet(gone));
    StubbornKills(replicas, stuck, replicas, Ids(victims));
    var k := RunKills(dr, (), replicas, Ids(victims));
    forall r | r in replicas { StartingMeans(replicas, target, r); }
    forall r | r in gone ensures !KindOf(r, target).NewPending? { IdListed(gone, r); }
    forall r | r in spared ensures KindOf(r, target).NewPending? { IdListed(victims, r); }
  }

  lemma IdListed(s: seq<Replica>, r: Replica)
    requires r in s
    ensures r.jobId in Ids(s)
  {
    var i :| 0 <= i < |s| && s[i] == r;
    assert Ids(s)[i] == r.jobId;
  }

  /** Everyone ready on target and not planned takes a substitute kill, nobody else does. */
  lemma {:induction false} WillingCount(alternates: seq<Replica>, planned: seq<string>, stuck: set<string>, target: string)
    requires forall a :: a in alternates ==> (KindOf(a, target).NewRunning? <==> a.jobId !in planned && a.jobId !in stuck)
    ensures Willing(alternates, planned, stuck) == Count(alternates, target, NewRunning)
  {
    hide KindOf;
    if alternates != [] {
      assert alternates[0] in alternates;
      WillingCount(alternates[1..], planned, stuck, target);
    }
  }

  lemma AllRunningTally(s: seq<Replica>, target: string)
    requires forall r :: r in s ==> KindOf(r, target).NewRunning?
    ensures TallyOf(s, target) == Tally(0, |s|, 0, 0, 0)
  {
    AllOfKind(s, target, NewRunning);
    hide Count, KindOf;
  }

  /** All that an alternate has to be to take a substitute kill. */
  ghost predicate Forced(replicas: seq<Replica>, planned: seq<string>, stuck: set<string>, target: string) {
    forall r :: r in replicas ==>
      (KindOf(r, target).NewPending? <==> r.jobId in stuck) && (KindOf(r, target).NewRunning? ==> r.jobId !in planned)
  }

  lemma WillingAlternates(replicas: seq<Replica>, planned: seq<string>, stuck: set<string>, target: string)
    requires Forced(replicas, planned, stuck, target)
    ensures Willing(Pick(replicas, target, NewKinds()), planned, stuck) == TallyOf(replicas, target).nr
    ensures forall a :: a in Pick(replicas, target, NewKinds()) ==> (KindOf(a, target).NewRunning? <==> a.jobId !in stuck)
  {
    hide Count, Pick, Willing;
    var alternates := Pick(replicas, target, NewKinds());
    forall a | a in alternates
      ensures KindOf(a, target).NewRunning? <==> a.jobId !in planned && a.jobId !in stuck
      ensures KindOf(a, target).NewRunning? <==> a.jobId !in stuck
    {
      KindsOf(a, target);
    }
    WillingCount(alternates, planned, stuck, target);
    TallyPick(replicas, target, NewKinds());
  }

  lemma StubbornGone(all: seq<Replica>, stuck: set<string>, target: string, k: Kills<()>, planned: seq<string>, desired: U32)
    returns (gone: seq<Replica>)
    requires Unique(k.replicas) && k.failed > 0 && Forced(k.replicas, planned, stuck, target)
    ensures var t := TallyOf(k.replicas, target);
            && Tracked(gone, k.replicas) && |gone| == Min(Max(t.NewLive() - desired, 0), t.nr)
            && (forall r :: r in gone ==> KindOf(r, target).NewRunning?)
            && Substitute(Stubborn(all, stuck), k, planned, desired, target).replicas == Spare(k.replicas, IdSet(gone))
  {
    var dr := Stubborn(all, stuck);
    var alternates := Pick(k.replicas, target, NewKinds());
    TrackedPick(k.replicas, target, NewKinds());
    OnTargetCount(k.replicas, target);
    WillingAlternates(k.replicas, planned, stuck, target);
    hide TallyOf, KindOf, Pick, RunSubstitutes, Spare, IdSet, Stubborn, Unique, Ids, Tracked, Willing, Forced, NewKinds, Tally.NewLive;
    assert k.world == ();
    gone := RunSubstitutesEffect(dr, k.world, k.replicas, alternates, planned, |alternates| - desired, k.failed);
    StubbornSubstitutes(all, stuck, k.replicas, alternates, planned, |alternates| - desired, k.failed);
    forall r | r in gone ensures KindOf(r, target).NewRunning? { IdListed(gone, r); }
  }

  /** The substitute stage then takes ready on-target replicas, as many as the excess still asks for. */
  lemma SubstituteStubborn(all: seq<Replica>, stuck: set<string>, target: string, k: Kills<()>, planned: seq<string>, desired: U32)
    requires Unique(k.replicas) && k.failed > 0 && Forced(k.replicas, planned, stuck, target)
    ensures var s := Substitute(Stubborn(all, stuck), k, planned, desired, target);
            var t := TallyOf(k.replicas, target);
            TallyOf(s.replicas, target).Plus(Tally(0, Min(Max(t.NewLive() - desired, 0), t.nr), 0, 0, 0)) == t
  {
    hide TallyOf, KindOf, Substitute, Spare, IdSet, Stubborn, Unique, Tracked, Forced, Tally.NewLive, Tally.Plus;
    var gone := StubbornGone(all, stuck, target, k, planned, desired);
    SpareTally(k.replicas, gone, target);
    AllRunningTally(gone, target);
  }

  /** The arithmetic of the worst case: every starting victim survives, so ready ones go instead. */
  lemma WorstArithmetic(mu: U32, ms: U32, desired: U32, before: Tally, gone: Tally, spared: Tally, k: Tally, s: Tally)
    requires k.Plus(gone) == before && gone.Plus(spared) == VictimCount(RollingUpdate(mu, ms), desired, before)
    requires gone.np == 0 && spared == Tally(spared.np, 0, 0, 0, 0)
    requires if spared.np == 0 then s == k else s.Plus(Tally(0, Min(Max(k.NewLive() - desired, 0), k.nr), 0, 0, 0)) == k
    requires !FloorSafe(mu, desired, before)
    ensures s.Running() < Min(before.Running(), Floor(desired, mu))
  {
  }

  lemma GrownRunning(before: seq<Replica>, after: seq<Replica>, placed: seq<string>, target: string)
    requires Grown(before, after, placed, target)
    ensures TallyOf(after, target).Running() == TallyOf(before, target).Running()
  {
    GrownTally(before, after, placed, target);
    hide Count;
  }

  lemma AllStarting(s: seq<Replica>, target: string)
    requires forall r :: r in s ==> KindOf(r, target).NewPending?
    ensures TallyOf(s, target) == Tally(|s|, 0, 0, 0, 0)
  {
    AllOfKind(s, target, NewPending);
    hide Count, KindOf;
  }

  lemma NoneStarting(s: seq<Replica>, target: string)
    requires forall r :: r in s ==> !KindOf(r, target).NewPending?
    ensures TallyOf(s, target).np == 0
  {
    CountNone(s, target, NewPending);
    hide Count, KindOf;
  }

  /** Killing what the plan and then the substitute stage retire, with every starting kill failing. */
  lemma WorstRetire(mu: U32, ms: U32, desired: U32, replicas: seq<Replica>, target: string)
    requires Unique(replicas) && !FloorSafe(mu, desired, TallyOf(replicas, target))
    ensures var dr := Stubborn(replicas, Starting(replicas, target));
            var ids := Ids(Victims(RollingUpdate(mu, ms), desired, replicas, target));
            var s := Substitute(dr, RunKills(dr, (), replicas, ids), ids, desired, target);
            TallyOf(s.replicas, target).Running() < Min(TallyOf(replicas, target).Running(), Floor(desired, mu))
  {
    hide TallyOf, KindOf, RunSubstitutes, RunKills, Victims, Stubborn, Starting, Unique, Tally.Running, Tally.NewLive, Tally.Plus, FloorSafe, VictimCount;
    var stuck := Starting(replicas, target);
    var dr := Stubborn(replicas, stuck);
    var ids := Ids(Victims(RollingUpdate(mu, ms), desired, replicas, target));
    var gone, spared := PlannedStubborn(RollingUpdate(mu, ms), desired, replicas, target);
    var k := RunKills(dr, (), replicas, ids);
    NoneStarting(gone, target);
    AllStarting(spared, target);
    forall r | r in k.replicas
      ensures KindOf(r, target).NewPending? <==> r.jobId in stuck
      ensures KindOf(r, target).NewRunning? ==> r.jobId !in ids
    {
      StartingMeans(replicas, target, r);
    }
    assert Forced(k.replicas, ids, stuck, target);
    if k.failed > 0 {
      SubstituteStubborn(replicas, stuck, target, k, ids, desired);
    }
    hide Substitute, Forced;
    WorstArithmetic(mu, ms, desired, TallyOf(replicas, target), TallyOf(gone, target), TallyOf(spared, target),
                    TallyOf(k.replicas, target), TallyOf(Substitute(dr, k, ids, desired, target).replicas, target));
  }

  lemma UnsafeBreaksFloor(cfg: Config, replicas: seq<Replica>, d: Deployment, target: string)
    requires Unique(replicas) && d.strategy.RollingUpdate?
    requires !FloorSafe(d.strategy.maxUnavailable, d.replicas, TallyOf(replicas, target))
    ensures var dr := Stubborn(replicas, Starting(replicas, target));
            && TickOf(dr, cfg, (), Health(replicas, map[]), d, target).refreshed.replicas == replicas
            && !KeepsFloor(dr, cfg, (), Health(replicas, map[]), d, target)
  {
    hide TickOf, TallyOf, RunKills, Substitute, PlaceStage, Victims, Stubborn, Starting, FloorSafe, Tally.Running, Unique, PlanStep, Grown;
    var dr, h := Stubborn(replicas, Starting(replicas, target)), Health(replicas, map[]);
    var t := TickOf(dr, cfg, (), h, d, target);
    StubbornRefreshes(replicas, Starting(replicas, target), cfg, d, target);
    var w2 := TickStages(dr, cfg, (), h, d, target);
    assert w2 == ();
    PlannedIds(d.strategy, d.replicas, replicas, target);
    WorstRetire(d.strategy.maxUnavailable, d.strategy.maxSurge, d.replicas, replicas, target);
    PlaceStageGrows(dr, t.substitutes.world, d, target, cfg.maxStaleSecs, t.substitutes.replicas, t.step.toPlace, t.gate);
    GrownRunning(t.substitutes.replicas, t.placing.replicas, t.placing.placed, target);
  }

  /** A rolling tick over these replicas keeps the floor whatever the driver does if and only if the
      fleet is safe: otherwise failing kills of starting replicas turn into kills of ready ones. */
  lemma FloorExactly(cfg: Config, replicas: seq<Replica>, d: Deployment, target: string)
    requires Unique(replicas) && d.strategy.RollingUpdate?
    ensures (forall dr: MeshDriver<()> :: TickOf(dr, cfg, (), Health(replicas, map[]), d, target).refreshed.replicas == replicas ==>
               KeepsFloor(dr, cfg, (), Health(replicas, map[]), d, target))
       <==> FloorSafe(d.strategy.maxUnavailable, d.replicas, TallyOf(replicas, target))
  {
    hide TickOf, TallyOf, FloorSafe, KeepsFloor, Unique;
    var h := Health(replicas, map[]);
    if FloorSafe(d.strategy.maxUnavailable, d.replicas, TallyOf(replicas, target)) {
      forall dr: MeshDriver<()> | TickOf(dr, cfg, (), h, d, target).refreshed.replicas == replicas
        ensures KeepsFloor(dr, cfg, (), h, d, target)
      {
        SafeKeepsFloor(dr, cfg, (), h, d, target);
      }
    } else {
      UnsafeBreaksFloor(cfg, replicas, d, target);
    }
  }
}
