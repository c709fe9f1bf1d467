/** When substitute kills happen at all: the exact condition, over every driver. */
module SubstituteLaw {
  import opened Deployments
  import opened Replicas
  import opened Rollout
  import opened Planner
  import opened Driver
  import opened Ticking
  import opened Accounts
  import opened Safety
  import opened FloorLaw

  /** More on target than desired, and not all of them planned for killing: either some are to stay,
      or Recreate plans none while it drains old replicas. */
  predicate CanSubstitute(strategy: Strategy, desired: U32, t: Tally) {
    t.NewLive() > desired && (desired > 0 || (strategy.Recreate? && t.OldLive() > 0))
  }

  lemma SpareOnTarget(strategy: Strategy, desired: U32, t: Tally)
    ensures CanSubstitute(strategy, desired, t)
       <==> t.NewLive() > desired && VictimCount(strategy, desired, t).NewLive() < t.NewLive()
    ensures CanSubstitute(strategy, desired, t) ==> VictimCount(strategy, desired, t).Size() > 0
  {
  }

  lemma OneOnTarget(s: seq<Replica>, target: string, r: Replica)
    requires r in s && r.phase.IsAlive() && r.revision == target
    ensures TallyOf(s, target).NewLive() > 0
  {
    hide Pick, TallyOf, KindOf, Tally.NewLive;
    KindsOf(r, target);
    OnTargetCount(s, target);
    assert r in Pick(s, target, NewKinds());
  }

  /** Under any driver, a tick that substitutes met the condition. */
  lemma SubstitutesNeed<S>(dr: MeshDriver<S>, cfg: Config, w: S, h: Health, d: Deployment, target: string)
    requires Unique(h.replicas) && TickOf(dr, cfg, w, h, d, target).substitutes.killed != []
    ensures CanSubstitute(d.strategy, d.replicas, TallyOf(TickOf(dr, cfg, w, h, d, target).refreshed.replicas, target))
  {
    hide TickOf, TallyOf, PlanStep, Substitute, RunKills, PlaceStage, Advertise, KindOf, Unique, Victims, VictimCount, CanSubstitute;
    hide Spare, IdSet, Tally.NewLive, Tally.Plus, Ids;
    var t := TickOf(dr, cfg, w, h, d, target);
    var r := t.refreshed.replicas;
    var w2 := TickStages(dr, cfg, w, h, d, target);
    RefreshSameFleet(dr, cfg, w, h, d, target);
    PlannedIds(d.strategy, d.replicas, r, target);
    var victims := Victims(d.strategy, d.replicas, r, target);
    VictimsTracked(d.strategy, d.replicas, r, target);
    VictimsTally(d.strategy, d.replicas, r, target);
    var planned, spared := PlannedBooks(dr, w2, r, d, target);
    SubstitutesNeedExcess(dr, t.kills, t.step.toKill, d.replicas, target);
    SubstituteVictims(dr, t.kills, t.step.toKill, d.replicas, target, t.substitutes.killed[0]);
    var v :| v in t.kills.replicas && v.jobId == t.substitutes.killed[0] && v.phase.IsAlive() && v.revision == target;
    RunKillsSubset(dr, w2, r, t.step.toKill);
    NotAVictim(r, victims, v);
    SpareTally(r, victims, target);
    OneOnTarget(Spare(r, IdSet(victims)), target, v);
    NeedArithmetic(d.strategy, d.replicas, TallyOf(r, target), TallyOf(Spare(r, IdSet(victims)), target),
                   TallyOf(t.kills.replicas, target), planned);
  }

  lemma NeedArithmetic(strategy: Strategy, desired: U32, r: Tally, left: Tally, k: Tally, planned: Tally)
    requires left.Plus(VictimCount(strategy, desired, r)) == r && left.NewLive() > 0
    requires k.Plus(planned) == r && k.NewLive() > desired
    ensures CanSubstitute(strategy, desired, r)
  {
    SpareOnTarget(strategy, desired, r);
    hide VictimCount, CanSubstitute;
  }

  lemma NotAVictim(replicas: seq<Replica>, victims: seq<Replica>, v: Replica)
    requires v in replicas && v.jobId !in Ids(victims)
    ensures v in Spare(replicas, IdSet(victims))
  {
    forall x | x in victims ensures x.jobId != v.jobId { IdListed(victims, x); }
    SpareMembers(replicas, IdSet(victims));
    hide Spare, Ids;
  }

  // ---- a driver that makes them happen ---------------------------------------------------------------

  lemma {:induction false} NothingKilled(all: seq<Replica>, stuck: set<string>, replicas: seq<Replica>, ids: seq<string>)
    requires forall id :: id in ids ==> id in stuck && Find(replicas, id).Some?
    ensures var k := RunKills(Stubborn(all, stuck), (), replicas, ids);
            k.replicas == replicas && k.killed == [] && k.failed == |ids|
    decreases |ids|
  {
    hide Find;
    if ids != [] {
      assert ids[0] in ids;
      NothingKilled(all, stuck, replicas, ids[1..]);
    }
  }

  lemma {:induction false} WillingSome(alternates: seq<Replica>, planned: seq<string>, stuck: set<string>, v: Replica)
    requires v in alternates && v.jobId !in planned && v.jobId !in stuck
    ensures Willing(alternates, planned, stuck) > 0
    decreases |alternates|
  {
    if alternates[0] != v {
      assert v in alternates[1..];
      WillingSome(alternates[1..], planned, stuck, v);
    }
  }

  lemma VictimsFound(victims: seq<Replica>, replicas: seq<Replica>)
    requires Unique(replicas) && Planner.Tracked(victims, replicas)
    ensures forall id :: id in Ids(victims) ==> id in IdSet(victims) && Find(replicas, id).Some?
  {
    hide Find;
    forall id | id in Ids(victims) ensures id in IdSet(victims) && Find(replicas, id).Some? {
      var i :| 0 <= i < |victims| && Ids(victims)[i] == id;
      assert victims[i] in victims;
      FindUnique(replicas, victims[i]);
    }
  }

  /** With every planned kill failing, an unplanned on-target replica beyond the desired count goes. */
  lemma StuckSubstitutes(replicas: seq<Replica>, victims: seq<Replica>, desired: U32, target: string, v: Replica)
    requires Unique(replicas) && victims != [] && TallyOf(replicas, target).NewLive() > desired
    requires v in replicas && v.phase.IsAlive() && v.revision == target && v.jobId !in IdSet(victims)
    requires Planner.Tracked(victims, replicas)
    ensures var dr := Stubborn(replicas, IdSet(victims));
            Substitute(dr, RunKills(dr, (), replicas, Ids(victims)), Ids(victims), desired, target).killed != []
  {
    hide Pick, TallyOf, KindOf, Unique, IdSet, RunSubstitutes, RunKills, Stubborn, Willing, Find, Tally.NewLive, Ids, NewKinds;
    var stuck := IdSet(victims);
    var dr := Stubborn(replicas, stuck);
    VictimsFound(victims, replicas);
    NothingKilled(replicas, stuck, replicas, Ids(victims));
    var k := RunKills(dr, (), replicas, Ids(victims));
    assert k.world == ();
    var alternates := Pick(replicas, target, NewKinds());
    TrackedPick(replicas, target, NewKinds());
    OnTargetCount(replicas, target);
    KindsOf(v, target);
    WillingSome(alternates, Ids(victims), stuck, v);
    StubbornSubstitutes(replicas, stuck, replicas, alternates, Ids(victims), |alternates| - desired, k.failed);
    hide Planner.Tracked;
  }

  lemma SubstitutesHappen(cfg: Config, replicas: seq<Replica>, d: Deployment, target: string)
    requires Unique(replicas) && CanSubstitute(d.strategy, d.replicas, TallyOf(replicas, target))
    ensures var dr := Stubborn(replicas, IdSet(Victims(d.strategy, d.replicas, replicas, target)));
            var t := TickOf(dr, cfg, (), Health(replicas, map[]), d, target);
            t.refreshed.replicas == replicas && t.substitutes.killed != []
  {
    hide TickOf, TallyOf, RunKills, Substitute, PlaceStage, Advertise, Victims, Stubborn, Unique, PlanStep, VictimCount, CanSubstitute;
    hide Spare, IdSet, Tally.NewLive, Tally.Plus, Ids, Planner.Tracked;
    var victims := Victims(d.strategy, d.replicas, replicas, target);
    var dr := Stubborn(replicas, IdSet(victims));
    StubbornRefreshes(replicas, IdSet(victims), cfg, d, target);
    var w2 := TickStages(dr, cfg, (), Health(replicas, map[]), d, target);
    assert w2 == ();
    PlannedIds(d.strategy, d.replicas, replicas, target);
    VictimsTracked(d.strategy, d.replicas, replicas, target);
    VictimsTally(d.strategy, d.replicas, replicas, target);
    SpareTally(replicas, victims, target);
    SpareOnTarget(d.strategy, d.replicas, TallyOf(replicas, target));
    TallySize(victims, target);
    LeftArithmetic(TallyOf(Spare(replicas, IdSet(victims)), target), TallyOf(victims, target), TallyOf(replicas, target));
    var v := SomeOnTarget(Spare(replicas, IdSet(victims)), target);
    SpareMembers(replicas, IdSet(victims));
    StuckSubstitutes(replicas, victims, d.replicas, target, v);
  }

  lemma LeftArithmetic(left: Tally, gone: Tally, all: Tally)
    requires left.Plus(gone) == all && gone.NewLive() < all.NewLive()
    ensures left.NewLive() > 0
  {
  }

  /** Substitute kills are possible over these replicas if and only if more are live on target than
      desired and the plan leaves one of them alone. So, against a pure scale-down reading, Recreate
      substitutes for a failed kill of an old replica whenever its target revision is in excess. */
  lemma SubstitutesExactly(cfg: Config, replicas: seq<Replica>, d: Deployment, target: string)
    requires Unique(replicas)
    ensures (exists dr: MeshDriver<()> :: var t := TickOf(dr, cfg, (), Health(replicas, map[]), d, target);
               t.refreshed.replicas == replicas && t.substitutes.killed != [])
       <==> CanSubstitute(d.strategy, d.replicas, TallyOf(replicas, target))
  {
    hide TickOf, TallyOf, CanSubstitute, Unique, Stubborn, IdSet, Victims;
    var h := Health(replicas, map[]);
    if CanSubstitute(d.strategy, d.replicas, TallyOf(replicas, target)) {
      SubstitutesHappen(cfg, replicas, d, target);
    }
    if dr: MeshDriver<()> :| var t := TickOf(dr, cfg, (), h, d, target); t.refreshed.replicas == replicas && t.substitutes.killed != [] {
      SubstitutesNeed(dr, cfg, (), h, d, target);
    }
  }
}
