/** What no tick and no run of ticks can break, whatever the driver does. */
module Safety {
  import opened Deployments
  import opened Replicas
  import opened Rollout
  import opened Planner
  import opened Driver
  import opened Ticking
  import opened Accounts
  import opened Identity
  import opened WorkLaw

  // ---- surge ceiling ---------------------------------------------------------------------------

  /** The most live replicas a strategy may add up to. */
  function Ceiling(strategy: Strategy, desired: U32): nat {
    match strategy
    case Recreate => desired
    case RollingUpdate(mu, ms) => SatAdd(desired, ms)
  }

  lemma CeilingArithmetic(strategy: Strategy, desired: U32, before: Tally, after: Tally, b: Books, allKilled: bool)
    requires Balanced(strategy, desired, before, after, b, allKilled)
    ensures after.Live() <= Max(before.Live(), Ceiling(strategy, desired))
    ensures strategy.Recreate? && b.placed > 0 ==> after.OldLive() == 0
  {
  }

  /** Even if every kill fails, a tick never lifts the live count above the surge ceiling (or above
      what it already was); under Recreate, whoever places anything leaves no old replica live. */
  lemma SurgeCeiling<S>(dr: MeshDriver<S>, cfg: Config, w: S, h: Health, d: Deployment, target: string)
    requires Unique(h.replicas)
    ensures var t := TickOf(dr, cfg, w, h, d, target);
            && TallyOf(t.After().replicas, target).Live()
               <= Max(TallyOf(t.refreshed.replicas, target).Live(), Ceiling(d.strategy, d.replicas))
            && (d.strategy.Recreate? && t.Placed() != [] ==> TallyOf(t.After().replicas, target).OldLive() == 0)
  {
    hide TickOf, TallyOf, Balanced;
    var t := TickOf(dr, cfg, w, h, d, target);
    var b := TickBooks(dr, cfg, w, h, d, target);
    CeilingArithmetic(d.strategy, d.replicas, TallyOf(t.refreshed.replicas, target), TallyOf(t.After().replicas, target), b, t.kills.failed == 0);
  }

  /** Replicas a refresh reported alive again after they had been written off. */
  function Revivals<S>(h: Health, t: Tick<S>, target: string): nat
    requires |h.replicas| == |t.refreshed.replicas|
  {
    var m := MovesOf(h.replicas, t.refreshed.replicas, target);
    m.newRevived + m.oldRevived
  }

  function TotalRevivals<S>(h: Health, ticks: seq<Tick<S>>, target: string): nat
    decreases |ticks|
  {
    if ticks == [] then 0
    else if |h.replicas| != |ticks[0].refreshed.replicas| then 0
    else Revivals(h, ticks[0], target) + TotalRevivals(ticks[0].After(), ticks[1..], target)
  }

  lemma RefreshLive<S>(dr: MeshDriver<S>, cfg: Config, w: S, h: Health, d: Deployment, target: string)
    ensures var t := TickOf(dr, cfg, w, h, d, target);
            && |h.replicas| == |t.refreshed.replicas|
            && TallyOf(t.refreshed.replicas, target).Live() <= TallyOf(h.replicas, target).Live() + Revivals(h, t, target)
  {
    hide TickOf, TallyOf;
    var t := TickOf(dr, cfg, w, h, d, target);
    RefreshSameFleet(dr, cfg, w, h, d, target);
    MovesTally(h.replicas, t.refreshed.replicas, target);
    hide MovesOf;
  }

  /** In every state a run reaches, the live count is within the surge ceiling or the starting
      count, plus only those replicas that came back from the dead. */
  lemma {:induction false} RunSurgeCeiling<S(!new)>(dr: MeshDriver<S>, issued: (S, string) -> bool, cfg: Config, ws: seq<S>,
                                                   h: Health, d: Deployment, target: string)
    requires NeverReissues(dr, issued)
    requires ws != [] ==> Owned(issued, ws[0], h)
    requires Continues(issued, Run(dr, cfg, ws, h, d, target), ws)
    ensures var ticks := Run(dr, cfg, ws, h, d, target);
            TallyOf(EndOf(h, ticks).replicas, target).Live()
            <= Max(TallyOf(h.replicas, target).Live(), Ceiling(d.strategy, d.replicas)) + TotalRevivals(h, ticks, target)
    decreases |ws|
  {
    hide TickOf, TallyOf, Revivals, Unique, Ceiling;
    if ws != [] {
      var t := TickOf(dr, cfg, ws[0], h, d, target);
      RefreshLive(dr, cfg, ws[0], h, d, target);
      SurgeCeiling(dr, cfg, ws[0], h, d, target);
      RunTail(dr, issued, cfg, ws, h, d, target);
      var rest := Run(dr, cfg, ws[1..], t.After(), d, target);
      RunSurgeCeiling(dr, issued, cfg, ws[1..], t.After(), d, target);
      var ticks := Run(dr, cfg, ws, h, d, target);
      assert ticks[0] == t && ticks[1..] == rest;
      assert rest != [] ==> ticks[|ticks| - 1] == rest[|rest| - 1];
      assert EndOf(h, ticks) == EndOf(t.After(), rest);
    }
  }

  // ---- availability floor at the level of a tick ----------------------------------------------

  lemma FloorOfBooks(mu: U32, ms: U32, desired: U32, before: Tally, after: Tally, b: Books, allKilled: bool)
    requires Balanced(RollingUpdate(mu, ms), desired, before, after, b, allKilled)
    requires before.NewLive() <= desired || allKilled
    ensures after.Running() >= Min(before.Running(), Floor(desired, mu))
  {
  }

  /** A rolling tick keeps the availability floor: under any pattern of kill failures while the new
      revision is not over-provisioned, and otherwise whenever the planned kills succeed. */
  lemma TickKeepsFloor<S>(dr: MeshDriver<S>, cfg: Config, w: S, h: Health, d: Deployment, target: string)
    requires Unique(h.replicas) && d.strategy.RollingUpdate?
    ensures var t := TickOf(dr, cfg, w, h, d, target);
            var before := TallyOf(t.refreshed.replicas, target);
            before.NewLive() <= d.replicas || t.kills.failed == 0 ==>
              TallyOf(t.After().replicas, target).Running() >= Min(before.Running(), Floor(d.replicas, d.strategy.maxUnavailable))
  {
    hide TickOf, TallyOf, Balanced;
    var t := TickOf(dr, cfg, w, h, d, target);
    var b := TickBooks(dr, cfg, w, h, d, target);
    var before := TallyOf(t.refreshed.replicas, target);
    if before.NewLive() <= d.replicas || t.kills.failed == 0 {
      FloorOfBooks(d.strategy.maxUnavailable, d.strategy.maxSurge, d.replicas, before, TallyOf(t.After().replicas, target), b, t.kills.failed == 0);
    }
  }

  // ---- substitute kills ------------------------------------------------------------------------

  lemma SubstituteArithmetic(strategy: Strategy, desired: U32, before: Tally, after: Tally, b: Books, allKilled: bool)
    requires Balanced(strategy, desired, before, after, b, allKilled)
    requires b.substituted.Size() > 0
    ensures after.NewLive() >= desired && b.placed == 0 && !allKilled
    ensures b.planned.NewLive() < VictimCount(strategy, desired, before).NewLive()
         || (strategy.Recreate? && before.OldLive() > 0)
  {
  }

  lemma SubstitutesStop<S>(dr: MeshDriver<S>, cfg: Config, w: S, h: Health, d: Deployment, target: string)
    requires Unique(h.replicas)
    ensures var t := TickOf(dr, cfg, w, h, d, target);
            t.substitutes.killed != [] ==>
              && TallyOf(t.After().replicas, target).NewLive() >= d.replicas
              && t.Placed() == []
              && t.kills.failed > 0
  {
    hide TickOf, TallyOf, Balanced;
    var t := TickOf(dr, cfg, w, h, d, target);
    var b := TickBooks(dr, cfg, w, h, d, target);
    if t.substitutes.killed != [] {
      SubstituteArithmetic(d.strategy, d.replicas, TallyOf(t.refreshed.replicas, target), TallyOf(t.After().replicas, target), b, t.kills.failed == 0);
    }
  }

  lemma SomeOnTarget(s: seq<Replica>, target: string) returns (v: Replica)
    requires TallyOf(s, target).NewLive() > 0
    ensures v in s && v.phase.IsAlive() && v.revision == target
  {
    if forall r :: r in s ==> KindOf(r, target) !in NewKinds() {
      CountNone(s, target, NewPending);
      CountNone(s, target, NewRunning);
    }
    hide Count;
    v :| v in s && KindOf(v, target) in NewKinds();
    KindsOf(v, target);
  }

  lemma CauseArithmetic(strategy: Strategy, desired: U32, r: Tally, gone: Tally, spared: Tally, k: Tally)
    requires k.Plus(gone) == r && gone.Plus(spared) == VictimCount(strategy, desired, r)
    requires k.NewLive() > desired
    ensures spared.NewLive() > 0 || (strategy.Recreate? && r.OldLive() > 0)
  {
  }

  /** The kill whose failure made room for a substitute: an on-target replica the planner wanted
      gone is still there, unless the excess was never planned because Recreate is still draining. */
  lemma SubstituteCause<S>(dr: MeshDriver<S>, w2: S, r: seq<Replica>, d: Deployment, target: string)
    requires Unique(r)
    ensures var step := PlanStep(d.strategy, d.replicas, r, target);
            var k := RunKills(dr, w2, r, step.toKill);
            TallyOf(k.replicas, target).NewLive() > d.replicas ==>
              || (d.strategy.Recreate? && TallyOf(r, target).OldLive() > 0)
              || exists v :: v in k.replicas && v.jobId in step.toKill && v.phase.IsAlive() && v.revision == target
  {
    var victims := Victims(d.strategy, d.replicas, r, target);
    VictimsTracked(d.strategy, d.replicas, r, target);
    VictimsTally(d.strategy, d.replicas, r, target);
    PlannedIds(d.strategy, d.replicas, r, target);
    hide Count, KindOf, Victims, RunKills, Spare, PlanStep, IdSet, VictimCount, TallyOf;
    var step := PlanStep(d.strategy, d.replicas, r, target);
    var k := RunKills(dr, w2, r, step.toKill);
    var gone, spared := RunKillsEffect(dr, w2, r, victims, target);
    SpareTally(r, gone, target);
    if TallyOf(k.replicas, target).NewLive() > d.replicas {
      CauseArithmetic(d.strategy, d.replicas, TallyOf(r, target), TallyOf(gone, target), TallyOf(spared, target), TallyOf(k.replicas, target));
      if TallyOf(spared, target).NewLive() > 0 {
        var v := SomeOnTarget(spared, target);
        var i :| 0 <= i < |victims| && victims[i] == v;
        assert Ids(victims)[i] == v.jobId;
      }
    }
  }

  /** A substitute is an unplanned live on-target replica. */
  lemma SubstituteVictims<S>(dr: MeshDriver<S>, k: Kills<S>, planned: seq<string>, desired: U32, target: string, id: string)
    requires Unique(k.replicas) && id in Substitute(dr, k, planned, desired, target).killed
    ensures id !in planned && exists r :: r in k.replicas && r.jobId == id && r.phase.IsAlive() && r.revision == target
  {
    hide TallyOf, Substitute, KindOf, Unique, Spare, IdSet;
    var gone := SubstituteTally(dr, k, planned, desired, target);
    var i :| 0 <= i < |Ids(gone)| && Ids(gone)[i] == id;
    assert gone[i] in gone;
    KindsOf(gone[i], target);
  }

  /** Substitutes are taken only from unplanned, live, on-target replicas; never below the desired
      count; never in a tick that places; and only because a planned on-target kill failed or old
      replicas are still draining under Recreate. */
  lemma SubstitutesAreSafe<S>(dr: MeshDriver<S>, cfg: Config, w: S, h: Health, d: Deployment, target: string)
    requires Unique(h.replicas)
    ensures var t := TickOf(dr, cfg, w, h, d, target);
            && (forall id :: id in t.substitutes.killed ==>
                  && id !in t.step.toKill
                  && exists r :: r in t.kills.replicas && r.jobId == id && r.phase.IsAlive() && r.revision == target)
            && (t.substitutes.killed != [] ==>
                  && TallyOf(t.After().replicas, target).NewLive() >= d.replicas
                  && t.Placed() == []
                  && t.kills.failed > 0
                  && (|| (d.strategy.Recreate? && TallyOf(t.refreshed.replicas, target).OldLive() > 0)
                      || exists v :: v in t.kills.replicas && v.jobId in t.step.toKill && v.phase.IsAlive() && v.revision == target))
  {
    hide TickOf, TallyOf, PlanStep, Substitute, RunKills, PlaceStage, Advertise, KindOf, Unique, Tally.NewLive, Tally.OldLive;
    var t := TickOf(dr, cfg, w, h, d, target);
    var w2 := TickStages(dr, cfg, w, h, d, target);
    RefreshSameFleet(dr, cfg, w, h, d, target);
    SubstitutesStop(dr, cfg, w, h, d, target);
    var planned, spared := PlannedBooks(dr, w2, t.refreshed.replicas, d, target);
    SubstituteCause(dr, w2, t.refreshed.replicas, d, target);
    if t.substitutes.killed != [] { SubstitutesNeedExcess(dr, t.kills, t.step.toKill, d.replicas, target); }
    forall id | id in t.substitutes.killed
      ensures id !in t.step.toKill && exists r :: r in t.kills.replicas && r.jobId == id && r.phase.IsAlive() && r.revision == target
    {
      SubstituteVictims(dr, t.kills, t.step.toKill, d.replicas, target, id);
    }
  }

  lemma SubstitutesNeedExcess<S>(dr: MeshDriver<S>, k: Kills<S>, planned: seq<string>, desired: U32, target: string)
    requires Unique(k.replicas) && Substitute(dr, k, planned, desired, target).killed != []
    ensures TallyOf(k.replicas, target).NewLive() > desired
  {
    hide TallyOf, Substitute, KindOf, Unique, Spare, IdSet, Tally.NewLive;
    var gone := SubstituteTally(dr, k, planned, desired, target);
    assert |gone| > 0;
  }
}
