/** With nothing left to roll, the rollout planner is plain reconcile; and plain reconcile lands on
    the desired count while keeping as many ready replicas as any choice of victims could. */
module Reduction {
  import opened Sorting
  import opened Deployments
  import opened Replicas
  import opened Reconciling
  import opened Rollout
  import opened Planner

  ghost predicate AllLiveOnTarget(replicas: seq<Replica>, target: string) {
    forall r :: r in replicas && !r.phase.IsTerminal() ==> r.revision == target
  }

  lemma {:induction false} TerminalIsDead(s: seq<Replica>, target: string)
    ensures Terminal(s) == Pick(s, target, {Dead})
  {
    if s != [] { TerminalIsDead(s[1..], target); }
  }

  lemma {:induction false} LivingIsOnTarget(s: seq<Replica>, target: string)
    requires AllLiveOnTarget(s, target)
    ensures Living(s) == Pick(s, target, NewKinds())
  {
    if s != [] {
      assert s[0] in s;
      KindsOf(s[0], target);
      LivingIsOnTarget(s[1..], target);
    }
  }

  lemma NothingOld(s: seq<Replica>, target: string)
    requires AllLiveOnTarget(s, target)
    ensures TallyOf(s, target).op == 0 && TallyOf(s, target).orun == 0
  {
    CountNone(s, target, OldPending);
    CountNone(s, target, OldRunning);
  }

  lemma OnlyOnTarget(replicas: seq<Replica>, target: string)
    requires AllLiveOnTarget(replicas, target)
    ensures TallyOf(replicas, target).OldLive() == 0
    ensures Terminal(replicas) == Pick(replicas, target, {Dead})
    ensures Living(replicas) == Pick(replicas, target, NewKinds())
    ensures |Living(replicas)| == TallyOf(replicas, target).NewLive()
    ensures Pick(replicas, target, {OldPending}) == [] && Pick(replicas, target, {OldRunning}) == []
  {
    hide Count;
    hide KindOf;
    NothingOld(replicas, target);
    TerminalIsDead(replicas, target);
    LivingIsOnTarget(replicas, target);
    TallyPick(replicas, target, NewKinds());
    TallySize(Pick(replicas, target, NewKinds()), target);
    NoOld(replicas, target);
  }

  lemma VictimsOnTarget(strategy: Strategy, desired: U32, replicas: seq<Replica>, target: string)
    requires AllLiveOnTarget(replicas, target)
    ensures Victims(strategy, desired, replicas, target)
         == Pick(replicas, target, {Dead})
          + Excess(replicas, target, SatSub(TallyOf(replicas, target).NewLive(), desired))
  {
    hide TallyOf, Excess, Pick, Living, Terminal, AllLiveOnTarget, Take;
    OnlyOnTarget(replicas, target);
    match strategy {
      case Recreate =>
      case RollingUpdate(mu, ms) => TakeNone(SatSub(TallyOf(replicas, target).Running(), Floor(desired, mu)));
    }
  }

  lemma TakeNone(n: nat)
    ensures Take<Replica>([], n) == []
  {
  }

  lemma SamePlacements(strategy: Strategy, desired: U32, t: Tally)
    requires t.OldLive() == 0
    ensures ToPlace(strategy, desired, t) == SatSub(desired, t.NewLive())
  {
  }

  /** Under either strategy and any budgets, the same placements and the same kill sequence. */
  lemma ReducesToReconcile(strategy: Strategy, desired: U32, replicas: seq<Replica>, target: string)
    requires AllLiveOnTarget(replicas, target)
    ensures PlanStep(strategy, desired, replicas, target).toPlace == PlanOf(desired, replicas).toPlace
    ensures PlanStep(strategy, desired, replicas, target).toKill == PlanOf(desired, replicas).toKill
  {
    OnlyOnTarget(replicas, target);
    VictimsOnTarget(strategy, desired, replicas, target);
    SamePlacements(strategy, desired, TallyOf(replicas, target));
    hide Victims;
    hide ToPlace;
    hide TallyOf;
    hide Pick;
    hide Living;
    hide Terminal;
    hide Sort;
    IdsAppend(Pick(replicas, target, {Dead}),
              Excess(replicas, target, SatSub(TallyOf(replicas, target).NewLive(), desired)));
  }

  /** Carrying the plan out lands on exactly the desired count, and the ready replicas kept are
      the smaller of the ready ones and the desired count. */
  lemma ReconcileReachesDesired(desired: U32, replicas: seq<Replica>, target: string)
    requires Unique(replicas) && AllLiveOnTarget(replicas, target)
    ensures var plan := PlanOf(desired, replicas);
            var left := TallyOf(Spare(replicas, set id | id in plan.toKill), target);
            && left.Live() + plan.toPlace == desired
            && left.dead == 0
            && left.Running() == Min(TallyOf(replicas, target).Running(), desired)
  {
    hide Count;
    hide KindOf;
    var victims := Victims(Recreate, desired, replicas, target);
    ReducesToReconcile(Recreate, desired, replicas, target);
    NothingOld(replicas, target);
    VictimsTracked(Recreate, desired, replicas, target);
    VictimsTally(Recreate, desired, replicas, target);
    KillSetIsIdSet(victims);
    hide Victims;
    hide TallyOf;
    assert PlanOf(desired, replicas).toKill == Ids(victims);
    SpareTally(replicas, victims, target);
    hide PlanOf;
  }

  lemma KillSetIsIdSet(victims: seq<Replica>)
    ensures (set id | id in Ids(victims)) == IdSet(victims)
  {
    forall id ensures id in Ids(victims) <==> id in IdSet(victims) {
      if id in Ids(victims) {
        var i :| 0 <= i < |victims| && Ids(victims)[i] == id;
        assert victims[i] in victims;
      }
      if id in IdSet(victims) {
        var v :| v in victims && v.jobId == id;
        var i :| 0 <= i < |victims| && victims[i] == v;
        assert Ids(victims)[i] == id;
      }
    }
  }

  /** No other set of kills that brings the live count down to the desired one keeps more. */
  lemma NoKillSetKeepsMore(desired: U32, replicas: seq<Replica>, target: string, gone: set<string>)
    requires Unique(replicas) && AllLiveOnTarget(replicas, target)
    requires TallyOf(Spare(replicas, gone), target).Live() <= desired
    ensures TallyOf(Spare(replicas, gone), target).Running()
         <= TallyOf(Spare(replicas, set id | id in PlanOf(desired, replicas).toKill), target).Running()
  {
    ReconcileReachesDesired(desired, replicas, target);
    hide Count;
    hide PlanOf;
    hide KindOf;
    SpareNone(replicas);
    SpareMonotone(replicas, target, NewRunning, {}, gone);
    SpareMonotone(replicas, target, OldRunning, {}, gone);
  }
}
