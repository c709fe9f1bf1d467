/** Liveness: a run whose environment eventually cooperates reaches the desired state, in a number
    of ticks read off the starting state; and once there, nothing moves any more. */
module Convergence {
  import opened Deployments
  import opened Replicas
  import opened Rollout
  import opened Planner
  import opened Placement
  import opened Driver
  import opened Ticking
  import opened Accounts
  import opened Identity
  import opened WorkLaw
  import opened PlacementLoop

  // ---- done ------------------------------------------------------------------------------------

  /** A tick reports done exactly when the gate is open and what it refreshed is the desired number
      of ready on-target replicas with no old one live. */
  lemma DoneMeans<S>(dr: MeshDriver<S>, cfg: Config, w: S, h: Health, d: Deployment, target: string)
    ensures var t := TickOf(dr, cfg, w, h, d, target);
            t.Done() <==> t.gate.Ready? && Converged(d.replicas, TallyOf(t.refreshed.replicas, target))
  {
    var w2 := TickStages(dr, cfg, w, h, d, target);
    hide TickOf, TallyOf, Victims, ToPlace, RunKills, Substitute, PlaceStage, Advertise;
  }

  lemma ConvergedBooks(strategy: Strategy, desired: U32, before: Tally, after: Tally, b: Books, allKilled: bool)
    requires Balanced(strategy, desired, before, after, b, allKilled) && Converged(desired, before)
    ensures b.placed == 0 && b.substituted.Size() == 0 && b.planned.Size() == b.planned.dead
    ensures Converged(desired, after) && after.dead <= before.dead
    ensures b.planned.Size() == 0 ==> after == before
  {
  }

  /** At the desired state a tick places nothing and removes nothing but dead replicas; with no dead
      ones it is a no-op, and the next tick is done as well if the mesh stays as it is. */
  lemma DoneIsStable<S>(dr: MeshDriver<S>, cfg: Config, w: S, h: Health, d: Deployment, target: string)
    requires Unique(h.replicas)
    requires TickOf(dr, cfg, w, h, d, target).Done()
    ensures var t := TickOf(dr, cfg, w, h, d, target);
            && t.Placed() == [] && t.substitutes.killed == []
            && Converged(d.replicas, TallyOf(t.After().replicas, target))
            && (TallyOf(t.refreshed.replicas, target).dead == 0 ==>
                  t.Killed() == [] && TallyOf(t.After().replicas, target) == TallyOf(t.refreshed.replicas, target))
  {
    DoneMeans(dr, cfg, w, h, d, target);
    hide TickOf, TallyOf, Balanced, Converged;
    var t := TickOf(dr, cfg, w, h, d, target);
    var b := TickBooks(dr, cfg, w, h, d, target);
    var before := TallyOf(t.refreshed.replicas, target);
    ConvergedBooks(d.strategy, d.replicas, before, TallyOf(t.After().replicas, target), b, t.kills.failed == 0);
    DeadVictims(d.strategy, d.replicas, before, b, TallyOf(t.After().replicas, target), t.kills.failed == 0);
  }

  lemma DeadVictims(strategy: Strategy, desired: U32, before: Tally, b: Books, after: Tally, allKilled: bool)
    requires Balanced(strategy, desired, before, after, b, allKilled)
    ensures b.planned.dead <= before.dead
  {
  }

  /** A settled refresh after a done tick is done again: `done` is a fixed point. */
  lemma DoneAgain<S>(dr: MeshDriver<S>, cfg: Config, w: S, h: Health, d: Deployment, target: string, w': S)
    requires Unique(h.replicas)
    requires TickOf(dr, cfg, w, h, d, target).Done()
    requires var t := TickOf(dr, cfg, w, h, d, target);
             var t' := TickOf(dr, cfg, w', t.After(), d, target);
             t'.refreshed.replicas == t.After().replicas && t'.gate.Ready?
    ensures var t := TickOf(dr, cfg, w, h, d, target);
            var t' := TickOf(dr, cfg, w', t.After(), d, target);
            t'.Done()
  {
    DoneIsStable(dr, cfg, w, h, d, target);
    var t := TickOf(dr, cfg, w, h, d, target);
    DoneMeans(dr, cfg, w', t.After(), d, target);
    hide TickOf, TallyOf, Converged;
  }

  // ---- progress --------------------------------------------------------------------------------

  /** Budgets that leave the roll room to move: what validation demands of a rolling update. */
  predicate CanMove(strategy: Strategy, desired: U32) {
    match strategy
    case Recreate => true
    case RollingUpdate(mu, ms) => mu > 0 || SatAdd(desired, ms) > desired || desired == 0
  }

  function MaxReplicas(): U32 { 4096 }

  /** Every strategy and count that validation lets through leaves room to move. */
  lemma ValidSpecsCanMove(strategy: Strategy, desired: U32)
    requires desired <= MaxReplicas() && strategy != RollingUpdate(0, 0)
    ensures CanMove(strategy, desired)
  {
  }

  /** The environment's part in one tick: dependencies are up, planned kills succeed, no on-target
      replica was found dead, and some ranked host takes every deploy while the mesh stays `open`. */
  ghost predicate Fair<S(!new)>(dr: MeshDriver<S>, d: Deployment, h: Health, t: Tick<S>, target: string, open: S -> bool) {
    && t.gate.Ready?
    && t.kills.failed == 0
    && |h.replicas| == |t.refreshed.replicas| && Deaths(h, t, target) == 0
    && (t.step.toPlace > 0 ==>
          && DistinctCandidates(t.candidates) && open(dr.atlas(t.substitutes.world).0)
          && exists node :: Lists(t.candidates, node) && NeverRejects(dr, d, node, open))
  }

  lemma NotStalled(strategy: Strategy, desired: U32, replicas: seq<Replica>, target: string)
    requires CanMove(strategy, desired) && TallyOf(replicas, target).np == 0
    requires !PlanStep(strategy, desired, replicas, target).done
    ensures !PlanStep(strategy, desired, replicas, target).IsIdle()
  {
    hide TallyOf, Victims;
    match strategy {
      case Recreate => NeverStallsRecreate(desired, replicas, target);
      case RollingUpdate(mu, ms) => NeverStallsRolling(mu, ms, desired, replicas, target);
    }
  }

  lemma KillsHappen(strategy: Strategy, desired: U32, before: Tally, after: Tally, b: Books)
    requires Balanced(strategy, desired, before, after, b, true)
    requires VictimCount(strategy, desired, before).Size() > 0
    ensures b.planned.Size() > 0
  {
  }

  /** A fair tick that is not done and finds no target replica still starting makes progress. */
  lemma FairTickMoves<S(!new)>(dr: MeshDriver<S>, cfg: Config, w: S, h: Health, d: Deployment, target: string, open: S -> bool)
    requires Unique(h.replicas) && CanMove(d.strategy, d.replicas)
    requires Fair(dr, d, h, TickOf(dr, cfg, w, h, d, target), target, open)
    requires TallyOf(TickOf(dr, cfg, w, h, d, target).refreshed.replicas, target).np == 0
    requires !TickOf(dr, cfg, w, h, d, target).Done()
    ensures var t := TickOf(dr, cfg, w, h, d, target); |t.Placed()| + |t.Killed()| >= 1
  {
    var t := TickOf(dr, cfg, w, h, d, target);
    var w2 := TickStages(dr, cfg, w, h, d, target);
    hide TickOf, TallyOf, Balanced, RunKills, Substitute, Advertise, Rank, Deaths;
    var r := t.refreshed.replicas;
    NotStalled(d.strategy, d.replicas, r, target);
    IdleMeansNoVictims(d.strategy, d.replicas, r, target);
    hide PlanStep, VictimCount;
    if t.step.toKill != [] {
      var b := TickBooks(dr, cfg, w, h, d, target);
      KillsHappen(d.strategy, d.replicas, TallyOf(r, target), TallyOf(t.After().replicas, target), b);
    } else {
      var node :| Lists(t.candidates, node) && NeverRejects(dr, d, node, open);
      var (w3, candidates) := RankedHosts(dr, t.substitutes.world, d, cfg.maxStaleSecs);
      AcceptorPlaces(dr, w3, d, target, t.substitutes.replicas, candidates, t.step.toPlace, node, open);
      hide Place;
    }
  }

  /** A fair tick with nothing starting is done or leaves strictly less work. */
  lemma FairTickDescends<S(!new)>(dr: MeshDriver<S>, cfg: Config, w: S, h: Health, d: Deployment, target: string, open: S -> bool)
    requires Unique(h.replicas) && CanMove(d.strategy, d.replicas)
    requires Fair(dr, d, h, TickOf(dr, cfg, w, h, d, target), target, open)
    ensures var t := TickOf(dr, cfg, w, h, d, target);
            var before, after := WorkLeft(d.replicas, TallyOf(h.replicas, target)), WorkLeft(d.replicas, TallyOf(t.After().replicas, target));
            && after <= before
            && (TallyOf(t.refreshed.replicas, target).np == 0 ==> t.Done() || after < before)
  {
    var t := TickOf(dr, cfg, w, h, d, target);
    TickWork(dr, cfg, w, h, d, target);
    RefreshWork(dr, cfg, w, h, d, target);
    hide TickOf, TallyOf, WorkLeft;
    if TallyOf(t.refreshed.replicas, target).np == 0 && !t.Done() {
      FairTickMoves(dr, cfg, w, h, d, target, open);
    }
  }

  /** Every tick of the run is fair, and from tick `quiet` on no target replica is still starting
      when it refreshes. */
  ghost predicate FairRun<S(!new)>(dr: MeshDriver<S>, d: Deployment, h: Health, ticks: seq<Tick<S>>, target: string, open: S -> bool, quiet: nat)
    decreases |ticks|
  {
    ticks != [] ==>
      && Fair(dr, d, h, ticks[0], target, open)
      && (quiet == 0 ==> TallyOf(ticks[0].refreshed.replicas, target).np == 0)
      && FairRun(dr, d, ticks[0].After(), ticks[1..], target, open, SatSub(quiet, 1))
  }

  lemma {:induction false} QuietRunFinishes<S(!new)>(dr: MeshDriver<S>, issued: (S, string) -> bool, cfg: Config, ws: seq<S>,
                                                    h: Health, d: Deployment, target: string, open: S -> bool) returns (i: nat)
    requires NeverReissues(dr, issued) && CanMove(d.strategy, d.replicas)
    requires |ws| > WorkLeft(d.replicas, TallyOf(h.replicas, target))
    requires Owned(issued, ws[0], h) && Continues(issued, Run(dr, cfg, ws, h, d, target), ws)
    requires FairRun(dr, d, h, Run(dr, cfg, ws, h, d, target), target, open, 0)
    ensures i <= WorkLeft(d.replicas, TallyOf(h.replicas, target))
    ensures Run(dr, cfg, ws, h, d, target)[i].Done()
    decreases |ws|
  {
    hide TickOf, TallyOf, WorkLeft, Fair, Unique;
    var t := TickOf(dr, cfg, ws[0], h, d, target);
    RunTail(dr, issued, cfg, ws, h, d, target);
    var ticks := Run(dr, cfg, ws, h, d, target);
    var rest := Run(dr, cfg, ws[1..], t.After(), d, target);
    assert ticks[0] == t && ticks[1..] == rest;
    OwnedUnique(issued, ws[0], h);
    FairTickDescends(dr, cfg, ws[0], h, d, target, open);
    if t.Done() {
      i := 0;
    } else {
      var j := QuietRunFinishes(dr, issued, cfg, ws[1..], t.After(), d, target, open);
      i := j + 1;
      assert ticks[i] == rest[j];
    }
  }

  lemma OwnedUnique<S(!new)>(issued: (S, string) -> bool, w: S, h: Health)
    requires Owned(issued, w, h)
    ensures Unique(h.replicas)
  {
  }

  /** Convergence: from any start, with kills succeeding, dependencies up, some ranked host always
      accepting and starting replicas ready by the next tick, a run reports done within two ticks
      more than the work there was at the start. */
  lemma Converges<S(!new)>(dr: MeshDriver<S>, issued: (S, string) -> bool, cfg: Config, ws: seq<S>,
                           h: Health, d: Deployment, target: string, open: S -> bool) returns (i: nat)
    requires NeverReissues(dr, issued) && CanMove(d.strategy, d.replicas)
    requires |ws| >= WorkLeft(d.replicas, TallyOf(h.replicas, target)) + 2
    requires Owned(issued, ws[0], h) && Continues(issued, Run(dr, cfg, ws, h, d, target), ws)
    requires FairRun(dr, d, h, Run(dr, cfg, ws, h, d, target), target, open, 1)
    ensures i <= WorkLeft(d.replicas, TallyOf(h.replicas, target)) + 1
    ensures Run(dr, cfg, ws, h, d, target)[i].Done()
  {
    hide TickOf, TallyOf, WorkLeft, Fair, Unique;
    var t := TickOf(dr, cfg, ws[0], h, d, target);
    RunTail(dr, issued, cfg, ws, h, d, target);
    var ticks := Run(dr, cfg, ws, h, d, target);
    var rest := Run(dr, cfg, ws[1..], t.After(), d, target);
    assert ticks[0] == t && ticks[1..] == rest;
    OwnedUnique(issued, ws[0], h);
    FairTickDescends(dr, cfg, ws[0], h, d, target, open);
    var j := QuietRunFinishes(dr, issued, cfg, ws[1..], t.After(), d, target, open);
    i := j + 1;
    assert ticks[i] == rest[j];
  }

  // ---- the convergence loop ---------------------------------------------------------------------

  /** Tick until done or out of budget, letting the mesh move on between ticks. */
  function ConvergeOf<S>(dr: MeshDriver<S>, between: S -> S, cfg: Config, w: S, h: Health, d: Deployment, target: string,
                         budget: nat, last: TickReport): (S, Health, TickReport)
    decreases budget
  {
    if budget == 0 then (w, h, last) else
      var t := TickOf(dr, cfg, w, h, d, target);
      if t.Done() then (t.world, t.After(), t.Report())
      else ConvergeOf(dr, between, cfg, between(t.world), t.After(), d, target, budget - 1, t.Report())
  }

  /** The worlds the ticks of a full-budget run would start in. */
  function Worlds<S>(dr: MeshDriver<S>, between: S -> S, cfg: Config, w: S, h: Health, d: Deployment, target: string, budget: nat): (r: seq<S>)
    ensures |r| == budget
    decreases budget
  {
    if budget == 0 then [] else
      var t := TickOf(dr, cfg, w, h, d, target);
      [w] + Worlds(dr, between, cfg, between(t.world), t.After(), d, target, budget - 1)
  }

  lemma {:induction false} ConvergeStopsAtDone<S>(dr: MeshDriver<S>, between: S -> S, cfg: Config, w: S, h: Health, d: Deployment, target: string,
                                                 budget: nat, last: TickReport, i: nat)
    requires i < budget
    requires Run(dr, cfg, Worlds(dr, between, cfg, w, h, d, target, budget), h, d, target)[i].Done()
    ensures ConvergeOf(dr, between, cfg, w, h, d, target, budget, last).2.done
    decreases budget
  {
    hide TickOf;
    var t := TickOf(dr, cfg, w, h, d, target);
    var ws := Worlds(dr, between, cfg, w, h, d, target, budget);
    assert ws[1..] == Worlds(dr, between, cfg, between(t.world), t.After(), d, target, budget - 1);
    assert Run(dr, cfg, ws, h, d, target) == [t] + Run(dr, cfg, ws[1..], t.After(), d, target);
    if !t.Done() {
      ConvergeStopsAtDone(dr, between, cfg, between(t.world), t.After(), d, target, budget - 1, t.Report(), i - 1);
    }
  }

  /** How a loop over `ticks` ends: at the first done tick, with what that tick left; otherwise with what
      the last tick left and the mesh moved on once more; without any tick, as it began. */
  ghost predicate Ends<S>(between: S -> S, begin: (S, Health, TickReport), ticks: seq<Tick<S>>, end: (S, Health, TickReport)) {
    && (ticks == [] ==> end == begin)
    && (ticks != [] && (forall t :: t in ticks ==> !t.Done()) ==>
          var t := ticks[|ticks| - 1]; end == (between(t.world), t.After(), t.Report()))
    && (forall i :: 0 <= i < |ticks| && ticks[i].Done() && (forall j :: 0 <= j < i ==> !ticks[j].Done()) ==>
          end == (ticks[i].world, ticks[i].After(), ticks[i].Report()))
  }

  lemma EndsAtOnce<S>(between: S -> S, begin: (S, Health, TickReport), t: Tick<S>, rest: seq<Tick<S>>)
    requires t.Done()
    ensures Ends(between, begin, [t] + rest, (t.world, t.After(), t.Report()))
  {
    var ticks := [t] + rest;
    assert ticks[0] == t && t in ticks;
  }

  lemma EndsLater<S>(between: S -> S, begin: (S, Health, TickReport), t: Tick<S>, rest: seq<Tick<S>>, end: (S, Health, TickReport))
    requires !t.Done() && Ends(between, (between(t.world), t.After(), t.Report()), rest, end)
    ensures Ends(between, begin, [t] + rest, end)
  {
    var ticks := [t] + rest;
    assert forall x :: x in rest ==> x in ticks;
    forall i | 0 <= i < |ticks| && ticks[i].Done() && (forall j :: 0 <= j < i ==> !ticks[j].Done())
      ensures end == (ticks[i].world, ticks[i].After(), ticks[i].Report())
    {
      assert i > 0 && ticks[i] == rest[i - 1];
      forall j | 0 <= j < i - 1 ensures !rest[j].Done() { assert ticks[j + 1] == rest[j]; }
    }
  }

  /** Where the convergence loop ends, and the worlds its ticks start in. */
  lemma {:induction false} ConvergeEnds<S>(dr: MeshDriver<S>, between: S -> S, cfg: Config, w: S, h: Health, d: Deployment, target: string,
                                          budget: nat, last: TickReport)
    ensures var ws := Worlds(dr, between, cfg, w, h, d, target, budget);
            var ticks := Run(dr, cfg, ws, h, d, target);
            && |ticks| == budget
            && (forall i :: 0 <= i < budget ==> ws[i] == if i == 0 then w else between(ticks[i - 1].world))
            && Ends(between, (w, h, last), ticks, ConvergeOf(dr, between, cfg, w, h, d, target, budget, last))
    decreases budget
  {
    hide TickOf, Ends;
    if budget == 0 {
      NoTicks(between, (w, h, last));
    } else {
      var t := TickOf(dr, cfg, w, h, d, target);
      var ws := Worlds(dr, between, cfg, w, h, d, target, budget);
      var later := Worlds(dr, between, cfg, between(t.world), t.After(), d, target, budget - 1);
      assert ws == [w] + later && ws[1..] == later;
      var ticks, rest := Run(dr, cfg, ws, h, d, target), Run(dr, cfg, later, t.After(), d, target);
      assert ticks == [t] + rest;
      ConvergeEnds(dr, between, cfg, between(t.world), t.After(), d, target, budget - 1, t.Report());
      hide Run, Worlds;
      assert forall i :: 0 < i < budget ==> ticks[i] == rest[i - 1] && ws[i] == later[i - 1];
      if t.Done() {
        EndsAtOnce(between, (w, h, last), t, rest);
      } else {
        EndsLater(between, (w, h, last), t, rest,
                  ConvergeOf(dr, between, cfg, between(t.world), t.After(), d, target, budget - 1, t.Report()));
      }
    }
  }

  lemma NoTicks<S>(between: S -> S, begin: (S, Health, TickReport))
    ensures Ends(between, begin, [], begin)
  {
  }

  /** With a fair mesh and a budget of the starting work plus two, `converge` returns done. */
  lemma ConvergeReachesDone<S(!new)>(dr: MeshDriver<S>, issued: (S, string) -> bool, between: S -> S, cfg: Config, w: S,
                                     h: Health, d: Deployment, target: string, budget: nat, last: TickReport, open: S -> bool)
    requires NeverReissues(dr, issued) && CanMove(d.strategy, d.replicas) && Owned(issued, w, h)
    requires forall v :: Remembers(issued, v, between(v))
    requires budget >= WorkLeft(d.replicas, TallyOf(h.replicas, target)) + 2
    requires FairRun(dr, d, h, Run(dr, cfg, Worlds(dr, between, cfg, w, h, d, target, budget), h, d, target), target, open, 1)
    ensures ConvergeOf(dr, between, cfg, w, h, d, target, budget, last).2.done
  {
    hide TickOf, TallyOf, WorkLeft, FairRun, NeverReissues, Owned;
    WorldsContinue(dr, issued, between, cfg, w, h, d, target, budget);
    var i := Converges(dr, issued, cfg, Worlds(dr, between, cfg, w, h, d, target, budget), h, d, target, open);
    ConvergeStopsAtDone(dr, between, cfg, w, h, d, target, budget, last, i);
  }

  lemma {:induction false} WorldsContinue<S(!new)>(dr: MeshDriver<S>, issued: (S, string) -> bool, between: S -> S, cfg: Config, w: S,
                                  h: Health, d: Deployment, target: string, budget: nat)
    requires forall v :: Remembers(issued, v, between(v))
    ensures var ws := Worlds(dr, between, cfg, w, h, d, target, budget);
            Continues(issued, Run(dr, cfg, ws, h, d, target), ws) && (budget > 0 ==> ws[0] == w)
    decreases budget
  {
    hide TickOf, Remembers;
    if budget > 0 {
      var t := TickOf(dr, cfg, w, h, d, target);
      WorldsContinue(dr, issued, between, cfg, between(t.world), t.After(), d, target, budget - 1);
      var ws := Worlds(dr, between, cfg, w, h, d, target, budget);
      var ticks := Run(dr, cfg, ws, h, d, target);
      var restWs := Worlds(dr, between, cfg, between(t.world), t.After(), d, target, budget - 1);
      var rest := Run(dr, cfg, restWs, t.After(), d, target);
      assert ws[1..] == restWs && ticks == [t] + rest;
      forall i | 0 <= i < |ws| - 1 ensures Remembers(issued, ticks[i].world, ws[i + 1]) {
        if i > 0 {
          assert ticks[i] == rest[i - 1] && ws[i + 1] == restWs[(i - 1) + 1];
        }
      }
    }
  }
}
