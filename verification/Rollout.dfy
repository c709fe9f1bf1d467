/** The rollout step planner: given what is tracked, the next batch of placements and kills. The
    loops below follow the program; the functions say what each batch is. */
module Rollout {
  import opened Sorting
  import opened Deployments
  import opened Replicas
  import opened Reconciling

  datatype Step = Step(toPlace: nat, toKill: seq<string>, done: bool)
  {
    predicate IsIdle() { toPlace == 0 && toKill == [] }
  }

  function NewKinds(): set<Kind> { {NewPending, NewRunning} }
  function OldKinds(): set<Kind> { {OldPending, OldRunning} }

  // ---- what a step is ----------------------------------------------------------------------

  /** On-target replicas beyond `desired`, pending ones first. */
  function Excess(replicas: seq<Replica>, target: string, excess: nat): seq<Replica> {
    Take(Sort(KillLe, Pick(replicas, target, NewKinds())), excess)
  }

  /** Ready replicas a rolling step must not go below. */
  function Floor(desired: U32, maxUnavailable: U32): nat {
    SatSub(desired, maxUnavailable)
  }

  /** Every replica the step retires, in kill order. */
  function Victims(strategy: Strategy, desired: U32, replicas: seq<Replica>, target: string): seq<Replica> {
    var t := TallyOf(replicas, target);
    var dead := Pick(replicas, target, {Dead});
    match strategy
    case Recreate =>
      if t.OldLive() > 0 then dead + Pick(replicas, target, OldKinds())
      else dead + Excess(replicas, target, SatSub(t.NewLive(), desired))
    case RollingUpdate(mu, ms) =>
      dead + Excess(replicas, target, SatSub(t.NewLive(), desired))
           + Pick(replicas, target, {OldPending})
           + Take(Pick(replicas, target, {OldRunning}), SatSub(t.Running(), Floor(desired, mu)))
  }

  function ToPlace(strategy: Strategy, desired: U32, t: Tally): nat {
    match strategy
    case Recreate => if t.OldLive() > 0 then 0 else SatSub(desired, t.NewLive())
    case RollingUpdate(mu, ms) =>
      Min(SatSub(desired, t.NewLive()), SatSub(SatAdd(desired, ms), t.Live()))
  }

  /** Exactly `desired` replicas live, all on target and ready. */
  predicate Converged(desired: U32, t: Tally) {
    t.OldLive() == 0 && t.np == 0 && t.nr == desired
  }

  function PlanStep(strategy: Strategy, desired: U32, replicas: seq<Replica>, target: string): Step {
    var t := TallyOf(replicas, target);
    Step(ToPlace(strategy, desired, t), Ids(Victims(strategy, desired, replicas, target)), Converged(desired, t))
  }

  // ---- the program's planner ---------------------------------------------------------------

  datatype RolloutCensus =
    RolloutCensus(newLive: nat, newReady: nat, oldLive: nat, oldReady: nat, terminal: seq<string>)

  function CensusOf(replicas: seq<Replica>, target: string): RolloutCensus {
    CensusFrom(TallyOf(replicas, target), Ids(Pick(replicas, target, {Dead})))
  }

  function CensusFrom(t: Tally, terminal: seq<string>): RolloutCensus {
    RolloutCensus(t.NewLive(), t.nr, t.OldLive(), t.orun, terminal)
  }

  method Census(replicas: seq<Replica>, target: string) returns (c: RolloutCensus)
    ensures c == CensusOf(replicas, target)
  {
    CensusOfNone(replicas, target);
    hide Count, Pick, TallyOf, KindOf, Ids;
    var newLive, newReady, oldLive, oldReady := 0, 0, 0, 0;
    var terminal: seq<string> := [];
    for i := 0 to |replicas|
      invariant RolloutCensus(newLive, newReady, oldLive, oldReady, terminal) == CensusOf(replicas[..i], target)
    {
      var r := replicas[i];
      CensusStep(replicas, i, target);
      if r.phase.IsTerminal() {
        terminal := terminal + [r.jobId];
        continue;
      }
      var onTarget := r.revision == target;
      if onTarget {
        newLive := newLive + 1;
        if r.phase == Running {
          newReady := newReady + 1;
        }
      } else {
        oldLive := oldLive + 1;
        if r.phase == Running {
          oldReady := oldReady + 1;
        }
      }
    }
    assert replicas[..|replicas|] == replicas;
    c := RolloutCensus(newLive, newReady, oldLive, oldReady, terminal);
  }

  /** What one more replica adds to the census. */
  function CensusWith(c: RolloutCensus, r: Replica, target: string): RolloutCensus {
    if r.phase.IsTerminal() then c.(terminal := c.terminal + [r.jobId])
    else if r.revision == target then
      c.(newLive := c.newLive + 1, newReady := c.newReady + if r.phase.Running? then 1 else 0)
    else c.(oldLive := c.oldLive + 1, oldReady := c.oldReady + if r.phase.Running? then 1 else 0)
  }

  lemma CensusStep(replicas: seq<Replica>, i: nat, target: string)
    requires i < |replicas|
    ensures CensusOf(replicas[..i + 1], target) == CensusWith(CensusOf(replicas[..i], target), replicas[i], target)
  {
    TallyStep(replicas, i, target);
    PickStep(replicas, i, target, {Dead});
    IdsPush(Pick(replicas[..i], target, {Dead}), replicas[i]);
    hide Count, Pick, TallyOf, Ids;
  }

  lemma CensusOfNone(replicas: seq<Replica>, target: string)
    ensures CensusOf(replicas[..0], target) == RolloutCensus(0, 0, 0, 0, [])
  {
    hide Count, Pick, TallyOf, KindOf, Ids, CensusFrom;
    assert replicas[..0] == [];
    TallyNone(target);
    PickNone(replicas, target, {Dead});
    NobodyCounted();
  }

  lemma NobodyCounted()
    ensures CensusFrom(Nobody(), []) == RolloutCensus(0, 0, 0, 0, [])
  {
  }

  /** The step under construction, filled in place by the planners. */
  class RolloutStep {
    var toPlace: nat
    var toKill: seq<string>
    var done: bool

    constructor ()
      ensures toPlace == 0 && toKill == [] && !done
    {
      toPlace, toKill, done := 0, [], false;
    }

    method KillExcessNew(replicas: seq<Replica>, desired: U32, target: string, newLive: nat)
      modifies this`toKill
      ensures toKill == old(toKill) + Ids(Excess(replicas, target, SatSub(newLive, desired)))
    {
      var excess := SatSub(newLive, desired);
      PickNone(replicas, target, NewKinds());
      hide Pick, Count, KindOf, Sort, KillLe, Ids, NewKinds, Take, Excess;
      var onTarget: seq<Replica> := [];
      for i := 0 to |replicas|
        invariant onTarget == Pick(replicas[..i], target, NewKinds())
        invariant toKill == old(toKill)
      {
        var r := replicas[i];
        PickStep(replicas, i, target, NewKinds());
        KindsOf(r, target);
        if !r.phase.IsTerminal() && r.revision == target {
          onTarget := onTarget + [r];
        }
      }
      assert replicas[..|replicas|] == replicas;
      onTarget := Sort(KillLe, onTarget);
      ExcessIs(replicas, target, excess);
      var n := Min(excess, |onTarget|);
      for i := 0 to n
        invariant toKill == old(toKill) + Ids(onTarget[..i])
      {
        IdsStep(onTarget, i);
        toKill := toKill + [onTarget[i].jobId];
      }
    }

    method DrainOld(replicas: seq<Replica>, target: string)
      modifies this`toKill
      ensures toKill == old(toKill) + Ids(Pick(replicas, target, OldKinds()))
    {
      PickNone(replicas, target, OldKinds());
      hide Pick, Count, KindOf, Ids, OldKinds;
      for i := 0 to |replicas|
        invariant toKill == old(toKill) + Ids(Pick(replicas[..i], target, OldKinds()))
      {
        var r := replicas[i];
        PickStep(replicas, i, target, OldKinds());
        KindsOf(r, target);
        IdsPush(Pick(replicas[..i], target, OldKinds()), r);
        if !r.phase.IsTerminal() && r.revision != target {
          toKill := toKill + [r.jobId];
        }
      }
      assert replicas[..|replicas|] == replicas;
    }

    method PlanRecreate(replicas: seq<Replica>, desired: U32, target: string, c: RolloutCensus)
      requires c == CensusOf(replicas, target)
      requires toPlace == 0 && !done && toKill == c.terminal
      modifies this
      ensures Step(toPlace, toKill, done) == PlanStep(Recreate, desired, replicas, target)
    {
      hide Count;
      hide Pick;
      ExcessNone(replicas, target);
      hide Excess;
      IdsAppend(Pick(replicas, target, {Dead}), Pick(replicas, target, OldKinds()));
      IdsAppend(Pick(replicas, target, {Dead}), Excess(replicas, target, SatSub(c.newLive, desired)));
      if c.oldLive > 0 {
        DrainOld(replicas, target);
        return;
      }
      if c.newLive < desired {
        toPlace := desired - c.newLive;
      } else if c.newLive > desired {
        KillExcessNew(replicas, desired, target, c.newLive);
      }
      done := c.newLive == desired && c.newReady == desired;
    }

    method RetirePending(replicas: seq<Replica>, target: string)
      modifies this`toKill
      ensures toKill == old(toKill) + Ids(Pick(replicas, target, {OldPending}))
    {
      PickNone(replicas, target, {OldPending});
      hide Pick, Count, KindOf, Ids;
      for i := 0 to |replicas|
        invariant toKill == old(toKill) + Ids(Pick(replicas[..i], target, {OldPending}))
      {
        var r := replicas[i];
        PickStep(replicas, i, target, {OldPending});
        KindsOf(r, target);
        IdsPush(Pick(replicas[..i], target, {OldPending}), r);
        if r.phase.IsTerminal() {
          continue;
        }
        if r.revision != target && r.phase != Running {
          toKill := toKill + [r.jobId];
        }
      }
      assert replicas[..|replicas|] == replicas;
    }

    method RetireReady(replicas: seq<Replica>, target: string, droppable: nat)
      modifies this`toKill
      ensures toKill == old(toKill) + Ids(Take(Pick(replicas, target, {OldRunning}), droppable))
    {
      var dropped := 0;
      PickNone(replicas, target, {OldRunning});
      hide Pick, Count, KindOf, Ids;
      for i := 0 to |replicas|
        invariant dropped == Min(droppable, |Pick(replicas[..i], target, {OldRunning})|)
        invariant toKill == old(toKill) + Ids(Take(Pick(replicas[..i], target, {OldRunning}), droppable))
      {
        PickStep(replicas, i, target, {OldRunning});
        if dropped >= droppable {
          PickPrefix(replicas, i, target, {OldRunning});
          return;
        }
        var r := replicas[i];
        KindsOf(r, target);
        IdsPush(Pick(replicas[..i], target, {OldRunning}), r);
        if r.phase.IsTerminal() {
          continue;
        }
        if r.revision != target && r.phase == Running {
          toKill := toKill + [r.jobId];
          dropped := dropped + 1;
        }
      }
      assert replicas[..|replicas|] == replicas;
    }

    method PlanRolling(replicas: seq<Replica>, desired: U32, target: string, c: RolloutCensus,
                       maxUnavailable: U32, maxSurge: U32)
      requires c == CensusOf(replicas, target)
      requires toPlace == 0 && !done && toKill == c.terminal
      modifies this
      ensures Step(toPlace, toKill, done)
           == PlanStep(RollingUpdate(maxUnavailable, maxSurge), desired, replicas, target)
    {
      hide Count;
      hide Pick;
      ExcessNone(replicas, target);
      if c.oldLive == 0 {
        NoOld(replicas, target);
      }
      hide Excess;
      RollingVictimIds(replicas, desired, target, maxUnavailable, maxSurge);
      assert c.newLive <= desired ==> c.terminal + Ids(Excess(replicas, target, SatSub(c.newLive, desired))) == c.terminal;
      var totalLive := c.newLive + c.oldLive;
      if c.oldLive == 0 && c.newLive == desired && c.newReady == desired {
        done := true;
        return;
      }
      if c.newLive > desired {
        KillExcessNew(replicas, desired, target, c.newLive);
        if c.oldLive == 0 {
          return;
        }
      }
      var surgeCeiling := SatAdd(desired, maxSurge);
      if c.newLive < desired {
        var wantMore := desired - c.newLive;
        var surgeRoom := SatSub(surgeCeiling, totalLive);
        toPlace := Min(wantMore, surgeRoom);
      }
      var availFloor := SatSub(desired, maxUnavailable);
      if c.oldLive > 0 {
        var readyNow := c.newReady + c.oldReady;
        var droppableReady := SatSub(readyNow, availFloor);
        RetirePending(replicas, target);
        RetireReady(replicas, target, droppableReady);
      }
    }
  }

  method PlanNext(d: Deployment, replicas: seq<Replica>, target: string) returns (step: Step)
    ensures step == PlanStep(d.strategy, d.replicas, replicas, target)
  {
    hide Count;
    var c := Census(replicas, target);
    var s := new RolloutStep();
    s.toKill := s.toKill + c.terminal;
    match d.strategy {
      case Recreate => s.PlanRecreate(replicas, d.replicas, target, c);
      case RollingUpdate(mu, ms) => s.PlanRolling(replicas, d.replicas, target, c, mu, ms);
    }
    step := Step(s.toPlace, s.toKill, s.done);
  }

  // ---- small facts the loops need ----------------------------------------------------------

  lemma IdsAppend(a: seq<Replica>, b: seq<Replica>)
    ensures Ids(a + b) == Ids(a) + Ids(b)
  {
  }

  lemma RollingVictimIds(replicas: seq<Replica>, desired: U32, target: string, mu: U32, ms: U32)
    ensures Ids(Victims(RollingUpdate(mu, ms), desired, replicas, target))
         == Ids(Pick(replicas, target, {Dead}))
          + Ids(Excess(replicas, target, SatSub(TallyOf(replicas, target).NewLive(), desired)))
          + Ids(Pick(replicas, target, {OldPending}))
          + Ids(Take(Pick(replicas, target, {OldRunning}),
                     SatSub(TallyOf(replicas, target).Running(), Floor(desired, mu))))
  {
    hide Count;
    hide Pick;
    hide Excess;
  }

  lemma KindsOf(r: Replica, target: string)
    ensures KindOf(r, target) in NewKinds() <==> !r.phase.IsTerminal() && r.revision == target
    ensures KindOf(r, target) in OldKinds() <==> !r.phase.IsTerminal() && r.revision != target
    ensures KindOf(r, target).OldRunning? <==> r.phase.Running? && r.revision != target
    ensures KindOf(r, target).OldPending? <==> r.phase.Pending? && r.revision != target
  {
  }

  lemma PickNone(replicas: seq<Replica>, target: string, ks: set<Kind>)
    ensures Pick(replicas[..0], target, ks) == [] && Ids([]) == []
  {
  }

  lemma PickPrefix(s: seq<Replica>, i: nat, target: string, ks: set<Kind>)
    requires i <= |s|
    ensures Pick(s[..i], target, ks) <= Pick(s, target, ks)
  {
    assert s == s[..i] + s[i..];
    PickAppend(s[..i], s[i..], target, ks);
  }

  lemma ExcessIs(replicas: seq<Replica>, target: string, excess: nat)
    ensures var order := Sort(KillLe, Pick(replicas, target, NewKinds()));
            Excess(replicas, target, excess) == order[..Min(excess, |order|)]
  {
  }

  lemma ExcessNone(replicas: seq<Replica>, target: string)
    ensures Excess(replicas, target, 0) == []
  {
  }

  lemma NoOld(replicas: seq<Replica>, target: string)
    requires TallyOf(replicas, target).OldLive() == 0
    ensures Pick(replicas, target, {OldPending}) == [] && Pick(replicas, target, {OldRunning}) == []
  {
    hide Count, KindOf, Pick, TallyOf;
    NoneOfKind(replicas, target, OldPending);
    NoneOfKind(replicas, target, OldRunning);
  }

  lemma NoneOfKind(replicas: seq<Replica>, target: string, k: Kind)
    requires Keep(TallyOf(replicas, target), {k}).Size() == 0
    ensures Pick(replicas, target, {k}) == []
  {
    hide Count, KindOf, Pick, TallyOf, Keep;
    TallyPick(replicas, target, {k});
    TallySize(Pick(replicas, target, {k}), target);
  }
}
