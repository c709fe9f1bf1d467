/** What the step planner guarantees, for every fleet, strategy and budget. */
module Planner {
  import opened Text
  import opened Sorting
  import opened Deployments
  import opened Replicas
  import opened Reconciling
  import opened Rollout

  // ---- the victims, counted ----------------------------------------------------------------

  /** How many of each kind a step retires, as arithmetic on the head count alone. */
  function VictimCount(strategy: Strategy, desired: U32, t: Tally): Tally {
    var excess := SatSub(t.NewLive(), desired);
    var np := Min(excess, t.np);
    match strategy
    case Recreate =>
      if t.OldLive() > 0 then Tally(0, 0, t.op, t.orun, t.dead)
      else Tally(np, excess - np, 0, 0, t.dead)
    case RollingUpdate(mu, ms) =>
      Tally(np, excess - np, t.op, Min(t.orun, SatSub(t.Running(), Floor(desired, mu))), t.dead)
  }

  ghost predicate Tracked(victims: seq<Replica>, replicas: seq<Replica>) {
    Unique(victims) && forall v :: v in victims ==> v in replicas
  }

  lemma {:induction false} CountNone(s: seq<Replica>, target: string, k: Kind)
    requires forall r :: r in s ==> KindOf(r, target) != k
    ensures Count(s, target, k) == 0
  {
    hide KindOf;
    if s != [] {
      CountNone(s[1..], target, k);
      assert s[0] in s;
    }
  }

  lemma OnTargetOnly(s: seq<Replica>, target: string)
    requires forall r :: r in s ==> KindOf(r, target) in NewKinds()
    ensures TallyOf(s, target) == Tally(Count(s, target, NewPending), Count(s, target, NewRunning), 0, 0, 0)
  {
    hide Count;
    hide KindOf;
    CountNone(s, target, OldPending);
    CountNone(s, target, OldRunning);
    CountNone(s, target, Dead);
  }

  /** Scale-down order takes pending replicas before it touches a running one. */
  lemma {:induction false} TakePendingFirst(s: seq<Replica>, target: string, n: nat)
    requires Sorted(KillLe, s)
    requires forall r :: r in s ==> KindOf(r, target) in NewKinds()
    requires n <= |s|
    ensures Count(s[..n], target, NewPending) == Min(n, Count(s, target, NewPending))
  {
    if n > 0 {
      var rest := s[1..];
      assert s == [s[0]] + rest;
      assert s[..n] == [s[0]] + rest[..n - 1];
      TakePendingFirst(rest, target, n - 1);
      CountHead(s, target, NewPending);
      CountHead(s[..n], target, NewPending);
      assert s[..n][1..] == rest[..n - 1];
      if KindOf(s[0], target) != NewPending {
        AllRunning(s, target);
      }
    }
  }

  lemma {:induction false} AllRunning(s: seq<Replica>, target: string)
    requires Sorted(KillLe, s) && s != [] && s[0].phase == Running
    requires forall r :: r in s ==> KindOf(r, target) in NewKinds()
    ensures Count(s, target, NewPending) == 0
    decreases |s|
  {
    CountHead(s, target, NewPending);
    assert s[0] in s;
    var rest := s[1..];
    if rest != [] {
      assert KillLe(s[0], s[1]) && s[1] in s;
      AllRunning(rest, target);
    } else {
      assert Count(rest, target, NewPending) == 0;
    }
  }

  lemma ExcessTally(replicas: seq<Replica>, target: string, excess: nat)
    requires excess <= TallyOf(replicas, target).NewLive()
    ensures var np := Min(excess, TallyOf(replicas, target).np);
            TallyOf(Excess(replicas, target, excess), target) == Tally(np, excess - np, 0, 0, 0)
  {
    hide Count;
    hide KindOf;
    var t := TallyOf(replicas, target);
    var pick := Pick(replicas, target, NewKinds());
    var s := Sort(KillLe, pick);
    KillLeTotal();
    SortSorted(KillLe, pick);
    SortMembers(KillLe, pick);
    TallyPermutation(s, pick, target);
    TallyPick(replicas, target, NewKinds());
    TallySize(s, target);
    assert |s| == t.NewLive();
    var front := s[..excess];
    forall r | r in front ensures KindOf(r, target) in NewKinds() { assert r in s; }
    OnTargetOnly(front, target);
    TakePendingFirst(s, target, excess);
    TallySize(front, target);
  }

  lemma {:induction false} AllOfKind(s: seq<Replica>, target: string, k: Kind)
    requires forall r :: r in s ==> KindOf(r, target) == k
    ensures forall j :: Count(s, target, j) == if j == k then |s| else 0
  {
    if s != [] {
      var rest := s[1..];
      assert s == [s[0]] + rest;
      AllOfKind(rest, target, k);
      forall j ensures Count(s, target, j) == if j == k then |s| else 0 { CountHead(s, target, j); }
    } else {
      forall j ensures Count(s, target, j) == 0 { }
    }
  }

  lemma TakeTally(replicas: seq<Replica>, target: string, n: nat)
    ensures TallyOf(Take(Pick(replicas, target, {OldRunning}), n), target)
         == Tally(0, 0, 0, Min(TallyOf(replicas, target).orun, n), 0)
  {
    hide Count;
    hide KindOf;
    var p := Pick(replicas, target, {OldRunning});
    TallyPick(replicas, target, {OldRunning});
    TallySize(p, target);
    AllOfKind(Take(p, n), target, OldRunning);
  }

  /** The victims add up to `VictimCount`: the kill list is pinned kind by kind. */
  lemma VictimsTally(strategy: Strategy, desired: U32, replicas: seq<Replica>, target: string)
    ensures TallyOf(Victims(strategy, desired, replicas, target), target)
         == VictimCount(strategy, desired, TallyOf(replicas, target))
  {
    hide Count;
    hide KindOf;
    hide Pick;
    var t := TallyOf(replicas, target);
    TallyPick(replicas, target, {Dead});
    var dead := Pick(replicas, target, {Dead});
    var n := SatSub(t.NewLive(), desired);
    var excess := Excess(replicas, target, n);
    ExcessTally(replicas, target, n);
    hide Excess;
    match strategy {
      case Recreate =>
        TallyPick(replicas, target, OldKinds());
        TallyAppend(dead, Pick(replicas, target, OldKinds()), target);
        TallyAppend(dead, excess, target);
      case RollingUpdate(mu, ms) =>
        var m := SatSub(t.Running(), Floor(desired, mu));
        var pending := Pick(replicas, target, {OldPending});
        var ready := Take(Pick(replicas, target, {OldRunning}), m);
        TallyPick(replicas, target, {OldPending});
        TakeTally(replicas, target, m);
        hide Take;
        TallyAppend(dead, excess, target);
        TallyAppend(dead + excess, pending, target);
        TallyAppend(dead + excess + pending, ready, target);
    }
  }

  // ---- the victims, identified -------------------------------------------------------------

  lemma {:induction false} UniqueOnce(s: seq<Replica>, x: Replica)
    requires Unique(s)
    ensures multiset(s)[x] <= 1
  {
    if s != [] {
      UniqueTail(s);
      UniqueOnce(s[1..], x);
      assert s == [s[0]] + s[1..];
      if x == s[0] { assert x !in s[1..]; }
    }
  }

  lemma UniquePermutation(a: seq<Replica>, b: seq<Replica>)
    requires Unique(a) && multiset(a) == multiset(b)
    ensures Unique(b) && forall x :: x in b <==> x in a
  {
    forall x ensures x in b <==> x in a {
      assert x in b <==> x in multiset(b);
      assert x in a <==> x in multiset(a);
    }
    forall i, j | 0 <= i < j < |b| ensures b[i].jobId != b[j].jobId {
      if b[i].jobId == b[j].jobId {
        SameIdSame(a, b[i], b[j]);
        assert b == b[..j] + b[j..];
        assert b[i] in b[..j] && b[j] in b[j..];
        UniqueOnce(a, b[i]);
      }
    }
  }

  lemma TrackedPick(replicas: seq<Replica>, target: string, ks: set<Kind>)
    requires Unique(replicas)
    ensures Tracked(Pick(replicas, target, ks), replicas)
  {
    PickUnique(replicas, target, ks);
  }

  lemma TrackedTake(s: seq<Replica>, replicas: seq<Replica>, n: nat)
    requires Tracked(s, replicas)
    ensures Tracked(Take(s, n), replicas)
    ensures forall x :: x in Take(s, n) ==> x in s
  {
  }

  lemma TrackedAppend(a: seq<Replica>, b: seq<Replica>, replicas: seq<Replica>)
    requires Unique(replicas) && Tracked(a, replicas) && Tracked(b, replicas)
    requires forall x :: x in a ==> x !in b
    ensures Tracked(a + b, replicas)
  {
    var c := a + b;
    forall i, j | 0 <= i < j < |c| ensures c[i].jobId != c[j].jobId {
      if i < |a| <= j {
        assert c[i] == a[i] && c[j] == b[j - |a|];
        assert a[i] in a && b[j - |a|] in b;
      }
    }
  }

  lemma TrackedExcess(replicas: seq<Replica>, target: string, n: nat)
    requires Unique(replicas)
    ensures Tracked(Excess(replicas, target, n), replicas)
    ensures forall v :: v in Excess(replicas, target, n) ==> KindOf(v, target) in NewKinds()
  {
    var p := Pick(replicas, target, NewKinds());
    TrackedPick(replicas, target, NewKinds());
    UniquePermutation(p, Sort(KillLe, p));
    TrackedTake(Sort(KillLe, p), replicas, n);
  }

  lemma RecreateTracked(replicas: seq<Replica>, target: string, n: nat)
    requires Unique(replicas)
    ensures Tracked(Pick(replicas, target, {Dead}) + Pick(replicas, target, OldKinds()), replicas)
    ensures Tracked(Pick(replicas, target, {Dead}) + Excess(replicas, target, n), replicas)
  {
    var dead := Pick(replicas, target, {Dead});
    TrackedPick(replicas, target, {Dead});
    TrackedPick(replicas, target, OldKinds());
    TrackedExcess(replicas, target, n);
    hide Unique, Excess, Tracked, KindOf, Count;
    TrackedAppend(dead, Pick(replicas, target, OldKinds()), replicas);
    TrackedAppend(dead, Excess(replicas, target, n), replicas);
  }

  lemma TakeMembers(s: seq<Replica>, n: nat)
    ensures forall x :: x in Take(s, n) ==> x in s
  {
  }

  lemma VictimsApart(replicas: seq<Replica>, target: string, n: nat, m: nat)
    requires Unique(replicas)
    ensures var dead, excess := Pick(replicas, target, {Dead}), Excess(replicas, target, n);
            var pending, ready := Pick(replicas, target, {OldPending}), Pick(replicas, target, {OldRunning});
            && (forall x :: x in dead + excess ==> x !in pending)
            && (forall x :: x in dead + excess + pending ==> x !in Take(ready, m))
  {
    TrackedExcess(replicas, target, n);
    TakeMembers(Pick(replicas, target, {OldRunning}), m);
    hide Unique, Excess, Tracked, KindOf, Count, Pick, Take, TallyOf;
  }

  lemma RollingTracked(replicas: seq<Replica>, target: string, n: nat, m: nat)
    requires Unique(replicas)
    ensures Tracked(Pick(replicas, target, {Dead}) + Excess(replicas, target, n) + Pick(replicas, target, {OldPending})
                    + Take(Pick(replicas, target, {OldRunning}), m), replicas)
  {
    var dead, excess := Pick(replicas, target, {Dead}), Excess(replicas, target, n);
    var pending, ready := Pick(replicas, target, {OldPending}), Pick(replicas, target, {OldRunning});
    RecreateTracked(replicas, target, n);
    TrackedPick(replicas, target, {OldPending});
    TrackedPick(replicas, target, {OldRunning});
    TrackedTake(ready, replicas, m);
    VictimsApart(replicas, target, n, m);
    hide Unique, Excess, Tracked, KindOf, Count, Pick, Take;
    TrackedAppend(dead + excess, pending, replicas);
    TrackedAppend(dead + excess + pending, Take(ready, m), replicas);
  }

  /** Every victim is tracked, and none is listed twice. */
  lemma VictimsTracked(strategy: Strategy, desired: U32, replicas: seq<Replica>, target: string)
    requires Unique(replicas)
    ensures Tracked(Victims(strategy, desired, replicas, target), replicas)
  {
    hide Count, KindOf, Tracked, Pick, Excess, Take, Unique, TallyOf;
    var t := TallyOf(replicas, target);
    var n := SatSub(t.NewLive(), desired);
    RecreateTracked(replicas, target, n);
    match strategy {
      case Recreate =>
      case RollingUpdate(mu, ms) =>
        RollingTracked(replicas, target, n, SatSub(t.Running(), Floor(desired, mu)));
    }
  }

  // ---- what survives ------------------------------------------------------------------------

  /** The fleet after the jobs in `gone` have been removed. */
  function Spare(s: seq<Replica>, gone: set<string>): seq<Replica> {
    if s == [] then []
    else if s[0].jobId in gone then Spare(s[1..], gone)
    else [s[0]] + Spare(s[1..], gone)
  }

  function IdSet(s: seq<Replica>): set<string> {
    set r | r in s :: r.jobId
  }

  lemma {:induction false} SpareMonotone(s: seq<Replica>, target: string, k: Kind, few: set<string>, many: set<string>)
    requires few <= many
    ensures Count(Spare(s, many), target, k) <= Count(Spare(s, few), target, k)
  {
    hide KindOf;
    if s != [] {
      SpareMonotone(s[1..], target, k, few, many);
      var a, b := Spare(s[1..], few), Spare(s[1..], many);
      assert ([s[0]] + a)[1..] == a && ([s[0]] + b)[1..] == b;
    }
  }

  lemma {:induction false} SpareWithout(s: seq<Replica>, id: string, gone: set<string>)
    ensures Spare(s, gone + {id}) == Spare(Without(s, id), gone)
  {
    if s != [] { SpareWithout(s[1..], id, gone); }
  }

  lemma {:induction false} SpareNone(s: seq<Replica>)
    ensures Spare(s, {}) == s
  {
    if s != [] { SpareNone(s[1..]); }
  }

  lemma SpareHead(s: seq<Replica>, v: Replica, rest: seq<Replica>)
    ensures Spare(s, IdSet([v] + rest)) == Spare(Without(s, v.jobId), IdSet(rest))
  {
    assert IdSet([v] + rest) == IdSet(rest) + {v.jobId} by {
      forall id ensures id in IdSet([v] + rest) <==> id in IdSet(rest) + {v.jobId} {
        if id == v.jobId { assert ([v] + rest)[0] in [v] + rest; }
        if id in IdSet(rest) {
          var r :| r in rest && r.jobId == id;
          assert r in [v] + rest;
        }
      }
    }
    SpareWithout(s, v.jobId, IdSet(rest));
  }

  lemma TrackedRest(victims: seq<Replica>, s: seq<Replica>)
    requires Unique(s) && Tracked(victims, s) && victims != []
    ensures var v, rest := victims[0], victims[1..];
            && v in s && Find(s, v.jobId) == Some(v)
            && Ids(victims)[0] == v.jobId && Ids(victims)[1..] == Ids(rest)
            && Unique(Without(s, v.jobId))
            && Tracked(rest, s) && Tracked(rest, Without(s, v.jobId))
  {
    var v := victims[0];
    assert v in victims;
    FindUnique(s, v);
    UniqueTail(victims);
    WithoutUnique(s, v.jobId);
    forall x | x in victims[1..] ensures x in Without(s, v.jobId) {
      assert x in victims;
    }
  }

  lemma PlusShift(x: Tally, a: Tally, b: Tally, c: Tally)
    requires a.Plus(b) == c
    ensures a.Plus(x).Plus(b) == c.Plus(x) && a.Plus(b.Plus(x)) == c.Plus(x)
  {
  }

  /** Heads are conserved: victims plus survivors are the fleet. */
  lemma {:induction false} SpareTally(s: seq<Replica>, victims: seq<Replica>, target: string)
    requires Unique(s) && Tracked(victims, s)
    ensures TallyOf(Spare(s, IdSet(victims)), target).Plus(TallyOf(victims, target)) == TallyOf(s, target)
    decreases |victims|
  {
    if victims == [] {
      SpareNothing(s, target);
      hide Count, Spare, IdSet;
    } else {
      var v, rest := victims[0], victims[1..];
      assert victims == [v] + rest;
      TrackedRest(victims, s);
      SpareHead(s, v, rest);
      hide Count, KindOf, TallyOf, Without, Spare, IdSet, Unique, Tracked, Find, Ids, One, Tally.Plus;
      TallyWithout(s, v, target);
      SpareTally(Without(s, v.jobId), rest, target);
      TallyHead(victims, target);
      PlusShift(One(KindOf(v, target)), TallyOf(Spare(Without(s, v.jobId), IdSet(rest)), target), TallyOf(rest, target),
                TallyOf(Without(s, v.jobId), target));
    }
  }

  lemma SpareNothing(s: seq<Replica>, target: string)
    ensures TallyOf(Spare(s, IdSet([])), target).Plus(TallyOf([], target)) == TallyOf(s, target)
  {
    assert IdSet([]) == {};
    SpareNone(s);
    TallyNone(target);
    hide Count, TallyOf, Spare, IdSet, KindOf, Tally.Plus;
    PlusNobody(TallyOf(s, target));
  }

  lemma PlusNobody(t: Tally)
    ensures t.Plus(Nobody()) == t
  {
  }

  // ---- done is not idle ---------------------------------------------------------------------

  /** A step that is done places nothing and kills exactly the dead: it is idle if and only if none
      are left to reap. */
  lemma DoneIdleExactly(strategy: Strategy, desired: U32, replicas: seq<Replica>, target: string)
    requires PlanStep(strategy, desired, replicas, target).done
    ensures var step := PlanStep(strategy, desired, replicas, target);
            && step.toPlace == 0 && step.toKill == Ids(Pick(replicas, target, {Dead}))
            && (step.IsIdle() <==> forall r :: r in replicas ==> !r.phase.IsTerminal())
  {
    hide Count, Excess;
    ExcessNone(replicas, target);
    NothingOld(replicas, target);
    DeadMembers(replicas, target);
    hide TallyOf, Pick;
    var dead := Pick(replicas, target, {Dead});
    var none: seq<Replica> := [];
    assert forall m: nat :: Take(none, m) == none;
    assert dead + [] == dead;
  }

  lemma NothingOld(replicas: seq<Replica>, target: string)
    requires TallyOf(replicas, target).OldLive() == 0
    ensures Pick(replicas, target, {OldPending}) == [] && Pick(replicas, target, {OldRunning}) == []
    ensures Pick(replicas, target, OldKinds()) == []
  {
    NoOld(replicas, target);
    hide Count, KindOf, Pick;
    var stale := Pick(replicas, target, OldKinds());
    TallyPick(replicas, target, OldKinds());
    TallySize(stale, target);
  }

  lemma DeadMembers(replicas: seq<Replica>, target: string)
    ensures Pick(replicas, target, {Dead}) == [] <==> forall r :: r in replicas ==> !r.phase.IsTerminal()
  {
    var dead := Pick(replicas, target, {Dead});
    if dead != [] { assert dead[0] in dead; }
    forall r | r in replicas && r.phase.IsTerminal() ensures r in dead { }
    hide Pick;
  }

  // ---- availability floor -------------------------------------------------------------------

  lemma FloorArithmetic(mu: U32, ms: U32, desired: U32, t: Tally)
    ensures var k := VictimCount(RollingUpdate(mu, ms), desired, t);
            k.AtMost(t) && t.Running() - k.Running() >= Min(t.Running(), Floor(desired, mu))
  {
  }

  /** Whichever of the planned kills of a rolling step succeed, the ready replicas left are at
      least the smaller of what was ready before and `desired - max_unavailable`. */
  lemma AvailabilityFloor(mu: U32, ms: U32, desired: U32, replicas: seq<Replica>, target: string, gone: set<string>)
    requires Unique(replicas)
    requires forall id :: id in gone ==> id in PlanStep(RollingUpdate(mu, ms), desired, replicas, target).toKill
    ensures TallyOf(Spare(replicas, gone), target).Running()
         >= Min(TallyOf(replicas, target).Running(), Floor(desired, mu))
  {
    hide Count;
    hide KindOf;
    var strategy := RollingUpdate(mu, ms);
    var victims := Victims(strategy, desired, replicas, target);
    VictimsTracked(strategy, desired, replicas, target);
    VictimsTally(strategy, desired, replicas, target);
    hide Victims;
    forall id | id in gone ensures id in IdSet(victims) {
      var i :| 0 <= i < |Ids(victims)| && Ids(victims)[i] == id;
      assert victims[i] in victims;
    }
    SpareTally(replicas, victims, target);
    FloorArithmetic(mu, ms, desired, TallyOf(replicas, target));
    SpareMonotone(replicas, target, NewRunning, gone, IdSet(victims));
    SpareMonotone(replicas, target, OldRunning, gone, IdSet(victims));
  }

  // ---- deadlock-freedom ----------------------------------------------------------------------

  /** The planner asks for nothing, is not done, and no target replica is still starting: nothing
      will ever change. */
  ghost predicate Stalled(strategy: Strategy, desired: U32, replicas: seq<Replica>, target: string) {
    var step := PlanStep(strategy, desired, replicas, target);
    step.IsIdle() && !step.done && TallyOf(replicas, target).np == 0
  }

  lemma IdleMeansNoVictims(strategy: Strategy, desired: U32, replicas: seq<Replica>, target: string)
    ensures PlanStep(strategy, desired, replicas, target).toKill == []
       <==> VictimCount(strategy, desired, TallyOf(replicas, target)).Size() == 0
  {
    hide Count;
    hide KindOf;
    VictimsTally(strategy, desired, replicas, target);
    TallySize(Victims(strategy, desired, replicas, target), target);
    hide Victims;
  }

  lemma NeverStallsRecreate(desired: U32, replicas: seq<Replica>, target: string)
    ensures !Stalled(Recreate, desired, replicas, target)
  {
    hide Count;
    hide KindOf;
    IdleMeansNoVictims(Recreate, desired, replicas, target);
    hide Victims;
  }

  lemma NeverStallsRolling(mu: U32, ms: U32, desired: U32, replicas: seq<Replica>, target: string)
    requires mu > 0 || SatAdd(desired, ms) > desired || desired == 0
    ensures !Stalled(RollingUpdate(mu, ms), desired, replicas, target)
  {
    hide Count;
    hide KindOf;
    IdleMeansNoVictims(RollingUpdate(mu, ms), desired, replicas, target);
    hide Victims;
  }

  /** `n` ready replicas of another revision. */
  function OldFleet(n: nat): seq<Replica> {
    seq(n, i requires 0 <= i < n => Replica(Decimal(i), "host", "old", Running))
  }

  lemma OldFleetTally(n: nat)
    ensures Unique(OldFleet(n)) && TallyOf(OldFleet(n), "new") == Tally(0, 0, 0, n, 0)
  {
    var s := OldFleet(n);
    forall i, j | 0 <= i < j < |s| ensures s[i].jobId != s[j].jobId {
      if s[i].jobId == s[j].jobId { DecimalInjective(i, j); }
    }
    hide Count;
    assert "old" != "new" by { assert "old"[0] != "new"[0]; }
    AllOfKind(s, "new", OldRunning);
  }

  lemma StallWitness(ms: U32, desired: U32)
    requires SatAdd(desired, ms) == desired && desired > 0
    ensures Unique(OldFleet(desired)) && Stalled(RollingUpdate(0, ms), desired, OldFleet(desired), "new")
  {
    OldFleetTally(desired);
    IdleMeansNoVictims(RollingUpdate(0, ms), desired, OldFleet(desired), "new");
    hide Victims;
    hide TallyOf;
    hide OldFleet;
  }

  /** The budgets under which a roll can wedge are exactly those with no room to move: nothing may
      be unavailable and the surge ceiling is no higher than the desired count. */
  lemma StallsExactly(mu: U32, ms: U32, desired: U32)
    ensures (exists replicas, target :: Unique(replicas) && Stalled(RollingUpdate(mu, ms), desired, replicas, target))
       <==> (mu == 0 && SatAdd(desired, ms) == desired && desired > 0)
  {
    hide Victims;
    hide TallyOf;
    if mu == 0 && SatAdd(desired, ms) == desired && desired > 0 {
      StallWitness(ms, desired);
    } else {
      forall replicas, target ensures !Stalled(RollingUpdate(mu, ms), desired, replicas, target) {
        NeverStallsRolling(mu, ms, desired, replicas, target);
      }
    }
  }
}
