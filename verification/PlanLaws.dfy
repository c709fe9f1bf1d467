/** The step planner pinned down from outside: exactly what a step leaves, how much it places, when it
    is done, and in what order it kills. */
module PlanLaw {
  import opened Text
  import opened Sorting
  import opened Deployments
  import opened Replicas
  import opened Reconciling
  import opened Rollout
  import opened Planner
  import opened Reduction

  // ---- the head count in its own terms ---------------------------------------------------------------

  /** The replicas that satisfy a test, in listing order. */
  function Where(s: seq<Replica>, test: Replica -> bool): (r: seq<Replica>)
    ensures forall x :: x in r <==> x in s && test(x)
  {
    if s == [] then [] else (if test(s[0]) then [s[0]] else []) + Where(s[1..], test)
  }

  function OnTarget(phase: Phase, target: string): Replica -> bool {
    (r: Replica) => r.phase == phase && r.revision == target
  }

  function OffTarget(phase: Phase, target: string): Replica -> bool {
    (r: Replica) => r.phase == phase && r.revision != target
  }

  function DeadOnes(): Replica -> bool {
    (r: Replica) => r.phase == Failed || r.phase == Succeeded
  }

  function LiveOnes(): Replica -> bool {
    (r: Replica) => r.phase == Pending || r.phase == Running
  }

  lemma {:induction false} CountMeans(s: seq<Replica>, target: string, k: Kind, test: Replica -> bool)
    requires forall r :: r in s ==> (test(r) <==> KindOf(r, target) == k)
    ensures Count(s, target, k) == |Where(s, test)|
  {
    hide KindOf;
    if s != [] {
      assert s == [s[0]] + s[1..];
      CountMeans(s[1..], target, k, test);
      CountHead(s, target, k);
    }
  }

  /** The five counts are what they are called. */
  lemma TallyMeans(s: seq<Replica>, target: string)
    ensures TallyOf(s, target).np == |Where(s, OnTarget(Pending, target))|
    ensures TallyOf(s, target).nr == |Where(s, OnTarget(Running, target))|
    ensures TallyOf(s, target).op == |Where(s, OffTarget(Pending, target))|
    ensures TallyOf(s, target).orun == |Where(s, OffTarget(Running, target))|
    ensures TallyOf(s, target).dead == |Where(s, DeadOnes())|
  {
    hide Count, Where;
    CountMeans(s, target, NewPending, OnTarget(Pending, target));
    CountMeans(s, target, NewRunning, OnTarget(Running, target));
    CountMeans(s, target, OldPending, OffTarget(Pending, target));
    CountMeans(s, target, OldRunning, OffTarget(Running, target));
    CountMeans(s, target, Dead, DeadOnes());
  }

  // ---- what a step leaves and adds ---------------------------------------------------------------------

  /** The fleet once every kill of the step has succeeded. */
  function Left(step: Step, replicas: seq<Replica>): seq<Replica> {
    Spare(replicas, set id | id in step.toKill)
  }

  lemma LeftTally(strategy: Strategy, desired: U32, replicas: seq<Replica>, target: string)
    requires Unique(replicas)
    ensures var step := PlanStep(strategy, desired, replicas, target);
            var t := TallyOf(replicas, target);
            && TallyOf(Left(step, replicas), target).Plus(VictimCount(strategy, desired, t)) == t
            && step.toPlace == ToPlace(strategy, desired, t)
  {
    hide Count, KindOf, TallyOf, Victims, VictimCount, Spare, IdSet, Unique, Tally.Plus, ToPlace;
    var victims := Victims(strategy, desired, replicas, target);
    VictimsTracked(strategy, desired, replicas, target);
    VictimsTally(strategy, desired, replicas, target);
    KillSetIsIdSet(victims);
    SpareTally(replicas, victims, target);
  }

  /** A rolling step reaps all the dead and all pending old replicas, trims the new ones to exactly the
      desired count, pending first, and retires ready old ones exactly down to the floor; and it places
      all that is missing, as far as the surge ceiling allows. */
  lemma RollingStepExactly(mu: U32, ms: U32, desired: U32, replicas: seq<Replica>, target: string)
    requires Unique(replicas)
    ensures var step := PlanStep(RollingUpdate(mu, ms), desired, replicas, target);
            var t, left := TallyOf(replicas, target), TallyOf(Left(step, replicas), target);
            && left.dead == 0 && left.op == 0
            && left.NewLive() == Min(t.NewLive(), desired) && left.nr == Min(t.nr, desired)
            && left.orun == Max(0, Min(t.orun, desired - mu - t.nr))
            && step.toPlace == Max(0, Min(desired - t.NewLive(), Min(desired + ms, U32_MAX) - t.Live()))
  {
    hide Count, TallyOf, Left, PlanStep, Unique;
    LeftTally(RollingUpdate(mu, ms), desired, replicas, target);
  }

  /** A Recreate step reaps the dead and, while an old replica lives, kills all old ones and nothing
      else; after that it places exactly what is missing or trims exactly what is too much. */
  lemma RecreateStepExactly(desired: U32, replicas: seq<Replica>, target: string)
    requires Unique(replicas)
    ensures var step := PlanStep(Recreate, desired, replicas, target);
            var t, left := TallyOf(replicas, target), TallyOf(Left(step, replicas), target);
            && left.dead == 0 && left.OldLive() == 0
            && (t.OldLive() > 0 ==> left.np == t.np && left.nr == t.nr && step.toPlace == 0)
            && (t.OldLive() == 0 ==>
                  && left.NewLive() == Min(t.NewLive(), desired) && left.nr == Min(t.nr, desired)
                  && step.toPlace == Max(0, desired - t.NewLive()))
  {
    hide Count, TallyOf, Left, PlanStep, Unique;
    LeftTally(Recreate, desired, replicas, target);
  }

  /** Done means exactly the desired number of live replicas, every one ready and on target. */
  lemma DoneExactly(strategy: Strategy, desired: U32, replicas: seq<Replica>, target: string)
    ensures PlanStep(strategy, desired, replicas, target).done
       <==> && |Where(replicas, LiveOnes())| == desired
            && forall r :: r in replicas && !r.phase.IsTerminal() ==> r.phase == Running && r.revision == target
  {
    var t := TallyOf(replicas, target);
    LiveMeans(replicas, target);
    NoneMeans(replicas, target);
    hide Count, TallyOf, Where, Victims;
  }

  lemma {:induction false} LiveMeans(s: seq<Replica>, target: string)
    ensures |Where(s, LiveOnes())| == TallyOf(s, target).Live()
  {
    hide Count, TallyOf, KindOf, One, Tally.Live, Tally.Plus;
    if s == [] {
      TallyNone(target);
      NobodyLives();
    } else {
      LiveMeans(s[1..], target);
      LiveOne(s[0], target);
      TallyHead(s, target);
      LivePlus(TallyOf(s[1..], target), One(KindOf(s[0], target)));
    }
  }

  lemma NobodyLives()
    ensures Nobody().Live() == 0
  {
  }

  lemma LivePlus(a: Tally, b: Tally)
    ensures a.Plus(b).Live() == a.Live() + b.Live()
  {
  }

  lemma LiveOne(r: Replica, target: string)
    ensures One(KindOf(r, target)).Live() == if r.phase.IsTerminal() then 0 else 1
  {
  }

  lemma NoneMeans(s: seq<Replica>, target: string)
    ensures TallyOf(s, target).OldLive() == 0 && TallyOf(s, target).np == 0
       <==> forall r :: r in s && !r.phase.IsTerminal() ==> r.phase == Running && r.revision == target
  {
    TallyMeans(s, target);
    hide TallyOf;
    EmptyMeans(s, OnTarget(Pending, target));
    EmptyMeans(s, OffTarget(Pending, target));
    EmptyMeans(s, OffTarget(Running, target));
    hide Where;
  }

  lemma EmptyMeans(s: seq<Replica>, test: Replica -> bool)
    ensures |Where(s, test)| == 0 <==> forall r :: r in s ==> !test(r)
  {
    var w := Where(s, test);
    if |w| > 0 { assert w[0] in w; }
    forall r | r in s && test(r) ensures r in w { }
  }

  // ---- the order of the kills ----------------------------------------------------------------------------

  /** The dead first, then excess on-target replicas, then old ones: pending before ready when rolling,
      as listed under Recreate. */
  function Turn(strategy: Strategy, target: string, r: Replica): nat {
    if r.phase.IsTerminal() then 0
    else if r.revision == target then 1
    else if strategy.RollingUpdate? && r.phase == Running then 3
    else 2
  }

  /** Pending before running, and within a phase by job id. */
  predicate Sooner(a: Replica, b: Replica) {
    (a.phase == Pending && b.phase == Running) || (a.phase == b.phase && Le(a.jobId, b.jobId))
  }

  ghost predicate ListedBefore(replicas: seq<Replica>, a: Replica, b: Replica) {
    exists i, j :: 0 <= i < j < |replicas| && replicas[i] == a && replicas[j] == b
  }

  /** `a` is killed before `b` when both are. */
  ghost predicate KilledBefore(strategy: Strategy, target: string, replicas: seq<Replica>, a: Replica, b: Replica) {
    var x, y := Turn(strategy, target, a), Turn(strategy, target, b);
    x < y || (x == y && if x == 1 then Sooner(a, b) else ListedBefore(replicas, a, b))
  }

  ghost predicate InOrder(strategy: Strategy, target: string, replicas: seq<Replica>, s: seq<Replica>) {
    forall i, j :: 0 <= i < j < |s| ==> KilledBefore(strategy, target, replicas, s[i], s[j])
  }

  lemma {:induction false} PickListed(s: seq<Replica>, target: string, ks: set<Kind>, i: nat, j: nat)
    requires i < j < |Pick(s, target, ks)|
    ensures ListedBefore(s, Pick(s, target, ks)[i], Pick(s, target, ks)[j])
  {
    hide KindOf;
    var p, rest := Pick(s, target, ks), Pick(s[1..], target, ks);
    if KindOf(s[0], target) in ks {
      if i == 0 {
        assert p[j] == rest[j - 1] && rest[j - 1] in rest;
        var b :| 0 <= b < |s[1..]| && s[1..][b] == p[j];
        assert s[0] == p[0] && s[b + 1] == p[j];
      } else {
        PickListed(s[1..], target, ks, i - 1, j - 1);
        ListedLater(s, rest[i - 1], rest[j - 1]);
      }
    } else {
      PickListed(s[1..], target, ks, i, j);
      ListedLater(s, rest[i], rest[j]);
    }
  }

  lemma ListedLater(s: seq<Replica>, a: Replica, b: Replica)
    requires s != [] && ListedBefore(s[1..], a, b)
    ensures ListedBefore(s, a, b)
  {
    var i, j :| 0 <= i < j < |s[1..]| && s[1..][i] == a && s[1..][j] == b;
    assert s[i + 1] == a && s[j + 1] == b;
  }

  /** One turn's worth of kills as listed. */
  lemma PickInOrder(strategy: Strategy, target: string, s: seq<Replica>, ks: set<Kind>, turn: nat)
    requires turn != 1 && forall r :: r in Pick(s, target, ks) ==> Turn(strategy, target, r) == turn
    ensures InOrder(strategy, target, s, Pick(s, target, ks))
  {
    hide Pick, Turn;
    var p := Pick(s, target, ks);
    forall i, j | 0 <= i < j < |p| ensures KilledBefore(strategy, target, s, p[i], p[j]) {
      PickListed(s, target, ks, i, j);
      assert p[i] in p && p[j] in p;
    }
  }

  lemma ExcessInOrder(strategy: Strategy, target: string, replicas: seq<Replica>, n: nat)
    ensures InOrder(strategy, target, replicas, Excess(replicas, target, n))
  {
    var p := Pick(replicas, target, NewKinds());
    KillLeTotal();
    SortSorted(KillLe, p);
    SortMembers(KillLe, p);
    hide Sort, Pick, ListedBefore;
    var order := Sort(KillLe, p);
    forall i, j | 0 <= i < j < |order| ensures KilledBefore(strategy, target, replicas, order[i], order[j]) {
      assert order[i] in order && order[j] in order;
      KindsOf(order[i], target);
      KindsOf(order[j], target);
      assert KillLe(order[i], order[j]);
    }
  }

  lemma InOrderAppend(strategy: Strategy, target: string, replicas: seq<Replica>, a: seq<Replica>, b: seq<Replica>)
    requires InOrder(strategy, target, replicas, a) && InOrder(strategy, target, replicas, b)
    requires forall x, y :: x in a && y in b ==> Turn(strategy, target, x) < Turn(strategy, target, y)
    ensures InOrder(strategy, target, replicas, a + b)
  {
    hide Turn;
    var c := a + b;
    forall i, j | 0 <= i < j < |c| ensures KilledBefore(strategy, target, replicas, c[i], c[j]) {
      if i < |a| <= j { assert c[i] in a && c[j] in b; }
    }
  }

  lemma TurnsOf(strategy: Strategy, target: string, replicas: seq<Replica>, n: nat)
    ensures forall r :: r in Pick(replicas, target, {Dead}) ==> Turn(strategy, target, r) == 0
    ensures forall r :: r in Excess(replicas, target, n) ==> Turn(strategy, target, r) == 1
    ensures strategy.Recreate? ==> forall r :: r in Pick(replicas, target, OldKinds()) ==> Turn(strategy, target, r) == 2
    ensures strategy.RollingUpdate? ==> forall r :: r in Pick(replicas, target, {OldPending}) ==> Turn(strategy, target, r) == 2
    ensures strategy.RollingUpdate? ==> forall r :: r in Pick(replicas, target, {OldRunning}) ==> Turn(strategy, target, r) == 3
  {
    ExcessOnTarget(replicas, target, n);
    hide Excess, Pick;
  }

  lemma ExcessOnTarget(replicas: seq<Replica>, target: string, n: nat)
    ensures forall r :: r in Excess(replicas, target, n) ==> r in replicas && KindOf(r, target) in NewKinds()
  {
    SortMembers(KillLe, Pick(replicas, target, NewKinds()));
    hide Sort, Pick, KindOf;
  }

  lemma TakeInOrder(strategy: Strategy, target: string, replicas: seq<Replica>, s: seq<Replica>, n: nat)
    requires InOrder(strategy, target, replicas, s)
    ensures InOrder(strategy, target, replicas, Take(s, n)) && forall x :: x in Take(s, n) ==> x in s
  {
    hide KilledBefore;
  }

  /** The kill list of a step, as replicas: by turn, on-target ones in scale-down order, the others in
      the order they are tracked. */
  lemma KillsInOrder(strategy: Strategy, desired: U32, replicas: seq<Replica>, target: string)
    ensures PlanStep(strategy, desired, replicas, target).toKill == Ids(Victims(strategy, desired, replicas, target))
    ensures InOrder(strategy, target, replicas, Victims(strategy, desired, replicas, target))
  {
    hide Excess, Pick, Turn, InOrder, TallyOf, Take;
    var t := TallyOf(replicas, target);
    var n := SatSub(t.NewLive(), desired);
    var dead, excess := Pick(replicas, target, {Dead}), Excess(replicas, target, n);
    TurnsOf(strategy, target, replicas, n);
    PickInOrder(strategy, target, replicas, {Dead}, 0);
    ExcessInOrder(strategy, target, replicas, n);
    InOrderAppend(strategy, target, replicas, dead, excess);
    match strategy {
      case Recreate =>
        PickInOrder(strategy, target, replicas, OldKinds(), 2);
        InOrderAppend(strategy, target, replicas, dead, Pick(replicas, target, OldKinds()));
      case RollingUpdate(mu, ms) =>
        var m := SatSub(t.Running(), Floor(desired, mu));
        var pending, ready := Pick(replicas, target, {OldPending}), Pick(replicas, target, {OldRunning});
        PickInOrder(strategy, target, replicas, {OldPending}, 2);
        PickInOrder(strategy, target, replicas, {OldRunning}, 3);
        TakeInOrder(strategy, target, replicas, ready, m);
        InOrderAppend(strategy, target, replicas, dead + excess, pending);
        InOrderAppend(strategy, target, replicas, dead + excess + pending, Take(ready, m));
    }
  }

  lemma {:induction false} TakeTakesFirst(s: seq<Replica>, n: nat, a: Replica, b: Replica) returns (i: nat, j: nat)
    requires a in Take(s, n) && b in s && b !in Take(s, n)
    ensures i < j < |s| && s[i] == a && s[j] == b
  {
    i :| 0 <= i < |Take(s, n)| && Take(s, n)[i] == a;
    j :| 0 <= j < |s| && s[j] == b;
    assert forall k :: 0 <= k < |Take(s, n)| ==> Take(s, n)[k] == s[k] && s[k] in Take(s, n);
  }

  /** The trimmed on-target replicas are the first in scale-down order: whoever is spared comes later. */
  lemma TrimTakesFirst(replicas: seq<Replica>, target: string, n: nat, a: Replica, b: Replica)
    requires a in Excess(replicas, target, n) && b !in Excess(replicas, target, n)
    requires b in replicas && !b.phase.IsTerminal() && b.revision == target
    ensures Sooner(a, b)
  {
    var p := Pick(replicas, target, NewKinds());
    var order := Sort(KillLe, p);
    KillLeTotal();
    SortSorted(KillLe, p);
    SortMembers(KillLe, p);
    KindsOf(b, target);
    hide Sort, Pick, KindOf;
    var i, j := TakeTakesFirst(order, n, a, b);
    assert KillLe(order[i], order[j]) && order[i] in p;
    KindsOf(a, target);
  }

  /** The retired ready old replicas are the first tracked. */
  lemma RetireTakesFirst(replicas: seq<Replica>, target: string, m: nat, a: Replica, b: Replica)
    requires a in Take(Pick(replicas, target, {OldRunning}), m) && b !in Take(Pick(replicas, target, {OldRunning}), m)
    requires b in replicas && b.phase == Running && b.revision != target
    ensures ListedBefore(replicas, a, b)
  {
    var p := Pick(replicas, target, {OldRunning});
    assert b in p;
    hide Pick, KindOf;
    var i, j := TakeTakesFirst(p, m, a, b);
    PickListed(replicas, target, {OldRunning}, i, j);
  }

  lemma VictimByTurn(strategy: Strategy, desired: U32, replicas: seq<Replica>, target: string, r: Replica)
    requires r in Victims(strategy, desired, replicas, target)
    ensures var t := TallyOf(replicas, target);
            && (Turn(strategy, target, r) == 1 ==> r in Excess(replicas, target, SatSub(t.NewLive(), desired)))
            && (Turn(strategy, target, r) == 3 ==>
                  strategy.RollingUpdate? && r in Take(Pick(replicas, target, {OldRunning}), SatSub(t.Running(), Floor(desired, strategy.maxUnavailable))))
  {
    hide Excess, Pick, Turn, TallyOf, Take;
    TurnsOf(strategy, target, replicas, SatSub(TallyOf(replicas, target).NewLive(), desired));
    TurnThree(strategy, target, r);
    if strategy.RollingUpdate? {
      TakeMembers(Pick(replicas, target, {OldRunning}), SatSub(TallyOf(replicas, target).Running(), Floor(desired, strategy.maxUnavailable)));
    }
  }

  lemma TurnThree(strategy: Strategy, target: string, r: Replica)
    ensures Turn(strategy, target, r) == 3 ==> strategy.RollingUpdate?
  {
  }

  lemma Condemned(strategy: Strategy, desired: U32, replicas: seq<Replica>, target: string, r: Replica)
    requires Unique(replicas) && r in replicas
    ensures r.jobId in PlanStep(strategy, desired, replicas, target).toKill <==> r in Victims(strategy, desired, replicas, target)
  {
    hide Victims, Unique;
    var victims := Victims(strategy, desired, replicas, target);
    VictimsTracked(strategy, desired, replicas, target);
    if r.jobId in Ids(victims) {
      var i :| 0 <= i < |victims| && Ids(victims)[i] == r.jobId;
      assert victims[i] in victims;
      SameIdSame(replicas, victims[i], r);
    }
    if r in victims {
      var i :| 0 <= i < |victims| && victims[i] == r;
      assert Ids(victims)[i] == r.jobId;
    }
  }

  /** Of two live on-target replicas the one killed comes first in scale-down order; of two ready old
      ones under a rolling update, the one tracked first. */
  lemma SparedComeLater(strategy: Strategy, desired: U32, replicas: seq<Replica>, target: string, a: Replica, b: Replica)
    requires Unique(replicas) && a in replicas && b in replicas
    requires var step := PlanStep(strategy, desired, replicas, target); a.jobId in step.toKill && b.jobId !in step.toKill
    ensures !a.phase.IsTerminal() && !b.phase.IsTerminal() && a.revision == target && b.revision == target ==> Sooner(a, b)
    ensures strategy.RollingUpdate? && a.phase == Running && b.phase == Running && a.revision != target && b.revision != target ==>
              ListedBefore(replicas, a, b)
  {
    hide PlanStep, Excess, Pick, Take, Unique, TallyOf, Sooner, ListedBefore;
    var t := TallyOf(replicas, target);
    Condemned(strategy, desired, replicas, target, a);
    Condemned(strategy, desired, replicas, target, b);
    VictimByTurn(strategy, desired, replicas, target, a);
    if !a.phase.IsTerminal() && !b.phase.IsTerminal() && a.revision == target && b.revision == target {
      SparedFromTrim(strategy, desired, replicas, target, a, b);
      TrimTakesFirst(replicas, target, SatSub(t.NewLive(), desired), a, b);
    }
    if strategy.RollingUpdate? && a.phase == Running && b.phase == Running && a.revision != target && b.revision != target {
      var m := SatSub(t.Running(), Floor(desired, strategy.maxUnavailable));
      RetireTakesFirst(replicas, target, m, a, b);
    }
  }

  /** Where on-target replicas are trimmed at all, the whole trim is on the list. */
  lemma SparedFromTrim(strategy: Strategy, desired: U32, replicas: seq<Replica>, target: string, a: Replica, b: Replica)
    requires a in Victims(strategy, desired, replicas, target) && b !in Victims(strategy, desired, replicas, target)
    requires Turn(strategy, target, a) == 1
    ensures b !in Excess(replicas, target, SatSub(TallyOf(replicas, target).NewLive(), desired))
  {
    hide Excess, Pick, Turn, TallyOf, Take;
    TurnsOf(strategy, target, replicas, SatSub(TallyOf(replicas, target).NewLive(), desired));
  }
}
