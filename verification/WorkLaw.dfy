/** An exact account of the work left to do, over single ticks and over whole runs. */
module WorkLaw {
  import opened Deployments
  import opened Replicas
  import opened Driver
  import opened Ticking
  import opened Accounts
  import opened Identity

  function Distance(a: nat, b: nat): nat { if a <= b then b - a else a - b }

  /** Replicas still to place or trim, old ones to retire, dead ones to reap. */
  function WorkLeft(desired: nat, t: Tally): nat {
    Distance(t.NewLive(), desired) + t.OldLive() + t.dead
  }

  function Shortfall(desired: nat, t: Tally): nat { SatSub(desired, t.NewLive()) }

  lemma WorkArithmetic(strategy: Strategy, desired: U32, before: Tally, after: Tally, b: Books, allKilled: bool)
    requires Balanced(strategy, desired, before, after, b, allKilled)
    ensures WorkLeft(desired, after) + b.placed + b.planned.Size() + b.substituted.Size() == WorkLeft(desired, before)
    ensures Shortfall(desired, after) + b.placed == Shortfall(desired, before)
  {
  }

  /** After the refresh, every successful placement and every successful kill, planned or
      substitute, takes exactly one off the work left: nothing the tick does is ever wasted. */
  lemma TickWork<S>(dr: MeshDriver<S>, cfg: Config, w: S, h: Health, d: Deployment, target: string)
    requires Unique(h.replicas)
    ensures var t := TickOf(dr, cfg, w, h, d, target);
            && WorkLeft(d.replicas, TallyOf(t.After().replicas, target)) + |t.Placed()| + |t.Killed()|
               == WorkLeft(d.replicas, TallyOf(t.refreshed.replicas, target))
            && Shortfall(d.replicas, TallyOf(t.After().replicas, target)) + |t.Placed()|
               == Shortfall(d.replicas, TallyOf(t.refreshed.replicas, target))
  {
    hide TickOf, TallyOf, Balanced;
    var t := TickOf(dr, cfg, w, h, d, target);
    var b := TickBooks(dr, cfg, w, h, d, target);
    WorkArithmetic(d.strategy, d.replicas, TallyOf(t.refreshed.replicas, target), TallyOf(t.After().replicas, target), b, t.kills.failed == 0);
  }

  // ---- what a health refresh can do to it ----------------------------------------------------

  /** Phase changes of one refresh: deaths and revivals of on-target and of other replicas. */
  datatype Moves = Moves(newDied: nat, oldDied: nat, newRevived: nat, oldRevived: nat)

  function Move(a: Replica, b: Replica, target: string): Moves {
    var died := a.phase.IsAlive() && b.phase.IsTerminal();
    var revived := a.phase.IsTerminal() && b.phase.IsAlive();
    var onTarget := a.revision == target;
    Moves(if died && onTarget then 1 else 0, if died && !onTarget then 1 else 0,
          if revived && onTarget then 1 else 0, if revived && !onTarget then 1 else 0)
  }

  function MovesOf(a: seq<Replica>, b: seq<Replica>, target: string): Moves
    requires |a| == |b|
  {
    if a == [] then Moves(0, 0, 0, 0) else
      var m, r := Move(a[0], b[0], target), MovesOf(a[1..], b[1..], target);
      Moves(m.newDied + r.newDied, m.oldDied + r.oldDied, m.newRevived + r.newRevived, m.oldRevived + r.oldRevived)
  }

  ghost predicate Moved(x: Tally, y: Tally, m: Moves) {
    && y.NewLive() + m.newDied == x.NewLive() + m.newRevived
    && y.OldLive() + m.oldDied == x.OldLive() + m.oldRevived
    && y.dead + m.newRevived + m.oldRevived == x.dead + m.newDied + m.oldDied
  }

  lemma KindFacts(r: Replica, target: string)
    ensures var k := KindOf(r, target);
            && (k.NewPending? || k.NewRunning? <==> r.phase.IsAlive() && r.revision == target)
            && (k.OldPending? || k.OldRunning? <==> r.phase.IsAlive() && r.revision != target)
            && (k.Dead? <==> r.phase.IsTerminal())
  {
  }

  lemma OneOnTarget(k: Kind)
    ensures One(k).NewLive() == if k.NewPending? || k.NewRunning? then 1 else 0
  {
  }

  lemma OneOld(k: Kind)
    ensures One(k).OldLive() == if k.OldPending? || k.OldRunning? then 1 else 0
  {
  }

  lemma OneDead(k: Kind)
    ensures One(k).dead == if k.Dead? then 1 else 0
  {
  }

  lemma OneFacts(k: Kind)
    ensures One(k).NewLive() == if k.NewPending? || k.NewRunning? then 1 else 0
    ensures One(k).OldLive() == if k.OldPending? || k.OldRunning? then 1 else 0
    ensures One(k).dead == if k.Dead? then 1 else 0
  {
    hide One, Tally.NewLive, Tally.OldLive;
    OneOnTarget(k);
    OneOld(k);
    OneDead(k);
  }

  lemma MoveOne(a: Replica, b: Replica, target: string)
    requires a.revision == b.revision
    ensures Moved(One(KindOf(a, target)), One(KindOf(b, target)), Move(a, b, target))
  {
    hide One, KindOf, Tally.NewLive, Tally.OldLive;
    KindFacts(a, target);
    KindFacts(b, target);
    OneFacts(KindOf(a, target));
    OneFacts(KindOf(b, target));
  }

  lemma MovedPlus(x: Tally, y: Tally, m: Moves, x': Tally, y': Tally, m': Moves)
    requires Moved(x, y, m) && Moved(x', y', m')
    ensures Moved(x.Plus(x'), y.Plus(y'),
                  Moves(m'.newDied + m.newDied, m'.oldDied + m.oldDied, m'.newRevived + m.newRevived, m'.oldRevived + m.oldRevived))
  {
  }

  lemma {:induction false} MovesTally(a: seq<Replica>, b: seq<Replica>, target: string)
    requires SameFleet(a, b)
    ensures Moved(TallyOf(a, target), TallyOf(b, target), MovesOf(a, b, target))
  {
    if a == [] {
      MovesNone(a, b, target);
    } else {
      SameFleetTail(a, b);
      MovesTally(a[1..], b[1..], target);
      MovesHead(a, b, target);
    }
  }

  lemma MovesNone(a: seq<Replica>, b: seq<Replica>, target: string)
    requires a == [] && b == []
    ensures Moved(TallyOf(a, target), TallyOf(b, target), MovesOf(a, b, target))
  {
    hide Count, KindOf, TallyOf;
    TallyNone(target);
    NobodyMoved();
    hide Moved;
  }

  lemma NobodyMoved()
    ensures Moved(Nobody(), Nobody(), Moves(0, 0, 0, 0))
  {
  }

  lemma MovesHead(a: seq<Replica>, b: seq<Replica>, target: string)
    requires |a| == |b| > 0 && a[0].revision == b[0].revision
    requires Moved(TallyOf(a[1..], target), TallyOf(b[1..], target), MovesOf(a[1..], b[1..], target))
    ensures Moved(TallyOf(a, target), TallyOf(b, target), MovesOf(a, b, target))
  {
    TallyHead(a, target);
    TallyHead(b, target);
    MoveOne(a[0], b[0], target);
    hide Count, KindOf, TallyOf, Moved, One, Move, Tally.Plus;
    MovedPlus(TallyOf(a[1..], target), TallyOf(b[1..], target), MovesOf(a[1..], b[1..], target),
              One(KindOf(a[0], target)), One(KindOf(b[0], target)), Move(a[0], b[0], target));
  }

  lemma SameFleetTail(a: seq<Replica>, b: seq<Replica>)
    requires SameFleet(a, b) && a != []
    ensures b != [] && a[0].revision == b[0].revision && SameFleet(a[1..], b[1..])
  {
  }

  lemma MovedWork(desired: nat, x: Tally, y: Tally, m: Moves)
    requires Moved(x, y, m)
    ensures WorkLeft(desired, y) <= WorkLeft(desired, x) + 2 * m.newDied
    ensures Shortfall(desired, y) <= Shortfall(desired, x) + m.newDied
  {
  }

  /** On-target replicas the refresh of this tick found dead. */
  function Deaths<S>(h: Health, t: Tick<S>, target: string): nat
    requires |h.replicas| == |t.refreshed.replicas|
  {
    MovesOf(h.replicas, t.refreshed.replicas, target).newDied
  }

  /** Two units of work per on-target replica that died, and none for anything else. */
  lemma RefreshWork<S>(dr: MeshDriver<S>, cfg: Config, w: S, h: Health, d: Deployment, target: string)
    ensures var t := TickOf(dr, cfg, w, h, d, target);
            && |h.replicas| == |t.refreshed.replicas|
            && WorkLeft(d.replicas, TallyOf(t.refreshed.replicas, target))
               <= WorkLeft(d.replicas, TallyOf(h.replicas, target)) + 2 * Deaths(h, t, target)
            && Shortfall(d.replicas, TallyOf(t.refreshed.replicas, target))
               <= Shortfall(d.replicas, TallyOf(h.replicas, target)) + Deaths(h, t, target)
  {
    hide TickOf, TallyOf, Moved, WorkLeft, Shortfall;
    var t := TickOf(dr, cfg, w, h, d, target);
    RefreshSameFleet(dr, cfg, w, h, d, target);
    MovesTally(h.replicas, t.refreshed.replicas, target);
    MovedWork(d.replicas, TallyOf(h.replicas, target), TallyOf(t.refreshed.replicas, target),
              MovesOf(h.replicas, t.refreshed.replicas, target));
  }

  // ---- whole runs ------------------------------------------------------------------------------

  /** A run: tick `i` starts in world `ws[i]`, which may be anything the mesh has become meanwhile. */
  function Run<S>(dr: MeshDriver<S>, cfg: Config, ws: seq<S>, h: Health, d: Deployment, target: string): (r: seq<Tick<S>>)
    ensures |r| == |ws|
  {
    if ws == [] then [] else
      var t := TickOf(dr, cfg, ws[0], h, d, target);
      [t] + Run(dr, cfg, ws[1..], t.After(), d, target)
  }

  function EndOf<S>(h: Health, ticks: seq<Tick<S>>): Health {
    if ticks == [] then h else ticks[|ticks| - 1].After()
  }

  function Placements<S>(ticks: seq<Tick<S>>): nat {
    if ticks == [] then 0 else |ticks[0].Placed()| + Placements(ticks[1..])
  }

  function Removals<S>(ticks: seq<Tick<S>>): nat {
    if ticks == [] then 0 else |ticks[0].Killed()| + Removals(ticks[1..])
  }

  function TotalDeaths<S>(h: Health, ticks: seq<Tick<S>>, target: string): nat
    decreases |ticks|
  {
    if ticks == [] then 0
    else if |h.replicas| != |ticks[0].refreshed.replicas| then 0
    else Deaths(h, ticks[0], target) + TotalDeaths(ticks[0].After(), ticks[1..], target)
  }

  /** Between ticks the mesh may change in any way, except that it forgets no issued id. */
  ghost predicate Continues<S(!new)>(issued: (S, string) -> bool, ticks: seq<Tick<S>>, ws: seq<S>)
    requires |ticks| == |ws|
  {
    forall i :: 0 <= i < |ws| - 1 ==> Remembers(issued, ticks[i].world, ws[i + 1])
  }

  lemma OwnedLater<S(!new)>(issued: (S, string) -> bool, w: S, w': S, h: Health)
    requires Owned(issued, w, h) && Remembers(issued, w, w')
    ensures Owned(issued, w', h)
  {
  }

  lemma RunTail<S(!new)>(dr: MeshDriver<S>, issued: (S, string) -> bool, cfg: Config, ws: seq<S>, h: Health, d: Deployment, target: string)
    requires ws != [] && NeverReissues(dr, issued) && Owned(issued, ws[0], h)
    requires Continues(issued, Run(dr, cfg, ws, h, d, target), ws)
    ensures var t := TickOf(dr, cfg, ws[0], h, d, target);
            var rest := Run(dr, cfg, ws[1..], t.After(), d, target);
            && Run(dr, cfg, ws, h, d, target) == [t] + rest
            && (ws[1..] != [] ==> Owned(issued, ws[1], t.After()))
            && Continues(issued, rest, ws[1..])
            && Unique(t.After().replicas)
  {
    var t := TickOf(dr, cfg, ws[0], h, d, target);
    TickOwns(dr, issued, cfg, ws[0], h, d, target);
    var rest := Run(dr, cfg, ws[1..], t.After(), d, target);
    assert Owned(issued, t.world, t.After()) ==> Unique(t.After().replicas);
    hide TickOf, Owned, Remembers;
    var ticks := Run(dr, cfg, ws, h, d, target);
    assert ticks == [t] + rest;
    ContinuesTail(issued, t, rest, ws);
    if ws[1..] != [] {
      OwnedLater(issued, t.world, ws[1], t.After());
    }
  }

  lemma ContinuesTail<S(!new)>(issued: (S, string) -> bool, t: Tick<S>, rest: seq<Tick<S>>, ws: seq<S>)
    requires |ws| == |rest| + 1 && Continues(issued, [t] + rest, ws)
    ensures Continues(issued, rest, ws[1..])
    ensures |ws| > 1 ==> Remembers(issued, t.world, ws[1])
  {
    hide Remembers;
    var ticks := [t] + rest;
    assert |ws| > 1 ==> Remembers(issued, ticks[0].world, ws[1]);
    forall i | 0 <= i < |ws[1..]| - 1 ensures Remembers(issued, rest[i].world, ws[1..][i + 1]) {
      assert Remembers(issued, ticks[i + 1].world, ws[(i + 1) + 1]);
    }
  }

  /** Over any run, under any pattern of deploy, kill and health failures, all placements and kills
      together are paid for by the work there was plus two units per on-target death; placements
      alone by the shortfall plus one per death. With no deaths the engine cannot thrash. */
  lemma {:induction false} RunWork<S(!new)>(dr: MeshDriver<S>, issued: (S, string) -> bool, cfg: Config, ws: seq<S>, h: Health, d: Deployment, target: string)
    requires NeverReissues(dr, issued)
    requires ws != [] ==> Owned(issued, ws[0], h)
    requires Continues(issued, Run(dr, cfg, ws, h, d, target), ws)
    ensures var ticks := Run(dr, cfg, ws, h, d, target);
            && Placements(ticks) + Removals(ticks) + WorkLeft(d.replicas, TallyOf(EndOf(h, ticks).replicas, target))
               <= WorkLeft(d.replicas, TallyOf(h.replicas, target)) + 2 * TotalDeaths(h, ticks, target)
            && Placements(ticks) + Shortfall(d.replicas, TallyOf(EndOf(h, ticks).replicas, target))
               <= Shortfall(d.replicas, TallyOf(h.replicas, target)) + TotalDeaths(h, ticks, target)
    decreases |ws|
  {
    hide TickOf, TallyOf, WorkLeft, Shortfall, Deaths, Unique;
    if ws != [] {
      var t := TickOf(dr, cfg, ws[0], h, d, target);
      TickWork(dr, cfg, ws[0], h, d, target);
      RefreshWork(dr, cfg, ws[0], h, d, target);
      RunTail(dr, issued, cfg, ws, h, d, target);
      var rest := Run(dr, cfg, ws[1..], t.After(), d, target);
      RunWork(dr, issued, cfg, ws[1..], t.After(), d, target);
      var ticks := Run(dr, cfg, ws, h, d, target);
      assert ticks[0] == t && ticks[1..] == rest;
      assert rest != [] ==> ticks[|ticks| - 1] == rest[|rest| - 1];
      assert EndOf(h, ticks) == EndOf(t.After(), rest);
    }
  }
}
