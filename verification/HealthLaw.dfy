/** Bounded-retry health: what the error counters and phases of one controller's run mean in terms
    of everything its refreshes have seen. */
module HealthLaw {
  import opened Text
  import opened Deployments
  import opened Replicas
  import opened Rollout
  import opened Placement
  import opened Deps
  import opened Driver
  import opened Ticking
  import opened Accounts
  import opened Identity
  import opened WorkLaw

  /** One replica's history with this controller: its phase when first tracked, then every refresh
      result since, `None` for a refresh that failed. */
  datatype Track = Track(start: Phase, seen: seq<Option<Phase>>)

  /** Failed refreshes since the last success. */
  function Misses(seen: seq<Option<Phase>>): nat {
    if seen == [] || seen[|seen| - 1].Some? then 0 else Misses(seen[..|seen| - 1]) + 1
  }

  /** The last phase successfully observed, or the starting phase. */
  function LastSeen(tr: Track): Phase
    decreases |tr.seen|
  {
    if tr.seen == [] then tr.start else
      match tr.seen[|tr.seen| - 1]
      case Some(p) => p
      case None => LastSeen(Track(tr.start, tr.seen[..|tr.seen| - 1]))
  }

  /** The phase the controller should hold: what was last seen, until the misses reach the
      threshold (at least one), then `Failed`. */
  function Judge(tr: Track, threshold: nat): Phase {
    if Misses(tr.seen) >= Max(threshold, 1) then Failed else LastSeen(tr)
  }

  ghost predicate Faithful(h: Health, log: map<string, Track>, threshold: nat) {
    forall r :: r in h.replicas ==>
      && r.jobId in log
      && r.phase == Judge(log[r.jobId], threshold)
      && Streak(h.failures, r.jobId) == Misses(log[r.jobId].seen)
  }

  // ---- one refresh, replica by replica ---------------------------------------------------------

  lemma {:induction false} SetPhaseAt(s: seq<Replica>, id: string, p: Phase, i: nat)
    requires Unique(s) && i < |s|
    ensures SetPhase(s, id, p)[i] == if s[i].jobId == id then s[i].(phase := p) else s[i]
  {
    UniqueTail(s);
    if s[0].jobId == id {
      if i > 0 { assert s[i] in s[1..]; }
    } else if i > 0 {
      SetPhaseAt(s[1..], id, p, i - 1);
    }
  }

  /** What one report makes of one replica. */
  function Judged(r: Replica, misses: nat, obs: Option<Phase>, threshold: nat): Replica {
    match obs
    case Some(p) => r.(phase := p)
    case None => if misses + 1 >= Max(threshold, 1) then r.(phase := Failed) else r
  }

  function MissesAfter(misses: nat, obs: Option<Phase>): nat {
    match obs case Some(_) => 0 case None => misses + 1
  }

  lemma ReportAt(h: Health, id: string, obs: Option<Phase>, threshold: nat, i: nat)
    requires Unique(h.replicas) && i < |h.replicas|
    ensures var h' := Report(h, id, obs, threshold);
            && |h'.replicas| == |h.replicas| && Unique(h'.replicas)
            && h'.replicas[i].jobId == h.replicas[i].jobId
            && (if h.replicas[i].jobId == id
                then && h'.replicas[i] == Judged(h.replicas[i], Streak(h.failures, id), obs, threshold)
                     && Streak(h'.failures, id) == MissesAfter(Streak(h.failures, id), obs)
                else h'.replicas[i] == h.replicas[i]
                     && Streak(h'.failures, h.replicas[i].jobId) == Streak(h.failures, h.replicas[i].jobId))
  {
    match obs {
      case Some(p) =>
        SetPhaseAt(h.replicas, id, p, i);
        SetPhaseSameFleet(h.replicas, id, p);
        SameFleetIds(h.replicas, SetPhase(h.replicas, id, p));
      case None =>
        SetPhaseAt(h.replicas, id, Failed, i);
        SetPhaseSameFleet(h.replicas, id, Failed);
        SameFleetIds(h.replicas, SetPhase(h.replicas, id, Failed));
    }
  }

  lemma {:induction false} ReportAllAt(h: Health, ids: seq<string>, obs: seq<Option<Phase>>, threshold: nat, i: nat)
    requires |ids| == |obs| && Unique(h.replicas) && i < |h.replicas|
    requires forall a, b :: 0 <= a < b < |ids| ==> ids[a] != ids[b]
    ensures var h' := ReportAll(h, ids, obs, threshold);
            var id := h.replicas[i].jobId;
            && |h'.replicas| == |h.replicas|
            && (id !in ids ==> h'.replicas[i] == h.replicas[i] && Streak(h'.failures, id) == Streak(h.failures, id))
            && (forall j :: 0 <= j < |ids| && ids[j] == id ==>
                  && h'.replicas[i] == Judged(h.replicas[i], Streak(h.failures, id), obs[j], threshold)
                  && Streak(h'.failures, id) == MissesAfter(Streak(h.failures, id), obs[j]))
    decreases |ids|
  {
    if ids != [] {
      ReportAt(h, ids[0], obs[0], threshold, i);
      hide Report, Judged, MissesAfter;
      var h1 := Report(h, ids[0], obs[0], threshold);
      ReportAllAt(h1, ids[1..], obs[1..], threshold, i);
      var id := h.replicas[i].jobId;
      if ids[0] == id {
        assert forall j :: 0 <= j < |ids[1..]| ==> ids[1..][j] == ids[j + 1];
      } else {
        forall j | 0 <= j < |ids| && ids[j] == id ensures j > 0 && ids[1..][j - 1] == id && obs[1..][j - 1] == obs[j] { }
      }
    }
  }

  /** Each tracked replica gets exactly its own report. */
  lemma RefreshAt(h: Health, obs: seq<Option<Phase>>, threshold: nat, i: nat)
    requires |obs| == |h.replicas| && Unique(h.replicas) && i < |h.replicas|
    ensures var h' := Refresh(h, obs, threshold);
            var r := h.replicas[i];
            && |h'.replicas| == |h.replicas|
            && h'.replicas[i] == Judged(r, Streak(h.failures, r.jobId), obs[i], threshold)
            && Streak(h'.failures, r.jobId) == MissesAfter(Streak(h.failures, r.jobId), obs[i])
  {
    var ids := Ids(h.replicas);
    ReportAllAt(h, ids, obs, threshold, i);
    assert ids[i] == h.replicas[i].jobId;
    ReportAllSameFleet(h, ids, obs, threshold);
    hide ReportAll, Judged, MissesAfter;
    var h1 := ReportAll(h, ids, obs, threshold);
    SameFleetIds(h.replicas, h1.replicas);
    assert Ids(h1.replicas)[i] == h.replicas[i].jobId;
  }

  // ---- the log ---------------------------------------------------------------------------------

  function IndexOf(ids: seq<string>, id: string): nat {
    if ids == [] || ids[0] == id then 0 else IndexOf(ids[1..], id) + 1
  }

  lemma {:induction false} IndexOfUnique(ids: seq<string>, i: nat)
    requires i < |ids| && forall a, b :: 0 <= a < b < |ids| ==> ids[a] != ids[b]
    ensures IndexOf(ids, ids[i]) == i
  {
    if i > 0 { IndexOfUnique(ids[1..], i - 1); }
  }

  /** Every tracked replica's log grows by what this refresh saw of it. */
  function LogRefresh(log: map<string, Track>, ids: seq<string>, obs: seq<Option<Phase>>): map<string, Track>
    requires |ids| == |obs|
  {
    map id | id in log && id in ids && IndexOf(ids, id) < |obs| :: Track(log[id].start, log[id].seen + [obs[IndexOf(ids, id)]])
  }

  /** Replicas placed by the tick start a log of their own, pending and never refreshed. */
  function LogTick(log: map<string, Track>, after: seq<Replica>): map<string, Track> {
    map id | id in Ids(after) :: if id in log then log[id] else Track(Pending, [])
  }

  lemma JudgeStep(tr: Track, obs: Option<Phase>, threshold: nat, r: Replica)
    requires r.phase == Judge(tr, threshold)
    ensures var tr' := Track(tr.start, tr.seen + [obs]);
            && Judged(r, Misses(tr.seen), obs, threshold).phase == Judge(tr', threshold)
            && MissesAfter(Misses(tr.seen), obs) == Misses(tr'.seen)
  {
    assert (tr.seen + [obs])[..|tr.seen|] == tr.seen;
  }

  lemma RefreshFaithfulAt(h: Health, obs: seq<Option<Phase>>, threshold: nat, log: map<string, Track>, i: nat)
    requires |obs| == |h.replicas| && Unique(h.replicas) && Faithful(h, log, threshold) && i < |h.replicas|
    ensures var h' := Refresh(h, obs, threshold);
            var log' := LogRefresh(log, Ids(h.replicas), obs);
            && |h'.replicas| == |h.replicas|
            && var r' := h'.replicas[i];
            && r'.jobId in log' && r'.phase == Judge(log'[r'.jobId], threshold)
            && Streak(h'.failures, r'.jobId) == Misses(log'[r'.jobId].seen)
  {
    var r := h.replicas[i];
    assert r in h.replicas && Ids(h.replicas)[i] == r.jobId;
    RefreshAt(h, obs, threshold, i);
    IndexOfUnique(Ids(h.replicas), i);
    JudgeStep(log[r.jobId], obs[i], threshold, r);
    hide Refresh, Judge, Misses, Unique;
  }

  lemma RefreshFaithful(h: Health, obs: seq<Option<Phase>>, threshold: nat, log: map<string, Track>)
    requires |obs| == |h.replicas| && Unique(h.replicas) && Faithful(h, log, threshold)
    ensures Faithful(Refresh(h, obs, threshold), LogRefresh(log, Ids(h.replicas), obs), threshold)
  {
    forall i: nat | i < |h.replicas| { RefreshFaithfulAt(h, obs, threshold, log, i); }
    var h' := Refresh(h, obs, threshold);
    var log' := LogRefresh(log, Ids(h.replicas), obs);
    ReportAllSameFleet(h, Ids(h.replicas), obs, threshold);
    assert |h'.replicas| == |h.replicas|;
    hide Refresh, Judge, Misses, Unique, LogRefresh;
    forall r' | r' in h'.replicas
      ensures r'.jobId in log' && r'.phase == Judge(log'[r'.jobId], threshold)
              && Streak(h'.failures, r'.jobId) == Misses(log'[r'.jobId].seen)
    {
      var i :| 0 <= i < |h'.replicas| && h'.replicas[i] == r';
    }
  }

  // ---- the tick --------------------------------------------------------------------------------

  lemma {:induction false} PlaceLoopNew<S(!new)>(dr: MeshDriver<S>, issued: (S, string) -> bool, d: Deployment, target: string,
                                                p: Placing<S>, limit: nat)
    requires NeverReissues(dr, issued)
    ensures var q := PlaceLoop(dr, d, target, p, limit);
            forall r :: r in q.replicas ==> r in p.replicas || (r.phase == Pending && !issued(p.world, r.jobId))
    decreases limit - p.attempts
  {
    hide Charge, Drop;
    if p.left > 0 && p.attempts < limit && p.candidates != [] {
      var node := p.candidates[0].nodeId;
      var (w1, res) := dr.deploy(p.world, node, d);
      var q := PlaceOne(dr, d, target, p);
      assert Remembers(issued, p.world, w1);
      PlaceLoopNew(dr, issued, d, target, q, limit);
      hide PlaceLoop;
      assert res.Some? ==> !issued(p.world, res.value);
    }
  }

  lemma PlaceStageNew<S(!new)>(dr: MeshDriver<S>, issued: (S, string) -> bool, w: S, d: Deployment, target: string, maxStale: nat,
                               replicas: seq<Replica>, want: nat, gate: Gate)
    requires NeverReissues(dr, issued)
    ensures var p := PlaceStage(dr, w, d, target, maxStale, replicas, want, gate).1;
            forall r :: r in p.replicas ==> r in replicas || (r.phase == Pending && !issued(w, r.jobId))
  {
    hide Rank, PlaceLoop;
    if want > 0 && gate.Ready? {
      var (w1, candidates) := RankedHosts(dr, w, d, maxStale);
      assert Remembers(issued, w, w1);
      PlaceLoopNew(dr, issued, d, target, Placing(w1, replicas, candidates, [], want, 0, 0), MaxAttempts(want, |candidates|));
    }
  }

  /** After a tick, what is tracked was refreshed this tick or is pending with a brand-new id. */
  lemma AfterMembers<S(!new)>(dr: MeshDriver<S>, issued: (S, string) -> bool, cfg: Config, w: S, h: Health, d: Deployment, target: string)
    requires NeverReissues(dr, issued) && Owned(issued, w, h)
    ensures var t := TickOf(dr, cfg, w, h, d, target);
            forall r :: r in t.After().replicas ==>
              || r in t.refreshed.replicas
              || (r.phase == Pending && r.jobId !in t.refreshed.failures && r.jobId !in Ids(h.replicas))
  {
    var t := TickOf(dr, cfg, w, h, d, target);
    var w2 := RefreshOwned(dr, issued, cfg, w, h, d, target);
    RefreshSameFleet(dr, cfg, w, h, d, target);
    var w2' := TickStages(dr, cfg, w, h, d, target);
    hide TickOf, RunKills, Substitute, PlaceStage, PlanStep;
    RunKillsShrinks(dr, issued, w2, t.refreshed.replicas, t.step.toKill);
    SubstituteShrinks(dr, issued, t.kills, t.step.toKill, d.replicas, target);
    PlaceStageNew(dr, issued, t.substitutes.world, d, target, cfg.maxStaleSecs, t.substitutes.replicas, t.step.toPlace, t.gate);
    hide NeverReissues;
    forall r | r in t.After().replicas && r !in t.refreshed.replicas
      ensures r.phase == Pending && r.jobId !in t.refreshed.failures && r.jobId !in Ids(h.replicas)
    {
      NewIsNew(issued, w2, t.refreshed, t.substitutes.world, r.jobId);
    }
  }

  lemma NewIsNew<S(!new)>(issued: (S, string) -> bool, w: S, h: Health, w': S, id: string)
    requires Owned(issued, w, h) && Remembers(issued, w, w') && !issued(w', id)
    ensures id !in h.failures && id !in Ids(h.replicas)
  {
    assert !issued(w, id);
    forall i | 0 <= i < |h.replicas| ensures Ids(h.replicas)[i] != id {
      assert h.replicas[i] in h.replicas;
    }
  }

  function LogAfter<S>(dr: MeshDriver<S>, cfg: Config, w: S, h: Health, d: Deployment, target: string, log: map<string, Track>): map<string, Track> {
    LogTick(LogRefresh(log, Ids(h.replicas), ObserveAll(dr, w, h.replicas, d.liveness).1),
            TickOf(dr, cfg, w, h, d, target).After().replicas)
  }

  /** Counters and phases stay faithful to the log through a tick: right after the refresh, and at
      its end. */
  lemma TickFaithful<S(!new)>(dr: MeshDriver<S>, issued: (S, string) -> bool, cfg: Config, w: S, h: Health, d: Deployment, target: string,
                              log: map<string, Track>)
    requires NeverReissues(dr, issued) && Owned(issued, w, h) && Faithful(h, log, cfg.failureThreshold)
    ensures var t := TickOf(dr, cfg, w, h, d, target);
            var obs := ObserveAll(dr, w, h.replicas, d.liveness).1;
            && Faithful(t.refreshed, LogRefresh(log, Ids(h.replicas), obs), cfg.failureThreshold)
            && Faithful(t.After(), LogAfter(dr, cfg, w, h, d, target, log), cfg.failureThreshold)
  {
    var t := TickOf(dr, cfg, w, h, d, target);
    var obs := ObserveAll(dr, w, h.replicas, d.liveness).1;
    RefreshFaithful(h, obs, cfg.failureThreshold, log);
    assert t.refreshed == Refresh(h, obs, cfg.failureThreshold);
    AfterMembers(dr, issued, cfg, w, h, d, target);
    hide TickOf, ObserveAll, Refresh;
    var log1 := LogRefresh(log, Ids(h.replicas), obs);
    AfterFaithful(t.refreshed, t.After(), Ids(h.replicas), log1, cfg.failureThreshold);
  }

  lemma AfterFaithful(before: Health, after: Health, ids: seq<string>, log: map<string, Track>, threshold: nat)
    requires Faithful(before, log, threshold) && after.failures == before.failures
    requires forall id :: id in log ==> id in ids
    requires forall r :: r in after.replicas ==>
               r in before.replicas || (r.phase == Pending && r.jobId !in before.failures && r.jobId !in ids)
    ensures Faithful(after, LogTick(log, after.replicas), threshold)
  {
    var log' := LogTick(log, after.replicas);
    forall r | r in after.replicas
      ensures r.jobId in log' && r.phase == Judge(log'[r.jobId], threshold) && Streak(after.failures, r.jobId) == Misses(log'[r.jobId].seen)
    {
      var i :| 0 <= i < |after.replicas| && after.replicas[i] == r;
      assert Ids(after.replicas)[i] == r.jobId;
    }
  }

  /** Counters of replicas no longer tracked are forgotten. */
  lemma CountersAreTracked<S>(dr: MeshDriver<S>, cfg: Config, w: S, h: Health, d: Deployment, target: string)
    ensures var t := TickOf(dr, cfg, w, h, d, target);
            forall id :: id in t.refreshed.failures ==> exists r :: r in t.refreshed.replicas && r.jobId == id
  {
    hide ObserveAll, ReportAll, ObserveDeps, GateOf, PlanStep, RunKills, Substitute, PlaceStage, Advertise;
    var t := TickOf(dr, cfg, w, h, d, target);
    forall id | id in t.refreshed.failures ensures exists r :: r in t.refreshed.replicas && r.jobId == id {
      assert id in Ids(t.refreshed.replicas);
      var i :| 0 <= i < |t.refreshed.replicas| && Ids(t.refreshed.replicas)[i] == id;
      assert t.refreshed.replicas[i] in t.refreshed.replicas;
    }
  }

  /** A replica the refresh has condemned is on the kill list of that very tick. */
  lemma CondemnedIsScheduled(strategy: Strategy, desired: U32, replicas: seq<Replica>, target: string, r: Replica)
    requires r in replicas && r.phase.IsTerminal()
    ensures r.jobId in PlanStep(strategy, desired, replicas, target).toKill
  {
    PlannedIds(strategy, desired, replicas, target);
    var dead := Pick(replicas, target, {Dead});
    assert KindOf(r, target) == Dead && r in dead;
    DeadFirst(strategy, desired, replicas, target);
    hide Victims, PlanStep, Pick;
    var victims := Victims(strategy, desired, replicas, target);
    var i :| 0 <= i < |dead| && dead[i] == r;
    assert victims[i] == dead[i];
    assert Ids(victims)[i] == r.jobId;
  }

  lemma DeadFirst(strategy: Strategy, desired: U32, replicas: seq<Replica>, target: string)
    ensures Pick(replicas, target, {Dead}) <= Victims(strategy, desired, replicas, target)
  {
    hide TallyOf, Pick, Excess;
  }

  // ---- whole runs --------------------------------------------------------------------------------

  function LogOfRun<S>(dr: MeshDriver<S>, cfg: Config, ws: seq<S>, h: Health, d: Deployment, target: string, log: map<string, Track>): map<string, Track>
    decreases |ws|
  {
    if ws == [] then log else
      LogOfRun(dr, cfg, ws[1..], TickOf(dr, cfg, ws[0], h, d, target).After(), d, target,
               LogAfter(dr, cfg, ws[0], h, d, target, log))
  }

  /** Over one controller's run: a tracked replica's error counter is its current streak of failed
      refreshes, and its phase is the last one successfully observed exactly until that streak
      reaches the threshold, when it is failed. */
  lemma {:induction false} RunFaithful<S(!new)>(dr: MeshDriver<S>, issued: (S, string) -> bool, cfg: Config, ws: seq<S>,
                                               h: Health, d: Deployment, target: string, log: map<string, Track>)
    requires NeverReissues(dr, issued)
    requires ws != [] ==> Owned(issued, ws[0], h)
    requires Continues(issued, Run(dr, cfg, ws, h, d, target), ws)
    requires Faithful(h, log, cfg.failureThreshold)
    ensures Faithful(EndOf(h, Run(dr, cfg, ws, h, d, target)), LogOfRun(dr, cfg, ws, h, d, target, log), cfg.failureThreshold)
    decreases |ws|
  {
    hide TickOf, Faithful, LogAfter, Owned, Unique;
    if ws != [] {
      var t := TickOf(dr, cfg, ws[0], h, d, target);
      TickFaithful(dr, issued, cfg, ws[0], h, d, target, log);
      RunTail(dr, issued, cfg, ws, h, d, target);
      var rest := Run(dr, cfg, ws[1..], t.After(), d, target);
      RunFaithful(dr, issued, cfg, ws[1..], t.After(), d, target, LogAfter(dr, cfg, ws[0], h, d, target, log));
      var ticks := Run(dr, cfg, ws, h, d, target);
      assert ticks[0] == t && ticks[1..] == rest;
      assert rest != [] ==> ticks[|ticks| - 1] == rest[|rest| - 1];
      assert EndOf(h, ticks) == EndOf(t.After(), rest);
    }
  }

  /** A controller that adopts replicas with no counters yet starts out faithful. */
  lemma AdoptionFaithful(replicas: seq<Replica>, threshold: nat)
    requires Unique(replicas)
    ensures Faithful(Health(replicas, map[]),
                     map r | r in replicas :: r.jobId := Track(r.phase, []), threshold)
  {
  }
}
