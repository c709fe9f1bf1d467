/** The bounded, re-sorting placement loop: how much it places, what it reports, and how evenly it
    spreads, against a driver that accepts and rejects as it pleases. */
module PlacementLoop {
  import opened Text
  import opened Sorting
  import opened Deployments
  import opened Replicas
  import opened Placement
  import opened Driver
  import opened Ticking

  // ---- keeping the candidate list in shape ------------------------------------------------------

  lemma ChargeShape(cands: seq<Candidate>)
    requires cands != []
    ensures |Charge(cands)| == |cands|
    ensures DistinctCandidates(cands) ==> DistinctCandidates(Charge(cands))
    ensures Sorted(BetterOrEqual, Charge(cands))
    ensures forall c :: c in Charge(cands) <==> c == cands[0].(score := cands[0].score - 150) || c in cands[1..]
  {
    var charged := [cands[0].(score := cands[0].score - 150)] + cands[1..];
    BetterOrEqualTotal();
    SortSorted(BetterOrEqual, charged);
    SortMembers(BetterOrEqual, charged);
    if DistinctCandidates(cands) {
      assert DistinctCandidates(charged);
      DistinctPermutation(charged, Charge(cands));
    }
  }

  lemma {:induction false} DropAbsent(cands: seq<Candidate>, node: string)
    requires forall c :: c in cands ==> c.nodeId != node
    ensures Drop(cands, node) == cands
  {
    if cands != [] {
      assert cands[0] in cands;
      DropAbsent(cands[1..], node);
    }
  }

  /** With distinct hosts, a rejection drops exactly the head. */
  lemma DropHead(cands: seq<Candidate>)
    requires cands != [] && DistinctCandidates(cands)
    ensures Drop(cands, cands[0].nodeId) == cands[1..]
    ensures DistinctCandidates(cands[1..])
    ensures Sorted(BetterOrEqual, cands) ==> Sorted(BetterOrEqual, cands[1..])
  {
    forall c | c in cands[1..] ensures c.nodeId != cands[0].nodeId {
      var i :| 0 <= i < |cands[1..]| && cands[1..][i] == c;
      assert cands[i + 1] == c;
    }
    DropAbsent(cands[1..], cands[0].nodeId);
  }

  // ---- accounting ----------------------------------------------------------------------------

  /** How far a loop state is from where it started. */
  ghost predicate Accounted<S>(p: Placing<S>, q: Placing<S>, limit: nat) {
    && q.left <= p.left && |q.candidates| <= |p.candidates|
    && |q.placed| + q.left == |p.placed| + p.left
    && q.attempts == p.attempts + (p.left - q.left) + (|p.candidates| - |q.candidates|) + (if q.failures > 0 then 1 else 0)
    && q.attempts <= limit
    && (if q.failures > 0 then q.failures == q.left && q.candidates == [] else q.left == 0 || q.attempts == limit)
  }

  lemma {:induction false} LoopAccounting<S>(dr: MeshDriver<S>, d: Deployment, target: string, p: Placing<S>, limit: nat)
    requires DistinctCandidates(p.candidates) && p.failures == 0 && p.attempts <= limit
    ensures Accounted(p, PlaceLoop(dr, d, target, p, limit), limit)
    decreases limit - p.attempts
  {
    if p.left > 0 && p.attempts < limit && p.candidates != [] {
      ChargeShape(p.candidates);
      DropHead(p.candidates);
      hide Charge, Drop;
      LoopAccounting(dr, d, target, PlaceOne(dr, d, target, p), limit);
    }
  }

  /** The loop ends; what it placed and what it reports as failed never exceed what was wanted, and
      the two add up exactly whenever the attempts left over cover the shortfall. */
  lemma PlacementAccounting<S>(dr: MeshDriver<S>, w: S, d: Deployment, target: string, replicas: seq<Replica>,
                               cands: seq<Candidate>, want: nat)
    requires DistinctCandidates(cands)
    ensures var p := Place(dr, w, d, target, replicas, cands, want);
            && |p.placed| + p.left == want
            && |p.placed| + p.failures <= want
            && p.attempts <= MaxAttempts(want, |cands|)
            && (want <= MaxAttempts(want, |cands|) - |cands| ==> |p.placed| + p.failures == want)
  {
    LoopAccounting(dr, d, target, Placing(w, replicas, cands, [], want, 0, 0), MaxAttempts(want, |cands|));
  }

  /** In plain numbers: every shortfall is reported when at most one replica is wanted or there are
      at most three candidates per wanted replica. */
  lemma AttemptsCover(want: nat, hosts: nat)
    requires 1 <= want && 4 * want <= U32_MAX
    ensures want <= MaxAttempts(want, hosts) - hosts <==> want == 1 || hosts <= 3 * want
  {
  }

  /** A driver that counts its deploys, accepts the first `quota` and rejects every later one. */
  function Fickle(quota: nat): MeshDriver<int> {
    MeshDriver(
      (w: int) => 0,
      (w: int) => (w, None),
      (w: int, n: string, j: string, p: Option<Probe>) => (w, None),
      (w: int, n: string, j: string) => (w, false),
      (w: int, n: string, d: Deployment) => (w + 1, if w < quota then Some(n) else None),
      (w: int, s: string) => (w, false),
      (w: int, s: string) => (w, None))
  }

  lemma {:induction false} FickleLoop(quota: nat, d: Deployment, target: string, p: Placing<int>, limit: nat)
    requires p.world >= 0 && DistinctCandidates(p.candidates) && p.failures == 0 && p.attempts <= limit
    ensures var q := PlaceLoop(Fickle(quota), d, target, p, limit);
            && q.left <= p.left && p.left - q.left <= SatSub(quota, p.world)
            && (|q.candidates| < |p.candidates| ==> p.left - q.left == SatSub(quota, p.world))
            && |q.candidates| <= |p.candidates|
    decreases limit - p.attempts
  {
    if p.left > 0 && p.attempts < limit && p.candidates != [] {
      ChargeShape(p.candidates);
      DropHead(p.candidates);
      hide Charge, Drop;
      FickleLoop(quota, d, target, PlaceOne(Fickle(quota), d, target, p), limit);
    }
  }

  /** Every shortfall is reported against every driver if and only if the attempts beyond one per
      candidate cover what is wanted; `Fickle` is the driver that hides one otherwise. */
  lemma ShortfallReportedExactly(d: Deployment, target: string, cands: seq<Candidate>, want: U32)
    requires DistinctCandidates(cands)
    ensures (forall dr: MeshDriver<int> :: var p := Place(dr, 0, d, target, [], cands, want); |p.placed| + p.failures == want)
       <==> want <= MaxAttempts(want, |cands|) - |cands|
  {
    var limit := MaxAttempts(want, |cands|);
    if want <= limit - |cands| {
      forall dr: MeshDriver<int> ensures var p := Place(dr, 0, d, target, [], cands, want); |p.placed| + p.failures == want {
        PlacementAccounting(dr, 0, d, target, [], cands, want);
      }
    } else {
      var quota := limit - |cands|;
      var start := Placing(0, [], cands, [], want, 0, 0);
      LoopAccounting(Fickle(quota), d, target, start, limit);
      FickleLoop(quota, d, target, start, limit);
      var p := Place(Fickle(quota), 0, d, target, [], cands, want);
      assert |p.placed| + p.failures < want;
    }
  }

  // ---- a host that never rejects ----------------------------------------------------------------

  /** In every `open` world the host takes the deploy, and no deploy, wherever it goes, closes one. */
  ghost predicate NeverRejects<S(!new)>(dr: MeshDriver<S>, d: Deployment, node: string, open: S -> bool) {
    (forall w :: open(w) ==> dr.deploy(w, node, d).1.Some?) && forall w, n :: open(w) ==> open(dr.deploy(w, n, d).0)
  }

  ghost predicate Lists(cands: seq<Candidate>, node: string) {
    exists c :: c in cands && c.nodeId == node
  }

  lemma ChargeLists(cands: seq<Candidate>, node: string)
    requires cands != [] && DistinctCandidates(cands) && Lists(cands, node)
    ensures DistinctCandidates(Charge(cands)) && Lists(Charge(cands), node)
  {
    ChargeShape(cands);
    hide Charge;
    var c :| c in cands && c.nodeId == node;
    if c == cands[0] {
      assert cands[0].(score := cands[0].score - 150) in Charge(cands);
    } else {
      assert c in cands[1..];
      assert c in Charge(cands);
    }
  }

  lemma DropLists(cands: seq<Candidate>, node: string)
    requires cands != [] && DistinctCandidates(cands) && Lists(cands, node) && cands[0].nodeId != node
    ensures DistinctCandidates(Drop(cands, cands[0].nodeId)) && Lists(Drop(cands, cands[0].nodeId), node)
  {
    DropHead(cands);
    hide Drop;
    var c :| c in cands && c.nodeId == node;
    assert c in cands[1..];
  }

  lemma AcceptorTurn<S(!new)>(dr: MeshDriver<S>, d: Deployment, target: string, p: Placing<S>, node: string, open: S -> bool)
    requires p.left > 0 && p.candidates != []
    requires DistinctCandidates(p.candidates) && Lists(p.candidates, node) && NeverRejects(dr, d, node, open) && open(p.world)
    ensures var q := PlaceOne(dr, d, target, p); DistinctCandidates(q.candidates) && Lists(q.candidates, node) && open(q.world)
  {
    ChargeLists(p.candidates, node);
    var head := p.candidates[0].nodeId;
    if head != node { DropLists(p.candidates, node); }
    hide Charge, Drop, Lists, DistinctCandidates;
    assert head == node ==> dr.deploy(p.world, head, d).1.Some?;
  }

  lemma {:induction false} AcceptorStays<S(!new)>(dr: MeshDriver<S>, d: Deployment, target: string, p: Placing<S>, limit: nat, node: string,
                                                 open: S -> bool)
    requires DistinctCandidates(p.candidates) && Lists(p.candidates, node) && NeverRejects(dr, d, node, open) && open(p.world)
    ensures Lists(PlaceLoop(dr, d, target, p, limit).candidates, node)
    decreases limit - p.attempts
  {
    if p.left > 0 && p.attempts < limit && p.candidates != [] {
      AcceptorTurn(dr, d, target, p, node, open);
      hide Charge, Drop, Lists, DistinctCandidates, NeverRejects;
      AcceptorStays(dr, d, target, PlaceOne(dr, d, target, p), limit, node, open);
    }
  }

  /** If some ranked host never rejects, the loop places everything wanted, or at least as many as
      the attempts beyond the other hosts allow; in particular never nothing. */
  lemma AcceptorPlaces<S(!new)>(dr: MeshDriver<S>, w: S, d: Deployment, target: string, replicas: seq<Replica>,
                                cands: seq<Candidate>, want: nat, node: string, open: S -> bool)
    requires DistinctCandidates(cands) && Lists(cands, node) && NeverRejects(dr, d, node, open) && open(w)
    ensures var p := Place(dr, w, d, target, replicas, cands, want);
            && |p.placed| >= Min(want, MaxAttempts(want, |cands|) - |cands| + 1)
            && (want > 0 ==> p.placed != [])
            && (want + |cands| - 1 <= MaxAttempts(want, |cands|) ==> |p.placed| == want && p.failures == 0)
  {
    var start := Placing(w, replicas, cands, [], want, 0, 0);
    LoopAccounting(dr, d, target, start, MaxAttempts(want, |cands|));
    AcceptorStays(dr, d, target, start, MaxAttempts(want, |cands|), node, open);
  }

  // ---- spread -----------------------------------------------------------------------------------

  /** Replicas among `rs` that sit on `node`. */
  function Hits(rs: seq<Replica>, node: string): nat {
    if rs == [] then 0 else Hits(rs[..|rs| - 1], node) + (if rs[|rs| - 1].nodeId == node then 1 else 0)
  }

  /** Every listed host scores its starting score less 150 per replica received, and no host has
      received a replica that a listed host deserved more. */
  ghost predicate Greedy(base: string -> int, cands: seq<Candidate>, added: seq<Replica>) {
    && Sorted(BetterOrEqual, cands)
    && DistinctCandidates(cands)
    && (forall c :: c in cands ==> c.score == base(c.nodeId) - 150 * Hits(added, c.nodeId))
    && (forall node, c :: c in cands && Hits(added, node) >= 1 ==>
          base(node) - 150 * (Hits(added, node) - 1) >= base(c.nodeId) - 150 * Hits(added, c.nodeId))
  }

  lemma HitsPush(rs: seq<Replica>, r: Replica, node: string)
    ensures Hits(rs + [r], node) == Hits(rs, node) + (if r.nodeId == node then 1 else 0)
  {
    assert (rs + [r])[..|rs|] == rs;
  }

  lemma GreedyAccept(base: string -> int, cands: seq<Candidate>, added: seq<Replica>, r: Replica)
    requires cands != [] && Greedy(base, cands, added) && r.nodeId == cands[0].nodeId
    ensures Greedy(base, Charge(cands), added + [r])
  {
    hide Charge, Hits;
    var head := cands[0];
    ChargeShape(cands);
    forall node { HitsPush(added, r, node); }
    var after := Charge(cands);
    assert head in cands;
    forall c | c in after
      ensures c.score == base(c.nodeId) - 150 * Hits(added + [r], c.nodeId)
      ensures head.score >= c.score
    {
      if c in cands[1..] {
        var i :| 0 <= i < |cands[1..]| && cands[1..][i] == c;
        assert cands[i + 1] == c && BetterOrEqual(cands[0], cands[i + 1]);
        assert c.nodeId != head.nodeId;
      }
    }
    forall node, c | c in after && Hits(added + [r], node) >= 1
      ensures base(node) - 150 * (Hits(added + [r], node) - 1) >= base(c.nodeId) - 150 * Hits(added + [r], c.nodeId)
    {
      if node != head.nodeId {
        if c in cands[1..] {
          assert c in cands;
        } else {
          assert head in cands;
        }
      }
    }
  }

  lemma GreedyReject(base: string -> int, cands: seq<Candidate>, added: seq<Replica>)
    requires cands != [] && Greedy(base, cands, added)
    ensures Greedy(base, Drop(cands, cands[0].nodeId), added)
  {
    DropHead(cands);
    hide Drop, Hits;
    forall c | c in cands[1..] ensures c in cands { }
  }

  lemma GreedyTurn<S>(dr: MeshDriver<S>, d: Deployment, target: string, base: string -> int, replicas: seq<Replica>, p: Placing<S>)
    requires p.left > 0 && p.candidates != [] && replicas <= p.replicas
    requires Greedy(base, p.candidates, p.replicas[|replicas|..])
    ensures var q := PlaceOne(dr, d, target, p); replicas <= q.replicas && Greedy(base, q.candidates, q.replicas[|replicas|..])
  {
    var added := p.replicas[|replicas|..];
    var node := p.candidates[0].nodeId;
    var (w1, res) := dr.deploy(p.world, node, d);
    if res.Some? {
      GreedyAccept(base, p.candidates, added, Replica(res.value, node, target, Pending));
    } else {
      GreedyReject(base, p.candidates, added);
    }
    hide Charge, Drop, Greedy;
    var q := PlaceOne(dr, d, target, p);
    if res.Some? {
      assert q.replicas[|replicas|..] == added + [Replica(res.value, node, target, Pending)];
    }
  }

  lemma {:induction false} LoopGreedy<S>(dr: MeshDriver<S>, d: Deployment, target: string, base: string -> int,
                                        replicas: seq<Replica>, p: Placing<S>, limit: nat)
    requires replicas <= p.replicas
    requires Greedy(base, p.candidates, p.replicas[|replicas|..])
    ensures var q := PlaceLoop(dr, d, target, p, limit);
            replicas <= q.replicas && Greedy(base, q.candidates, q.replicas[|replicas|..])
    decreases limit - p.attempts
  {
    if p.left > 0 && p.attempts < limit && p.candidates != [] {
      GreedyTurn(dr, d, target, base, replicas, p);
      hide Charge, Drop, Greedy;
      LoopGreedy(dr, d, target, base, replicas, PlaceOne(dr, d, target, p), limit);
    }
  }

  /** Greedy balance: a host that received a replica deserved it at least as much as any host that
      was never rejected deserves its next one; so equally scored hosts that never reject end up
      within one replica of each other. */
  lemma PlacementSpreads<S>(dr: MeshDriver<S>, w: S, d: Deployment, target: string, replicas: seq<Replica>,
                            cands: seq<Candidate>, want: nat, a: Candidate, b: Candidate)
    requires Sorted(BetterOrEqual, cands) && DistinctCandidates(cands) && a in cands && b in cands
    ensures var p := Place(dr, w, d, target, replicas, cands, want);
            && replicas <= p.replicas
            && var added := p.replicas[|replicas|..];
            && var ka, kb := Hits(added, a.nodeId), Hits(added, b.nodeId);
            && (ka >= 1 && Lists(p.candidates, b.nodeId) ==> a.score - 150 * (ka - 1) >= b.score - 150 * kb)
            && (a.score == b.score && Lists(p.candidates, a.nodeId) && Lists(p.candidates, b.nodeId) ==> ka <= kb + 1 && kb <= ka + 1)
  {
    var base := (node: string) => if exists c :: c in cands && c.nodeId == node then ScoreOf(cands, node) else 0;
    forall c | c in cands ensures base(c.nodeId) == c.score {
      ScoreOfMember(cands, c);
    }
    var start := Placing(w, replicas, cands, [], want, 0, 0);
    assert replicas[|replicas|..] == [];
    assert Greedy(base, cands, []);
    LoopGreedy(dr, d, target, base, replicas, start, MaxAttempts(want, |cands|));
    hide PlaceLoop, Hits;
  }

  function ScoreOf(cands: seq<Candidate>, node: string): int {
    if cands == [] then 0 else if cands[0].nodeId == node then cands[0].score else ScoreOf(cands[1..], node)
  }

  lemma {:induction false} ScoreOfMember(cands: seq<Candidate>, c: Candidate)
    requires DistinctCandidates(cands) && c in cands
    ensures ScoreOf(cands, c.nodeId) == c.score
  {
    if cands[0].nodeId == c.nodeId {
      DistinctOnce(cands, cands[0], c);
    } else {
      assert c in cands[1..];
      ScoreOfMember(cands[1..], c);
    }
  }
}
