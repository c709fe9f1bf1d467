/** How many replicas one tick can put on one host, exactly, and so when it cannot over-commit. */
module OvercommitLaw {
  import opened Text
  import opened Sorting
  import opened Deployments
  import opened Replicas
  import opened Placement
  import opened Driver
  import opened Ticking
  import opened PlacementLoop

  // ---- node sets ---------------------------------------------------------------------------------

  function Listing(cands: seq<Candidate>): set<string> {
    set c | c in cands :: c.nodeId
  }

  function HitNodes(added: seq<Replica>): set<string> {
    set r | r in added :: r.nodeId
  }

  lemma {:induction false} ListingSize(cands: seq<Candidate>)
    requires DistinctCandidates(cands)
    ensures |Listing(cands)| == |cands|
  {
    if cands != [] {
      var rest := cands[1..];
      assert cands == [cands[0]] + rest;
      ListingSize(rest);
      assert Listing(cands) == {cands[0].nodeId} + Listing(rest);
    }
  }

  lemma {:induction false} HitsMember(added: seq<Replica>, node: string)
    ensures Hits(added, node) > 0 <==> node in HitNodes(added)
    decreases |added|
  {
    if added != [] {
      HitsMember(added[..|added| - 1], node);
      HitNodesLast(added);
      hide HitNodes;
    }
  }

  lemma HitNodesLast(added: seq<Replica>)
    requires added != []
    ensures HitNodes(added) == HitNodes(added[..|added| - 1]) + {added[|added| - 1].nodeId}
  {
    assert added == added[..|added| - 1] + [added[|added| - 1]];
  }

  /** Every host served but `node` took at least one of the rest. */
  lemma {:induction false} HitsMeans(added: seq<Replica>, node: string)
    ensures Hits(added, node) > 0 <==> node in HitNodes(added)
    ensures |HitNodes(added) - {node}| + Hits(added, node) <= |added|
    decreases |added|
  {
    HitsMember(added, node);
    if added != [] {
      var before, last := HitNodes(added[..|added| - 1]), added[|added| - 1].nodeId;
      HitNodesLast(added);
      HitsMeans(added[..|added| - 1], node);
      hide HitNodes;
      OneMore(before, last, node);
    }
  }

  lemma OneMore(s: set<string>, last: string, node: string)
    ensures |s + {last} - {node}| <= |s - {node}| + (if last == node then 0 else 1)
  {
    if last == node {
      assert s + {last} - {node} == s - {node};
    } else {
      assert s + {last} - {node} == (s - {node}) + {last};
    }
  }

  // ---- who is served first -------------------------------------------------------------------------

  /** The other candidates that come before `c` once it has been charged for `k` replicas. */
  function Before(cands: seq<Candidate>, c: Candidate, k: int): set<string> {
    set x | x in cands && x.nodeId != c.nodeId && BetterOrEqual(x, c.(score := c.score - 150 * k)) :: x.nodeId
  }

  lemma BeforeGrows(cands: seq<Candidate>, c: Candidate, few: int, many: int)
    requires few <= many
    ensures Before(cands, c, few) <= Before(cands, c, many)
    ensures |Before(cands, c, few)| <= |Before(cands, c, many)|
  {
    SubsetSize(Before(cands, c, few), Before(cands, c, many));
  }

  /** With the attempts the loop has, `c` can be given `k` replicas: one attempt each, and one for
      every candidate that has to be out of the way before the last of them. */
  predicate Reachable(cands: seq<Candidate>, c: Candidate, want: nat, k: nat) {
    1 <= k <= want && k + |Before(cands, c, k - 1)| <= MaxAttempts(want, |cands|)
  }

  // ---- the loop's books, host by host -----------------------------------------------------------------

  /** What has been placed since `replicas`. */
  function Added(replicas: seq<Replica>, after: seq<Replica>): seq<Replica> {
    if |replicas| <= |after| then after[|replicas|..] else []
  }

  ghost predicate ScoresOf(base: string -> int, cands: seq<Candidate>) {
    forall c :: c in cands ==> base(c.nodeId) == c.score
  }

  ghost predicate Booked<S>(base: string -> int, cands: seq<Candidate>, replicas: seq<Replica>, p: Placing<S>) {
    var added := Added(replicas, p.replicas);
    && replicas <= p.replicas && Greedy(base, p.candidates, added)
    && Listing(p.candidates) <= Listing(cands) && HitNodes(added) <= Listing(cands)
    && p.attempts == |added| + |cands| - |p.candidates|
  }

  lemma HeadIsBest(base: string -> int, cands: seq<Candidate>, c: Candidate, now: seq<Candidate>, added: seq<Replica>, x: Candidate)
    requires ScoresOf(base, cands) && Greedy(base, now, added) && now != []
    requires c in cands && now[0].nodeId == c.nodeId
    requires x in cands && x.nodeId != c.nodeId && BetterOrEqual(x, c.(score := c.score - 150 * Hits(added, c.nodeId)))
    requires x.nodeId in Listing(now)
    ensures Hits(added, x.nodeId) > 0
  {
    hide Hits;
    var y :| y in now && y.nodeId == x.nodeId;
    var i :| 0 <= i < |now| && now[i] == y;
    assert BetterOrEqual(now[0], now[i]);
    assert now[0].score == c.score - 150 * Hits(added, c.nodeId);
    if Le(x.nodeId, c.nodeId) && Le(c.nodeId, x.nodeId) { LeAntisymmetric(x.nodeId, c.nodeId); }
  }

  lemma AheadIsSpent(base: string -> int, cands: seq<Candidate>, c: Candidate, now: seq<Candidate>, added: seq<Replica>)
    requires ScoresOf(base, cands) && Greedy(base, now, added) && now != []
    requires c in cands && now[0].nodeId == c.nodeId
    ensures Before(cands, c, Hits(added, c.nodeId)) <= (Listing(cands) - Listing(now)) + (HitNodes(added) - {c.nodeId})
  {
    hide Hits, BetterOrEqual, Greedy, Listing, HitNodes, ScoresOf;
    var h := Hits(added, c.nodeId);
    forall x | x in cands && x.nodeId != c.nodeId && BetterOrEqual(x, c.(score := c.score - 150 * h))
      ensures x.nodeId in (Listing(cands) - Listing(now)) + (HitNodes(added) - {c.nodeId})
    {
      ListedNode(cands, x);
      if x.nodeId in Listing(now) {
        HeadIsBest(base, cands, c, now, added, x);
        HitsMeans(added, x.nodeId);
      }
    }
  }

  lemma ListedNode(cands: seq<Candidate>, x: Candidate)
    requires x in cands
    ensures x.nodeId in Listing(cands)
  {
  }

  lemma SpentSize(ahead: set<string>, all: set<string>, now: set<string>, hit: set<string>)
    requires now <= all && ahead <= (all - now) + hit
    ensures |ahead| <= |all| - |now| + |hit|
  {
    SubsetSize(ahead, (all - now) + hit);
    assert |all - now| == |all| - |now|;
    assert |(all - now) + hit| <= |all - now| + |hit|;
  }

  /** Before a host is served, everyone ahead of it was served or dropped, at an attempt each. */
  lemma ServedInTurn<S>(base: string -> int, cands: seq<Candidate>, replicas: seq<Replica>, p: Placing<S>, c: Candidate)
    requires ScoresOf(base, cands) && DistinctCandidates(cands) && Booked(base, cands, replicas, p) && p.candidates != []
    requires c in cands && p.candidates[0].nodeId == c.nodeId
    ensures var h := Hits(Added(replicas, p.replicas), c.nodeId); h + |Before(cands, c, h)| <= p.attempts
  {
    hide Hits, Before, Listing, HitNodes, ScoresOf, Added;
    var added := Added(replicas, p.replicas);
    assert DistinctCandidates(p.candidates);
    hide Greedy;
    ListingSize(cands);
    ListingSize(p.candidates);
    HitsMeans(added, c.nodeId);
    AheadIsSpent(base, cands, c, p.candidates, added);
    SpentSize(Before(cands, c, Hits(added, c.nodeId)), Listing(cands), Listing(p.candidates), HitNodes(added) - {c.nodeId});
  }

  /** What the turn of the loop adds. */
  function TurnAdds<S>(dr: MeshDriver<S>, d: Deployment, target: string, p: Placing<S>): seq<Replica>
    requires p.candidates != []
  {
    match dr.deploy(p.world, p.candidates[0].nodeId, d).1
    case Some(id) => [Replica(id, p.candidates[0].nodeId, target, Pending)]
    case None => []
  }

  lemma TurnShape<S>(dr: MeshDriver<S>, d: Deployment, target: string, replicas: seq<Replica>, p: Placing<S>)
    requires p.left > 0 && p.candidates != [] && DistinctCandidates(p.candidates) && replicas <= p.replicas
    ensures var q := PlaceOne(dr, d, target, p);
            && Added(replicas, q.replicas) == Added(replicas, p.replicas) + TurnAdds(dr, d, target, p)
            && q.attempts == p.attempts + 1
            && |q.candidates| == |p.candidates| - 1 + |TurnAdds(dr, d, target, p)|
            && Listing(q.candidates) <= Listing(p.candidates)
  {
    hide Charge, Drop;
    ChargeShape(p.candidates);
    DropHead(p.candidates);
    var q := PlaceOne(dr, d, target, p);
    assert p.candidates[0] in p.candidates;
    hide DistinctCandidates;
    forall c | c in q.candidates ensures c.nodeId in Listing(p.candidates) { }
  }

  lemma HitNodesPush(added: seq<Replica>, more: seq<Replica>)
    ensures HitNodes(added + more) == HitNodes(added) + HitNodes(more)
  {
  }

  lemma TurnNodes<S>(dr: MeshDriver<S>, d: Deployment, target: string, p: Placing<S>)
    requires p.candidates != []
    ensures HitNodes(TurnAdds(dr, d, target, p)) <= Listing(p.candidates)
  {
    assert p.candidates[0] in p.candidates;
  }

  lemma BookedTurn<S>(dr: MeshDriver<S>, d: Deployment, target: string, base: string -> int, cands: seq<Candidate>,
                      replicas: seq<Replica>, p: Placing<S>)
    requires Booked(base, cands, replicas, p) && p.left > 0 && p.candidates != []
    ensures Booked(base, cands, replicas, PlaceOne(dr, d, target, p))
    ensures Added(replicas, PlaceOne(dr, d, target, p).replicas) == Added(replicas, p.replicas) + TurnAdds(dr, d, target, p)
  {
    assert DistinctCandidates(p.candidates);
    hide Greedy, Hits, Listing, HitNodes, PlaceOne, TurnAdds;
    GreedyTurn(dr, d, target, base, replicas, p);
    TurnShape(dr, d, target, replicas, p);
    TurnNodes(dr, d, target, p);
    HitNodesPush(Added(replicas, p.replicas), TurnAdds(dr, d, target, p));
  }

  /** No host has more than it can reach. */
  ghost predicate Bounded(cands: seq<Candidate>, added: seq<Replica>, limit: nat) {
    forall c :: c in cands && Hits(added, c.nodeId) >= 1 ==>
      Hits(added, c.nodeId) + |Before(cands, c, Hits(added, c.nodeId) - 1)| <= limit
  }

  lemma BoundedTurn(cands: seq<Candidate>, added: seq<Replica>, limit: nat, r: Replica)
    requires Bounded(cands, added, limit)
    requires forall c :: c in cands && c.nodeId == r.nodeId ==> Hits(added, c.nodeId) + |Before(cands, c, Hits(added, c.nodeId))| < limit
    ensures Bounded(cands, added + [r], limit)
  {
    hide Hits, Before;
    forall c | c in cands && Hits(added + [r], c.nodeId) >= 1
      ensures Hits(added + [r], c.nodeId) + |Before(cands, c, Hits(added + [r], c.nodeId) - 1)| <= limit
    {
      HitsPush(added, r, c.nodeId);
    }
  }

  lemma {:induction false} LoopBounded<S>(dr: MeshDriver<S>, d: Deployment, target: string, base: string -> int, cands: seq<Candidate>,
                                         replicas: seq<Replica>, p: Placing<S>, limit: nat)
    requires ScoresOf(base, cands) && DistinctCandidates(cands)
    requires Booked(base, cands, replicas, p) && Bounded(cands, Added(replicas, p.replicas), limit)
    ensures var q := PlaceLoop(dr, d, target, p, limit);
            && replicas <= q.replicas && HitNodes(Added(replicas, q.replicas)) <= Listing(cands)
            && Bounded(cands, Added(replicas, q.replicas), limit)
            && |Added(replicas, q.replicas)| + q.left == |Added(replicas, p.replicas)| + p.left
    decreases limit - p.attempts
  {
    hide Bounded, Charge, Drop, Hits, Before, Listing, HitNodes, Greedy, DistinctCandidates, ScoresOf;
    if p.left > 0 && p.attempts < limit && p.candidates != [] {
      BookedTurn(dr, d, target, base, cands, replicas, p);
      var added, more := Added(replicas, p.replicas), TurnAdds(dr, d, target, p);
      if more != [] {
        forall c | c in cands && c.nodeId == p.candidates[0].nodeId
          ensures Hits(added, c.nodeId) + |Before(cands, c, Hits(added, c.nodeId))| < limit
        {
          ServedInTurn(base, cands, replicas, p, c);
        }
        BoundedTurn(cands, added, limit, more[0]);
      }
      assert added + more == if more == [] then added else added + [more[0]];
      hide Booked, Added;
      LoopBounded(dr, d, target, base, cands, replicas, PlaceOne(dr, d, target, p), limit);
    }
  }

  function BaseOf(cands: seq<Candidate>): string -> int {
    (node: string) => ScoreOf(cands, node)
  }

  lemma StartBooked<S>(w: S, replicas: seq<Replica>, cands: seq<Candidate>, want: nat)
    requires Sorted(BetterOrEqual, cands) && DistinctCandidates(cands)
    ensures ScoresOf(BaseOf(cands), cands) && Booked(BaseOf(cands), cands, replicas, Placing(w, replicas, cands, [], want, 0, 0))
  {
    forall c | c in cands ensures BaseOf(cands)(c.nodeId) == c.score { ScoreOfMember(cands, c); }
    assert replicas[|replicas|..] == [];
    hide ScoreOf;
  }

  lemma WithinReach(cands: seq<Candidate>, added: seq<Replica>, want: nat, c: Candidate)
    requires Bounded(cands, added, MaxAttempts(want, |cands|)) && |added| <= want && c in cands && Hits(added, c.nodeId) >= 1
    ensures Reachable(cands, c, want, Hits(added, c.nodeId))
  {
    hide Hits, Before, HitNodes;
    HitsMeans(added, c.nodeId);
  }

  lemma StageBounded<S>(dr: MeshDriver<S>, w: S, d: Deployment, target: string, replicas: seq<Replica>, cands: seq<Candidate>, want: nat)
    requires Sorted(BetterOrEqual, cands) && DistinctCandidates(cands)
    ensures var added := Added(replicas, Place(dr, w, d, target, replicas, cands, want).replicas);
            HitNodes(added) <= Listing(cands) && Bounded(cands, added, MaxAttempts(want, |cands|)) && |added| <= want
  {
    hide PlaceLoop, Bounded, Hits, Before, Greedy, Listing, HitNodes, BaseOf, ScoresOf, DistinctCandidates, MaxAttempts;
    var start := Placing(w, replicas, cands, [], want, 0, 0);
    StartBooked(w, replicas, cands, want);
    assert Added(replicas, replicas) == [];
    hide Added, Booked;
    NothingHit(cands, MaxAttempts(want, |cands|));
    LoopBounded(dr, d, target, BaseOf(cands), cands, replicas, start, MaxAttempts(want, |cands|));
  }

  /** Under any driver, what a host receives in one tick is within its reach. */
  lemma LoadWithinReach<S>(dr: MeshDriver<S>, w: S, d: Deployment, target: string, replicas: seq<Replica>, cands: seq<Candidate>,
                           want: nat, c: Candidate)
    requires Sorted(BetterOrEqual, cands) && DistinctCandidates(cands) && c in cands
    ensures var added := Added(replicas, Place(dr, w, d, target, replicas, cands, want).replicas);
            && HitNodes(added) <= Listing(cands)
            && (Hits(added, c.nodeId) >= 1 ==> Reachable(cands, c, want, Hits(added, c.nodeId)))
  {
    hide Place, Bounded, Hits, Listing, HitNodes, Reachable, Added;
    StageBounded(dr, w, d, target, replicas, cands, want);
    var added := Added(replicas, Place(dr, w, d, target, replicas, cands, want).replicas);
    if Hits(added, c.nodeId) >= 1 { WithinReach(cands, added, want, c); }
  }

  lemma NothingHit(cands: seq<Candidate>, limit: nat)
    ensures Bounded(cands, [], limit)
  {
    hide Before;
  }

  // ---- a driver that fills one host -----------------------------------------------------------------

  /** Accepts deploys on `node` and rejects every other. */
  function OnlyOn(node: string): MeshDriver<()> {
    MeshDriver(
      (w: ()) => 0,
      (w: ()) => (w, None),
      (w: (), n: string, j: string, p: Option<Probe>) => (w, None),
      (w: (), n: string, j: string) => (w, false),
      (w: (), n: string, d: Deployment) => (w, if n == node then Some(n) else None),
      (w: (), s: string) => (w, false),
      (w: (), s: string) => (w, None))
  }

  /** All placements so far are on `c`'s host, it is still listed, and only those ahead of it are gone. */
  ghost predicate Filling(cands: seq<Candidate>, c: Candidate, now: seq<Candidate>, added: seq<Replica>) {
    && (forall r :: r in added ==> r.nodeId == c.nodeId)
    && c.nodeId in Listing(now)
    && Listing(cands) - Listing(now) <= Before(cands, c, |added|)
  }

  lemma {:induction false} AllHits(added: seq<Replica>, node: string)
    requires forall r :: r in added ==> r.nodeId == node
    ensures Hits(added, node) == |added|
    ensures forall other :: other != node ==> Hits(added, other) == 0
    decreases |added|
  {
    if added != [] {
      var rest := added[..|added| - 1];
      assert added == rest + [added[|added| - 1]];
      AllHits(rest, node);
    }
  }

  lemma FillingAccept(cands: seq<Candidate>, c: Candidate, now: seq<Candidate>, now': seq<Candidate>, added: seq<Replica>, r: Replica)
    requires Filling(cands, c, now, added) && r.nodeId == c.nodeId && Listing(now') == Listing(now)
    ensures Filling(cands, c, now', added + [r])
  {
    BeforeGrows(cands, c, |added|, |added| + 1);
    hide Before, Listing;
  }

  lemma FillingReject(base: string -> int, cands: seq<Candidate>, c: Candidate, now: seq<Candidate>, added: seq<Replica>)
    requires ScoresOf(base, cands) && Greedy(base, now, added) && now != [] && Listing(now) <= Listing(cands)
    requires c in cands && Filling(cands, c, now, added) && now[0].nodeId != c.nodeId
    ensures Filling(cands, c, now[1..], added)
  {
    var head := now[0];
    assert now == [head] + now[1..];
    assert Listing(now) == {head.nodeId} + Listing(now[1..]);
    HeadAhead(base, cands, c, now, added);
    hide Greedy, Before, Listing;
  }

  lemma HeadAhead(base: string -> int, cands: seq<Candidate>, c: Candidate, now: seq<Candidate>, added: seq<Replica>)
    requires ScoresOf(base, cands) && Greedy(base, now, added) && now != [] && Listing(now) <= Listing(cands)
    requires c in cands && c.nodeId in Listing(now) && now[0].nodeId != c.nodeId
    requires forall r :: r in added ==> r.nodeId == c.nodeId
    ensures now[0].nodeId in Before(cands, c, |added|)
  {
    hide Hits;
    AllHits(added, c.nodeId);
    var head := now[0];
    var y :| y in now && y.nodeId == c.nodeId;
    var i :| 0 <= i < |now| && now[i] == y;
    assert BetterOrEqual(now[0], now[i]);
    assert head in now && head.nodeId in Listing(now);
    var x :| x in cands && x.nodeId == head.nodeId;
    assert x.score == head.score && y.score == c.score - 150 * |added|;
  }

  lemma SameListing(cands: seq<Candidate>)
    requires cands != []
    ensures Listing(Charge(cands)) == Listing(cands)
  {
    hide Charge;
    ChargeShape(cands);
    var charged := cands[0].(score := cands[0].score - 150);
    assert cands == [cands[0]] + cands[1..];
    assert charged in Charge(cands);
    forall node ensures node in Listing(Charge(cands)) <==> node in Listing(cands) {
      if node in Listing(cands) {
        var x :| x in cands && x.nodeId == node;
        if x == cands[0] { assert charged.nodeId == node; } else { assert x in Charge(cands); }
      }
      if node in Listing(Charge(cands)) {
        var y :| y in Charge(cands) && y.nodeId == node;
        if y == charged { assert cands[0] in cands; } else { assert y in cands; }
      }
    }
  }

  lemma FillingTurn(d: Deployment, target: string, base: string -> int, cands: seq<Candidate>, replicas: seq<Replica>,
                    p: Placing<()>, c: Candidate)
    requires ScoresOf(base, cands) && Booked(base, cands, replicas, p) && p.left > 0 && p.candidates != []
    requires c in cands && Filling(cands, c, p.candidates, Added(replicas, p.replicas))
    ensures var q := PlaceOne(OnlyOn(c.nodeId), d, target, p);
            Filling(cands, c, q.candidates, Added(replicas, q.replicas))
  {
    var dr := OnlyOn(c.nodeId);
    var added := Added(replicas, p.replicas);
    assert DistinctCandidates(p.candidates);
    BookedTurn(dr, d, target, base, cands, replicas, p);
    if p.candidates[0].nodeId == c.nodeId {
      SameListing(p.candidates);
      FillingAccept(cands, c, p.candidates, Charge(p.candidates), added, Replica(c.nodeId, c.nodeId, target, Pending));
    } else {
      DropHead(p.candidates);
      FillingReject(base, cands, c, p.candidates, added);
      assert added + [] == added;
    }
    hide Filling, Greedy, Listing, Charge, Drop, Added;
  }

  lemma {:induction false} LoopFills(d: Deployment, target: string, base: string -> int, cands: seq<Candidate>,
                                     replicas: seq<Replica>, p: Placing<()>, limit: nat, c: Candidate)
    requires ScoresOf(base, cands) && DistinctCandidates(cands) && Booked(base, cands, replicas, p) && p.attempts <= limit
    requires c in cands && Filling(cands, c, p.candidates, Added(replicas, p.replicas))
    ensures var q := PlaceLoop(OnlyOn(c.nodeId), d, target, p, limit);
            && Booked(base, cands, replicas, q) && Filling(cands, c, q.candidates, Added(replicas, q.replicas))
            && (q.left == 0 || q.attempts == limit)
    decreases limit - p.attempts
  {
    hide Charge, Drop, Before, Greedy, DistinctCandidates, ScoresOf, OnlyOn, HitNodes, Added;
    assert p.candidates != [];
    if p.left > 0 && p.attempts < limit {
      BookedTurn(OnlyOn(c.nodeId), d, target, base, cands, replicas, p);
      FillingTurn(d, target, base, cands, replicas, p, c);
      hide Booked, Filling;
      assert PlaceOne(OnlyOn(c.nodeId), d, target, p).attempts == p.attempts + 1;
      LoopFills(d, target, base, cands, replicas, PlaceOne(OnlyOn(c.nodeId), d, target, p), limit, c);
    }
  }

  /** What is within a host's reach, some driver gives it. */
  lemma ReachIsMet(d: Deployment, target: string, replicas: seq<Replica>, cands: seq<Candidate>, want: nat, c: Candidate, k: nat)
    requires Sorted(BetterOrEqual, cands) && DistinctCandidates(cands) && c in cands && Reachable(cands, c, want, k)
    ensures Hits(Added(replicas, Place(OnlyOn(c.nodeId), (), d, target, replicas, cands, want).replicas), c.nodeId) >= k
  {
    var limit := MaxAttempts(want, |cands|);
    var start := Placing((), replicas, cands, [], want, 0, 0);
    StartBooked((), replicas, cands, want);
    assert Added(replicas, replicas) == [];
    ListedNode(cands, c);
    assert Filling(cands, c, cands, []);
    hide PlaceLoop, Hits, Before, Greedy, HitNodes, BaseOf, ScoresOf, OnlyOn;
    NothingHit(cands, limit);
    LoopFills(d, target, BaseOf(cands), cands, replicas, start, limit, c);
    LoopBounded(OnlyOn(c.nodeId), d, target, BaseOf(cands), cands, replicas, start, limit);
    var q := PlaceLoop(OnlyOn(c.nodeId), d, target, start, limit);
    var added := Added(replicas, q.replicas);
    AllHits(added, c.nodeId);
    EnoughFilled(cands, c, q.candidates, added, want, q.left, k, q.attempts);
  }

  lemma EnoughFilled(cands: seq<Candidate>, c: Candidate, now: seq<Candidate>, added: seq<Replica>, want: nat, left: nat, k: nat, attempts: nat)
    requires DistinctCandidates(cands) && DistinctCandidates(now) && Listing(now) <= Listing(cands)
    requires Filling(cands, c, now, added) && Reachable(cands, c, want, k)
    requires |added| + left == want && attempts == |added| + |cands| - |now|
    requires left == 0 || attempts == MaxAttempts(want, |cands|)
    ensures |added| >= k
  {
    hide Before, Listing;
    ListingSize(cands);
    ListingSize(now);
    hide DistinctCandidates;
    SpentSize(Listing(cands) - Listing(now), Listing(cands), Listing(now), {});
    SubsetSize(Listing(cands) - Listing(now), Before(cands, c, |added|));
    assert |Listing(cands) - Listing(now)| == |cands| - |now|;
    if |added| < k { BeforeGrows(cands, c, |added|, k - 1); }
  }

  /** Some driver makes one tick put `k` replicas on a host if and only if that is within its reach. */
  lemma ReachExactly(d: Deployment, target: string, replicas: seq<Replica>, cands: seq<Candidate>, want: nat, c: Candidate, k: nat)
    requires Sorted(BetterOrEqual, cands) && DistinctCandidates(cands) && c in cands && k >= 1
    ensures (exists dr: MeshDriver<()> :: Hits(Added(replicas, Place(dr, (), d, target, replicas, cands, want).replicas), c.nodeId) >= k)
       <==> Reachable(cands, c, want, k)
  {
    hide Place, Hits, Before, OnlyOn, Added, DistinctCandidates;
    if Reachable(cands, c, want, k) {
      ReachIsMet(d, target, replicas, cands, want, c, k);
    }
    forall dr: MeshDriver<()> | Hits(Added(replicas, Place(dr, (), d, target, replicas, cands, want).replicas), c.nodeId) >= k
      ensures Reachable(cands, c, want, k)
    {
      LoadWithinReach(dr, (), d, target, replicas, cands, want, c);
      BeforeGrows(cands, c, k - 1, Hits(Added(replicas, Place(dr, (), d, target, replicas, cands, want).replicas), c.nodeId) - 1);
    }
  }

  // ---- over-commitment ----------------------------------------------------------------------------------

  /** The host has the cores and memory for its jobs and `k` more replicas, in true arithmetic. */
  predicate Holds(host: AtlasEntry, d: Deployment, k: nat) {
    && (host.runningJobs + k) * d.resources.cpuCores <= host.cpuCores
    && (host.runningJobs + k) * d.resources.memMb <= host.memMb
  }

  lemma HoldsFewer(host: AtlasEntry, d: Deployment, few: nat, many: nat)
    requires few <= many && Holds(host, d, many)
    ensures Holds(host, d, few)
  {
    assert (host.runningJobs + few) * d.resources.cpuCores <= (host.runningJobs + many) * d.resources.cpuCores;
    assert (host.runningJobs + few) * d.resources.memMb <= (host.runningJobs + many) * d.resources.memMb;
  }

  /** What one placement stage puts on a host. */
  function HostLoad<S>(dr: MeshDriver<S>, w: S, d: Deployment, target: string, replicas: seq<Replica>, cands: seq<Candidate>,
                       want: nat, node: string): nat
  {
    Hits(Added(replicas, Place(dr, w, d, target, replicas, cands, want).replicas), node)
  }

  /** Whatever the driver does, no host is given more than it holds. */
  ghost predicate NeverOvercommits(atlas: seq<AtlasEntry>, d: Deployment, now: nat, maxStale: nat, target: string,
                                   replicas: seq<Replica>, want: nat)
  {
    forall dr: MeshDriver<()>, host :: host in atlas ==>
      var k := HostLoad(dr, (), d, target, replicas, Rank(atlas, d, now, maxStale), want, host.nodeId);
      k >= 1 ==> Holds(host, d, k)
  }

  lemma ServedIsEligible<S>(dr: MeshDriver<S>, w: S, atlas: seq<AtlasEntry>, d: Deployment, now: nat, maxStale: nat, target: string,
                            replicas: seq<Replica>, want: nat, host: AtlasEntry)
    requires DistinctHosts(atlas) && host in atlas
    ensures var cands := Rank(atlas, d, now, maxStale);
            var k := HostLoad(dr, w, d, target, replicas, cands, want, host.nodeId);
            k >= 1 ==> Eligible(host, d, now, maxStale) && Reachable(cands, CandidateOf(host, d), want, k)
  {
    hide Rank, Eligible, Hits, Place, Added, Before, Score, FreeCapacity;
    var cands := Rank(atlas, d, now, maxStale);
    RankContents(atlas, d, now, maxStale);
    RankDistinct(atlas, d, now, maxStale);
    hide DistinctCandidates;
    var added := Added(replicas, Place(dr, w, d, target, replicas, cands, want).replicas);
    if Hits(added, host.nodeId) >= 1 {
      HitsMeans(added, host.nodeId);
      NobodyServed(dr, w, d, target, replicas, want, host.nodeId);
      LoadWithinReach(dr, w, d, target, replicas, cands, want, cands[0]);
      var c :| c in cands && c.nodeId == host.nodeId;
      var h :| h in atlas && Eligible(h, d, now, maxStale) && CandidateOf(h, d) == c;
      HostById(atlas, host, h);
      LoadWithinReach(dr, w, d, target, replicas, cands, want, c);
    }
  }

  lemma NobodyServed<S>(dr: MeshDriver<S>, w: S, d: Deployment, target: string, replicas: seq<Replica>, want: nat, node: string)
    ensures HostLoad(dr, w, d, target, replicas, [], want, node) == 0
  {
    assert Added(replicas, replicas) == [];
  }

  /** One tick never over-commits, whatever the driver does, if and only if every host that fits holds
      every number of replicas within its reach. */
  lemma OvercommitsExactly(atlas: seq<AtlasEntry>, d: Deployment, now: nat, maxStale: nat, target: string, replicas: seq<Replica>, want: nat)
    requires DistinctHosts(atlas)
    ensures NeverOvercommits(atlas, d, now, maxStale, target, replicas, want)
       <==> forall host, k: nat ::
              host in atlas && Eligible(host, d, now, maxStale)
              && Reachable(Rank(atlas, d, now, maxStale), CandidateOf(host, d), want, k) ==>
                Holds(host, d, k)
  {
    hide Rank, Eligible, Holds, Reachable, HostLoad, DistinctHosts;
    var cands := Rank(atlas, d, now, maxStale);
    forall dr: MeshDriver<()>, host | host in atlas && HostLoad(dr, (), d, target, replicas, cands, want, host.nodeId) >= 1
      ensures Eligible(host, d, now, maxStale)
              && Reachable(cands, CandidateOf(host, d), want, HostLoad(dr, (), d, target, replicas, cands, want, host.nodeId))
    {
      ServedIsEligible(dr, (), atlas, d, now, maxStale, target, replicas, want, host);
    }
    if NeverOvercommits(atlas, d, now, maxStale, target, replicas, want) {
      forall host, k: nat | host in atlas && Eligible(host, d, now, maxStale) && Reachable(cands, CandidateOf(host, d), want, k)
        ensures Holds(host, d, k)
      {
        ReachedIsHeld(atlas, d, now, maxStale, target, replicas, want, host, k);
      }
    }
  }

  lemma ReachedIsHeld(atlas: seq<AtlasEntry>, d: Deployment, now: nat, maxStale: nat, target: string, replicas: seq<Replica>, want: nat,
                      host: AtlasEntry, k: nat)
    requires DistinctHosts(atlas) && host in atlas && Eligible(host, d, now, maxStale)
    requires Reachable(Rank(atlas, d, now, maxStale), CandidateOf(host, d), want, k)
    requires NeverOvercommits(atlas, d, now, maxStale, target, replicas, want)
    ensures Holds(host, d, k)
  {
    var cands, c := Rank(atlas, d, now, maxStale), CandidateOf(host, d);
    assert k >= 1 && c.nodeId == host.nodeId;
    hide Rank, Eligible, Holds, Reachable, CandidateOf, Hits, Place, OnlyOn, Added;
    RankContents(atlas, d, now, maxStale);
    RankDistinct(atlas, d, now, maxStale);
    ReachIsMet(d, target, replicas, cands, want, c, k);
    var load := HostLoad(OnlyOn(c.nodeId), (), d, target, replicas, cands, want, host.nodeId);
    HoldsFewer(host, d, k, load);
  }

  lemma BeforeOthers(cands: seq<Candidate>, c: Candidate, k: int)
    requires DistinctCandidates(cands) && c in cands
    ensures |Before(cands, c, k)| <= |cands| - 1
  {
    hide BetterOrEqual;
    ListedNode(cands, c);
    ListingSize(cands);
    SubsetSize(Before(cands, c, k), Listing(cands) - {c.nodeId});
  }

  /** When the attempts cover every other host and everything wanted, that is: every host that fits
      holds the whole of it. */
  lemma OvercommitsWhenCovered(atlas: seq<AtlasEntry>, d: Deployment, now: nat, maxStale: nat, target: string, replicas: seq<Replica>, want: nat)
    requires DistinctHosts(atlas) && want > 0
    requires want + |Rank(atlas, d, now, maxStale)| - 1 <= MaxAttempts(want, |Rank(atlas, d, now, maxStale)|)
    ensures NeverOvercommits(atlas, d, now, maxStale, target, replicas, want)
       <==> forall host :: host in atlas && Eligible(host, d, now, maxStale) ==> Holds(host, d, want)
  {
    var cands := Rank(atlas, d, now, maxStale);
    OvercommitsExactly(atlas, d, now, maxStale, target, replicas, want);
    RankContents(atlas, d, now, maxStale);
    RankDistinct(atlas, d, now, maxStale);
    hide Rank, Eligible, Holds, NeverOvercommits, CandidateOf, DistinctHosts, Before, DistinctCandidates, MaxAttempts;
    forall host | host in atlas && Eligible(host, d, now, maxStale)
      ensures Reachable(cands, CandidateOf(host, d), want, want)
      ensures Holds(host, d, want) ==> forall k: nat | Reachable(cands, CandidateOf(host, d), want, k) :: Holds(host, d, k)
    {
      assert CandidateOf(host, d) in cands;
      BeforeOthers(cands, CandidateOf(host, d), want - 1);
      if Holds(host, d, want) {
        forall k: nat | Reachable(cands, CandidateOf(host, d), want, k) ensures Holds(host, d, k) { HoldsFewer(host, d, k, want); }
      }
    }
  }

  /** A single placement never over-commits, for requests that the fit test reads exactly. */
  lemma OneNeverOvercommits(atlas: seq<AtlasEntry>, d: Deployment, now: nat, maxStale: nat, target: string, replicas: seq<Replica>)
    requires DistinctHosts(atlas)
    requires 1 <= d.resources.cpuCores && 1 <= d.resources.memMb <= U32_MAX
    ensures NeverOvercommits(atlas, d, now, maxStale, target, replicas, 1)
  {
    OvercommitsWhenCovered(atlas, d, now, maxStale, target, replicas, 1);
    FitIsExact(d);
    hide Rank, CanFit, NeverOvercommits, DistinctHosts, MatchesTags, RequiredTags;
  }

  /** Two are already enough: they go to a host with a single free core. */
  lemma TwoCanOvercommit(target: string, replicas: seq<Replica>)
    ensures var host := AtlasEntry("h", 1, 1024, 0, 0, ["docker"]);
            var d := Deployment("web", "default", "i", [], 2, Resources(1, 256), [], 0, 0, RollingUpdate(1, 1), [], None, "", []);
            && Eligible(host, d, 0, 120) && !Holds(host, d, 2)
            && !NeverOvercommits([host], d, 0, 120, target, replicas, 2)
  {
    var host := AtlasEntry("h", 1, 1024, 0, 0, ["docker"]);
    var d := Deployment("web", "default", "i", [], 2, Resources(1, 256), [], 0, 0, RollingUpdate(1, 1), [], None, "", []);
    assert Eligible(host, d, 0, 120) && !Holds(host, d, 2);
    hide Rank, Eligible, Holds, NeverOvercommits;
    OvercommitsWhenCovered([host], d, 0, 120, target, replicas, 2);
  }
}
