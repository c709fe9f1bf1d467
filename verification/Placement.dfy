/** Node fit, scoring and ranking of atlas hosts for one more replica. */
module Placement {
  import opened Text
  import opened Sorting
  import opened Deployments

  datatype AtlasEntry = AtlasEntry(
    nodeId: string, cpuCores: U32, memMb: U32, runningJobs: nat, lastSeenSecs: U64, tags: seq<string>)

  datatype Candidate = Candidate(nodeId: string, score: int, freeCpu: nat, freeMemMb: nat)

  /** `docker` first, then the selected tags not yet listed. */
  function RequiredTags(select: seq<string>): (tags: seq<string>)
    ensures forall t :: t in tags <==> t == "docker" || t in select
  {
    if select == [] then ["docker"] else
      var front := RequiredTags(select[..|select| - 1]);
      var last := select[|select| - 1];
      assert select == select[..|select| - 1] + [last];
      if last in front then front else front + [last]
  }

  predicate MatchesTags(host: AtlasEntry, required: seq<string>) {
    forall t :: t in required ==> t in host.tags
  }

  /** `mem_mb as u32`: the low 32 bits. */
  function Low32(x: U64): U32 { x % 0x1_0000_0000 }

  function Free(capacity: U32, jobs: nat, perReplica: U32): nat {
    SatSub(capacity, SatMul(jobs, Max(perReplica, 1)))
  }

  function FreeCapacity(host: AtlasEntry, cpu: U32, mem: U32): (nat, nat) {
    (Free(host.cpuCores, host.runningJobs, cpu), Free(host.memMb, host.runningJobs, mem))
  }

  predicate CanFit(host: AtlasEntry, d: Deployment) {
    var (freeCpu, freeMem) := FreeCapacity(host, d.resources.cpuCores, Low32(d.resources.memMb));
    && MatchesTags(host, RequiredTags(d.select))
    && freeCpu >= d.resources.cpuCores && freeMem >= Low32(d.resources.memMb)
  }

  function Score(host: AtlasEntry, d: Deployment): int {
    var (freeCpu, freeMem) := FreeCapacity(host, d.resources.cpuCores, Low32(d.resources.memMb));
    freeCpu * 100 + freeMem - host.runningJobs * 50
  }

  function CandidateOf(host: AtlasEntry, d: Deployment): Candidate {
    var (freeCpu, freeMem) := FreeCapacity(host, d.resources.cpuCores, Low32(d.resources.memMb));
    Candidate(host.nodeId, Score(host, d), freeCpu, freeMem)
  }

  predicate Fresh(host: AtlasEntry, now: nat, maxStale: nat) {
    maxStale == 0 || SatSub(now, host.lastSeenSecs) <= maxStale
  }

  predicate Eligible(host: AtlasEntry, d: Deployment, now: nat, maxStale: nat) {
    Fresh(host, now, maxStale) && CanFit(host, d)
  }

  /** Best score first, ties by node id. */
  predicate BetterOrEqual(a: Candidate, b: Candidate) {
    a.score > b.score || (a.score == b.score && Le(a.nodeId, b.nodeId))
  }

  function Candidates(atlas: seq<AtlasEntry>, d: Deployment, now: nat, maxStale: nat): seq<Candidate> {
    if atlas == [] then []
    else if Eligible(atlas[0], d, now, maxStale) then
      [CandidateOf(atlas[0], d)] + Candidates(atlas[1..], d, now, maxStale)
    else Candidates(atlas[1..], d, now, maxStale)
  }

  function Rank(atlas: seq<AtlasEntry>, d: Deployment, now: nat, maxStale: nat): seq<Candidate> {
    Sort(BetterOrEqual, Candidates(atlas, d, now, maxStale))
  }

  // ---- order -------------------------------------------------------------------------------

  lemma BetterOrEqualTotal()
    ensures TotalOrder(BetterOrEqual)
  {
    forall a: Candidate, b: Candidate ensures BetterOrEqual(a, b) || BetterOrEqual(b, a) {
      LeTotal(a.nodeId, b.nodeId);
    }
    forall a: Candidate, b: Candidate, c: Candidate | BetterOrEqual(a, b) && BetterOrEqual(b, c)
      ensures BetterOrEqual(a, c)
    {
      if Le(a.nodeId, b.nodeId) && Le(b.nodeId, c.nodeId) { LeTransitive(a.nodeId, b.nodeId, c.nodeId); }
    }
  }

  ghost predicate DistinctHosts(atlas: seq<AtlasEntry>) {
    forall i, j :: 0 <= i < j < |atlas| ==> atlas[i].nodeId != atlas[j].nodeId
  }

  ghost predicate DistinctCandidates(cands: seq<Candidate>) {
    forall i, j :: 0 <= i < j < |cands| ==> cands[i].nodeId != cands[j].nodeId
  }

  lemma {:induction false} CandidatesMembers(atlas: seq<AtlasEntry>, d: Deployment, now: nat, maxStale: nat)
    ensures forall c :: c in Candidates(atlas, d, now, maxStale)
                   <==> exists h :: h in atlas && Eligible(h, d, now, maxStale) && CandidateOf(h, d) == c
  {
    hide Eligible;
    hide CandidateOf;
    if atlas != [] {
      CandidatesMembers(atlas[1..], d, now, maxStale);
      assert atlas == [atlas[0]] + atlas[1..];
    }
  }

  /** The ranking lists exactly the fresh, fitting hosts, best first. */
  lemma RankContents(atlas: seq<AtlasEntry>, d: Deployment, now: nat, maxStale: nat)
    ensures forall c :: c in Rank(atlas, d, now, maxStale)
                   <==> exists h :: h in atlas && Eligible(h, d, now, maxStale) && CandidateOf(h, d) == c
    ensures Sorted(BetterOrEqual, Rank(atlas, d, now, maxStale))
  {
    var cands := Candidates(atlas, d, now, maxStale);
    CandidatesMembers(atlas, d, now, maxStale);
    SortMembers(BetterOrEqual, cands);
    BetterOrEqualTotal();
    SortSorted(BetterOrEqual, cands);
  }

  lemma {:induction false} CandidatesDistinct(atlas: seq<AtlasEntry>, d: Deployment, now: nat, maxStale: nat)
    requires DistinctHosts(atlas)
    ensures DistinctCandidates(Candidates(atlas, d, now, maxStale))
  {
    if atlas != [] {
      var rest := atlas[1..];
      CandidatesDistinct(rest, d, now, maxStale);
      CandidatesMembers(rest, d, now, maxStale);
      hide Eligible;
      var tail := Candidates(rest, d, now, maxStale);
      forall c | c in tail ensures c.nodeId != atlas[0].nodeId {
        var h :| h in rest && CandidateOf(h, d) == c;
        var i :| 0 <= i < |rest| && rest[i] == h;
        assert atlas[i + 1] == h;
      }
    }
  }

  lemma {:induction false} CandidatesAppend(a: seq<AtlasEntry>, b: seq<AtlasEntry>, d: Deployment, now: nat, maxStale: nat)
    ensures Candidates(a + b, d, now, maxStale) == Candidates(a, d, now, maxStale) + Candidates(b, d, now, maxStale)
  {
    hide Eligible;
    hide CandidateOf;
    if a == [] {
      assert a + b == b;
    } else {
      assert (a + b)[1..] == a[1..] + b;
      CandidatesAppend(a[1..], b, d, now, maxStale);
    }
  }

  lemma {:induction false} CandidatesPermutation(a: seq<AtlasEntry>, b: seq<AtlasEntry>, d: Deployment, now: nat, maxStale: nat)
    requires multiset(a) == multiset(b)
    ensures multiset(Candidates(a, d, now, maxStale)) == multiset(Candidates(b, d, now, maxStale))
  {
    hide Eligible;
    hide CandidateOf;
    if a == [] {
      assert |multiset(b)| == 0;
    } else {
      var i := PermutationStep(a, b);
      var front, back := b[..i], b[i + 1..];
      assert b == front + ([a[0]] + back);
      CandidatesPermutation(a[1..], front + back, d, now, maxStale);
      CandidatesAppend(front, [a[0]] + back, d, now, maxStale);
      CandidatesAppend(front, back, d, now, maxStale);
      assert ([a[0]] + back)[1..] == back;
    }
  }

  lemma DistinctOnce(cands: seq<Candidate>, x: Candidate, y: Candidate)
    requires DistinctCandidates(cands) && x in cands && y in cands && x.nodeId == y.nodeId
    ensures x == y
  {
  }

  /** The order in which the atlas lists its hosts never shows in the ranking. */
  lemma RankIgnoresAtlasOrder(a: seq<AtlasEntry>, b: seq<AtlasEntry>, d: Deployment, now: nat, maxStale: nat)
    requires DistinctHosts(a) && multiset(a) == multiset(b)
    ensures Rank(a, d, now, maxStale) == Rank(b, d, now, maxStale)
  {
    var ca, cb := Candidates(a, d, now, maxStale), Candidates(b, d, now, maxStale);
    CandidatesPermutation(a, b, d, now, maxStale);
    CandidatesDistinct(a, d, now, maxStale);
    BetterOrEqualTotal();
    SortSorted(BetterOrEqual, ca);
    SortSorted(BetterOrEqual, cb);
    SortMembers(BetterOrEqual, ca);
    var ra, rb := Sort(BetterOrEqual, ca), Sort(BetterOrEqual, cb);
    forall x, y | x in ra && y in ra && BetterOrEqual(x, y) && BetterOrEqual(y, x) ensures x == y {
      LeAntisymmetric(x.nodeId, y.nodeId);
      DistinctOnce(ca, x, y);
    }
    SortedUnique(BetterOrEqual, ra, rb);
  }

  // ---- fit ---------------------------------------------------------------------------------

  /** Room for one more replica in true, unbounded arithmetic. */
  ghost predicate TrulyFits(host: AtlasEntry, d: Deployment) {
    && MatchesTags(host, RequiredTags(d.select))
    && (host.runningJobs + 1) * d.resources.cpuCores <= host.cpuCores
    && (host.runningJobs + 1) * d.resources.memMb <= host.memMb
  }

  lemma FreeExact(capacity: U32, jobs: nat, need: U32)
    requires need >= 1
    ensures Free(capacity, jobs, need) >= need <==> (jobs + 1) * need <= capacity
  {
    assert (jobs + 1) * need == jobs * need + need;
    assert jobs * need >= 0;
  }

  /** Saturation and truncation never change the verdict on any host exactly when the memory
      request fits in 32 bits. */
  lemma FitIsExact(d: Deployment)
    requires d.resources.cpuCores >= 1 && d.resources.memMb >= 1
    ensures (forall h :: CanFit(h, d) <==> TrulyFits(h, d)) <==>
            d.resources.memMb <= U32_MAX
  {
    if d.resources.memMb <= U32_MAX {
      forall h ensures CanFit(h, d) <==> TrulyFits(h, d) {
        FreeExact(h.cpuCores, h.runningJobs, d.resources.cpuCores);
        FreeExact(h.memMb, h.runningJobs, d.resources.memMb);
      }
    } else {
      var h := AtlasEntry("h", U32_MAX, U32_MAX, 0, 0, RequiredTags(d.select));
      assert CanFit(h, d) && !TrulyFits(h, d);
    }
  }

  // ---- monotonicity -------------------------------------------------------------------------

  /** The same host with at least the capacity and no more load. */
  ghost predicate Improves(better: AtlasEntry, host: AtlasEntry) {
    && better.nodeId == host.nodeId
    && better.cpuCores >= host.cpuCores && better.memMb >= host.memMb
    && better.runningJobs <= host.runningJobs
    && better.lastSeenSecs >= host.lastSeenSecs
    && forall t :: t in host.tags ==> t in better.tags
  }

  lemma FreeMonotone(more: U32, capacity: U32, fewer: nat, jobs: nat, need: U32)
    requires more >= capacity && fewer <= jobs
    ensures Free(more, fewer, need) >= Free(capacity, jobs, need)
  {
    assert fewer * Max(need, 1) <= jobs * Max(need, 1);
  }

  lemma ImprovementHelps(better: AtlasEntry, host: AtlasEntry, d: Deployment, now: nat, maxStale: nat)
    requires Improves(better, host)
    ensures Eligible(host, d, now, maxStale) ==> Eligible(better, d, now, maxStale)
    ensures Score(better, d) >= Score(host, d)
  {
    FreeMonotone(better.cpuCores, host.cpuCores, better.runningJobs, host.runningJobs, d.resources.cpuCores);
    FreeMonotone(better.memMb, host.memMb, better.runningJobs, host.runningJobs, Low32(d.resources.memMb));
  }

  ghost predicate Precedes(ranking: seq<Candidate>, a: string, b: string) {
    exists i, j :: 0 <= i < j < |ranking| && ranking[i].nodeId == a && ranking[j].nodeId == b
  }

  /** For distinct hosts, position in the ranking is exactly the comparison of the two hosts. */
  lemma PrecedesMeans(atlas: seq<AtlasEntry>, d: Deployment, now: nat, maxStale: nat, a: AtlasEntry, b: AtlasEntry)
    requires DistinctHosts(atlas) && a in atlas && b in atlas && a.nodeId != b.nodeId
    ensures Precedes(Rank(atlas, d, now, maxStale), a.nodeId, b.nodeId)
       <==> Eligible(a, d, now, maxStale) && Eligible(b, d, now, maxStale)
            && BetterOrEqual(CandidateOf(a, d), CandidateOf(b, d))
  {
    hide Eligible;
    var r := Rank(atlas, d, now, maxStale);
    RankContents(atlas, d, now, maxStale);
    hide Rank;
    if Precedes(r, a.nodeId, b.nodeId) {
      var i, j :| 0 <= i < j < |r| && r[i].nodeId == a.nodeId && r[j].nodeId == b.nodeId;
      assert r[i] in r && r[j] in r;
      var ha :| ha in atlas && Eligible(ha, d, now, maxStale) && CandidateOf(ha, d) == r[i];
      var hb :| hb in atlas && Eligible(hb, d, now, maxStale) && CandidateOf(hb, d) == r[j];
      HostById(atlas, a, ha);
      HostById(atlas, b, hb);
    }
    if Eligible(a, d, now, maxStale) && Eligible(b, d, now, maxStale) && BetterOrEqual(CandidateOf(a, d), CandidateOf(b, d)) {
      assert CandidateOf(a, d) in r && CandidateOf(b, d) in r;
      var i :| 0 <= i < |r| && r[i] == CandidateOf(a, d);
      var j :| 0 <= j < |r| && r[j] == CandidateOf(b, d);
      if j < i {
        assert BetterOrEqual(r[j], r[i]);
        LeAntisymmetric(a.nodeId, b.nodeId);
      }
    }
  }

  lemma HostById(atlas: seq<AtlasEntry>, a: AtlasEntry, b: AtlasEntry)
    requires DistinctHosts(atlas) && a in atlas && b in atlas && a.nodeId == b.nodeId
    ensures a == b
  {
  }

  /** Improving one host neither drops it from the ranking nor moves it behind a host it preceded. */
  lemma ImprovementKeepsPlace(atlas: seq<AtlasEntry>, d: Deployment, now: nat, maxStale: nat,
                              i: nat, better: AtlasEntry, other: AtlasEntry)
    requires DistinctHosts(atlas) && i < |atlas| && Improves(better, atlas[i])
    requires other in atlas && other.nodeId != better.nodeId
    ensures CandidateOf(atlas[i], d) in Rank(atlas, d, now, maxStale)
        ==> CandidateOf(better, d) in Rank(atlas[i := better], d, now, maxStale)
    ensures Precedes(Rank(atlas, d, now, maxStale), better.nodeId, other.nodeId)
        ==> Precedes(Rank(atlas[i := better], d, now, maxStale), better.nodeId, other.nodeId)
  {
    hide Eligible;
    hide Rank;
    var host, improved := atlas[i], atlas[i := better];
    assert DistinctHosts(improved);
    assert improved[i] in improved;
    assert other in improved by {
      var j :| 0 <= j < |atlas| && atlas[j] == other;
      assert improved[j] == other;
    }
    ImprovementHelps(better, host, d, now, maxStale);
    RankContents(atlas, d, now, maxStale);
    RankContents(improved, d, now, maxStale);
    if CandidateOf(host, d) in Rank(atlas, d, now, maxStale) {
      var h :| h in atlas && Eligible(h, d, now, maxStale) && CandidateOf(h, d) == CandidateOf(host, d);
      HostById(atlas, h, host);
    }
    PrecedesMeans(atlas, d, now, maxStale, host, other);
    PrecedesMeans(improved, d, now, maxStale, better, other);
    hide Score;
  }

  lemma RankDistinct(atlas: seq<AtlasEntry>, d: Deployment, now: nat, maxStale: nat)
    requires DistinctHosts(atlas)
    ensures DistinctCandidates(Rank(atlas, d, now, maxStale))
  {
    CandidatesDistinct(atlas, d, now, maxStale);
    DistinctPermutation(Candidates(atlas, d, now, maxStale), Rank(atlas, d, now, maxStale));
  }

  lemma {:induction false} DistinctPermutation(a: seq<Candidate>, b: seq<Candidate>)
    requires DistinctCandidates(a) && multiset(a) == multiset(b)
    ensures DistinctCandidates(b)
    decreases |a|
  {
    if a == [] {
      assert |multiset(b)| == 0;
    } else {
      var i := PermutationStep(a, b);
      var rest := b[..i] + b[i + 1..];
      assert DistinctCandidates(a[1..]);
      DistinctPermutation(a[1..], rest);
      forall c | c in rest ensures c.nodeId != a[0].nodeId {
        assert c in multiset(rest);
        assert c in a[1..];
        var j :| 0 <= j < |a[1..]| && a[1..][j] == c;
        assert a[j + 1] == c;
      }
      forall j, k | 0 <= j < k < |b| ensures b[j].nodeId != b[k].nodeId {
        if j != i { assert b[j] == rest[if j < i then j else j - 1]; }
        if k != i { assert b[k] == rest[if k < i then k else k - 1]; }
      }
    }
  }

  // ---- the ranking in plain arithmetic ---------------------------------------------------------

  /** Seen recently enough, every required tag there, and jobs + 1 replicas within the capacity. */
  ghost predicate Usable(h: AtlasEntry, d: Deployment, now: nat, maxStale: nat) {
    && (maxStale == 0 || now <= h.lastSeenSecs + maxStale)
    && "docker" in h.tags && (forall t :: t in d.select ==> t in h.tags)
    && (h.runningJobs + 1) * d.resources.cpuCores <= h.cpuCores
    && (h.runningJobs + 1) * d.resources.memMb <= h.memMb
  }

  lemma UsableIsEligible(h: AtlasEntry, d: Deployment, now: nat, maxStale: nat)
    requires 1 <= d.resources.cpuCores && 1 <= d.resources.memMb <= U32_MAX
    ensures Eligible(h, d, now, maxStale) <==> Usable(h, d, now, maxStale)
  {
    FitIsExact(d);
    hide FreeCapacity, Low32;
    assert MatchesTags(h, RequiredTags(d.select)) <==> "docker" in h.tags && forall t :: t in d.select ==> t in h.tags;
    hide CanFit, RequiredTags, MatchesTags;
  }

  /** A host of the atlas is ranked if and only if it is usable, spelled out in plain arithmetic. */
  lemma RankListsExactly(atlas: seq<AtlasEntry>, d: Deployment, now: nat, maxStale: nat, h: AtlasEntry)
    requires DistinctHosts(atlas) && h in atlas
    requires 1 <= d.resources.cpuCores && 1 <= d.resources.memMb <= U32_MAX
    ensures (exists c :: c in Rank(atlas, d, now, maxStale) && c.nodeId == h.nodeId) <==> Usable(h, d, now, maxStale)
  {
    UsableIsEligible(h, d, now, maxStale);
    RankContents(atlas, d, now, maxStale);
    hide Rank, Eligible, Usable;
    if Eligible(h, d, now, maxStale) {
      assert CandidateOf(h, d) in Rank(atlas, d, now, maxStale);
    }
    if c :| c in Rank(atlas, d, now, maxStale) && c.nodeId == h.nodeId {
      var g :| g in atlas && Eligible(g, d, now, maxStale) && CandidateOf(g, d) == c;
      HostById(atlas, g, h);
    }
  }

  /** Free cores weigh 100, free megabytes 1, and each running job costs 50; no saturation. */
  function Headroom(h: AtlasEntry, d: Deployment): int {
    (h.cpuCores - h.runningJobs * d.resources.cpuCores) * 100
    + (h.memMb - h.runningJobs * d.resources.memMb)
    - h.runningJobs * 50
  }

  lemma FreeIsRest(capacity: U32, jobs: nat, need: U32)
    requires need >= 1 && (jobs + 1) * need <= capacity
    ensures Free(capacity, jobs, need) == capacity - jobs * need
  {
    assert (jobs + 1) * need == jobs * need + need;
    assert jobs * need >= 0;
  }

  lemma ScoreIsHeadroom(h: AtlasEntry, d: Deployment, now: nat, maxStale: nat)
    requires 1 <= d.resources.cpuCores && 1 <= d.resources.memMb <= U32_MAX && Usable(h, d, now, maxStale)
    ensures Score(h, d) == Headroom(h, d)
  {
    FreeIsRest(h.cpuCores, h.runningJobs, d.resources.cpuCores);
    FreeIsRest(h.memMb, h.runningJobs, d.resources.memMb);
    hide Free;
  }

  /** Saturation never decides between ranked hosts: one precedes another if and only if both are
      usable and it has more headroom, or as much and the smaller id. */
  lemma RankOrdersByHeadroom(atlas: seq<AtlasEntry>, d: Deployment, now: nat, maxStale: nat, a: AtlasEntry, b: AtlasEntry)
    requires DistinctHosts(atlas) && a in atlas && b in atlas && a.nodeId != b.nodeId
    requires 1 <= d.resources.cpuCores && 1 <= d.resources.memMb <= U32_MAX
    ensures Precedes(Rank(atlas, d, now, maxStale), a.nodeId, b.nodeId)
       <==> Usable(a, d, now, maxStale) && Usable(b, d, now, maxStale)
            && (Headroom(a, d) > Headroom(b, d) || (Headroom(a, d) == Headroom(b, d) && Le(a.nodeId, b.nodeId)))
  {
    hide Rank, Eligible, Usable, Score, Headroom, Precedes;
    PrecedesMeans(atlas, d, now, maxStale, a, b);
    UsableIsEligible(a, d, now, maxStale);
    UsableIsEligible(b, d, now, maxStale);
    if Usable(a, d, now, maxStale) && Usable(b, d, now, maxStale) {
      ScoreIsHeadroom(a, d, now, maxStale);
      ScoreIsHeadroom(b, d, now, maxStale);
    }
  }
}
