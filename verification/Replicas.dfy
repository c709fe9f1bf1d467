/** Tracked replicas, and the five-way head count every safety and progress argument about the
    engine is carried out in. */
module Replicas {
  import opened Text
  import opened Sorting

  datatype Phase = Pending | Running | Failed | Succeeded
  {
    predicate IsAlive() { Pending? || Running? }
    predicate IsTerminal() { Failed? || Succeeded? }
  }

  datatype Replica = Replica(jobId: string, nodeId: string, revision: string, phase: Phase)

  /** How a replica counts against a target revision. */
  datatype Kind = NewPending | NewRunning | OldPending | OldRunning | Dead

  function KindOf(r: Replica, target: string): Kind {
    if r.phase.IsTerminal() then Dead
    else if r.revision == target then (if r.phase.Running? then NewRunning else NewPending)
    else (if r.phase.Running? then OldRunning else OldPending)
  }

  datatype Tally = Tally(np: nat, nr: nat, op: nat, orun: nat, dead: nat)
  {
    function NewLive(): nat { np + nr }
    function OldLive(): nat { op + orun }
    function Live(): nat { np + nr + op + orun }
    function Running(): nat { nr + orun }
    function Size(): nat { np + nr + op + orun + dead }

    function Plus(b: Tally): Tally {
      Tally(np + b.np, nr + b.nr, op + b.op, orun + b.orun, dead + b.dead)
    }
    predicate AtMost(b: Tally) {
      np <= b.np && nr <= b.nr && op <= b.op && orun <= b.orun && dead <= b.dead
    }
  }

  function Nobody(): Tally { Tally(0, 0, 0, 0, 0) }

  function One(k: Kind): Tally {
    match k
    case NewPending => Tally(1, 0, 0, 0, 0)
    case NewRunning => Tally(0, 1, 0, 0, 0)
    case OldPending => Tally(0, 0, 1, 0, 0)
    case OldRunning => Tally(0, 0, 0, 1, 0)
    case Dead => Tally(0, 0, 0, 0, 1)
  }

  /** How many replicas of `s` are of kind `k`. */
  function Count(s: seq<Replica>, target: string, k: Kind): nat {
    if s == [] then 0 else Count(s[1..], target, k) + (if KindOf(s[0], target) == k then 1 else 0)
  }

  function TallyOf(s: seq<Replica>, target: string): Tally {
    Tally(Count(s, target, NewPending), Count(s, target, NewRunning),
          Count(s, target, OldPending), Count(s, target, OldRunning), Count(s, target, Dead))
  }

  lemma TallyNone(target: string)
    ensures TallyOf([], target) == Nobody()
  {
  }

  lemma {:induction false} CountAppend(a: seq<Replica>, b: seq<Replica>, target: string, k: Kind)
    ensures Count(a + b, target, k) == Count(a, target, k) + Count(b, target, k)
  {
    if a == [] {
      assert a + b == b;
    } else {
      assert (a + b)[1..] == a[1..] + b;
      CountAppend(a[1..], b, target, k);
    }
  }

  lemma TallyAppend(a: seq<Replica>, b: seq<Replica>, target: string)
    ensures TallyOf(a + b, target) == TallyOf(a, target).Plus(TallyOf(b, target))
  {
    hide Count;
    forall k { CountAppend(a, b, target, k); }
  }

  lemma CountOne(r: Replica, target: string, k: Kind)
    ensures Count([r], target, k) == if KindOf(r, target) == k then 1 else 0
  {
  }

  lemma TallyPush(s: seq<Replica>, r: Replica, target: string)
    ensures TallyOf(s + [r], target) == TallyOf(s, target).Plus(One(KindOf(r, target)))
  {
    hide Count;
    TallyAppend(s, [r], target);
    forall k ensures Count([r], target, k) == if KindOf(r, target) == k then 1 else 0 { CountOne(r, target, k); }
  }

  lemma {:induction false} TallySize(s: seq<Replica>, target: string)
    ensures TallyOf(s, target).Size() == |s|
  {
    if s != [] {
      var rest := s[1..];
      assert s == [s[0]] + rest;
      TallySize(rest, target);
      TallyHead(s, target);
    }
  }

  lemma CountHead(s: seq<Replica>, target: string, k: Kind)
    requires s != []
    ensures Count(s, target, k) == Count(s[1..], target, k) + (if KindOf(s[0], target) == k then 1 else 0)
  {
  }

  lemma TallyHead(s: seq<Replica>, target: string)
    requires s != []
    ensures TallyOf(s, target) == TallyOf(s[1..], target).Plus(One(KindOf(s[0], target)))
  {
    hide Count;
    hide KindOf;
    forall k { CountHead(s, target, k); }
  }

  /** A head count does not depend on listing order. */
  lemma {:induction false} CountPermutation(a: seq<Replica>, b: seq<Replica>, target: string, k: Kind)
    requires multiset(a) == multiset(b)
    ensures Count(a, target, k) == Count(b, target, k)
  {
    hide KindOf;
    if a == [] {
      assert |multiset(b)| == 0;
    } else {
      var i := PermutationStep(a, b);
      var front, back := b[..i], b[i + 1..];
      assert b == front + ([a[0]] + back);
      CountPermutation(a[1..], front + back, target, k);
      CountSplit(front, a[0], back, target, k);
    }
  }

  lemma CountSplit(front: seq<Replica>, x: Replica, back: seq<Replica>, target: string, k: Kind)
    ensures Count(front + ([x] + back), target, k)
         == Count(front + back, target, k) + (if KindOf(x, target) == k then 1 else 0)
  {
    hide KindOf;
    CountAppend(front, [x] + back, target, k);
    CountAppend(front, back, target, k);
    assert ([x] + back)[1..] == back;
  }

  lemma TallyPermutation(a: seq<Replica>, b: seq<Replica>, target: string)
    requires multiset(a) == multiset(b)
    ensures TallyOf(a, target) == TallyOf(b, target)
  {
    hide Count;
    forall k { CountPermutation(a, b, target, k); }
  }

  // ---- looking up and dropping by job id ---------------------------------------------------

  function Ids(s: seq<Replica>): (r: seq<string>)
    ensures |r| == |s| && forall i :: 0 <= i < |s| ==> r[i] == s[i].jobId
  {
    seq(|s|, i requires 0 <= i < |s| => s[i].jobId)
  }

  ghost predicate Unique(s: seq<Replica>) {
    forall i, j :: 0 <= i < j < |s| ==> s[i].jobId != s[j].jobId
  }

  /** `iter().find(|r| r.job_id == id)`: the first match. */
  function Find(s: seq<Replica>, id: string): (r: Option<Replica>)
    ensures r.Some? ==> r.value in s && r.value.jobId == id
    ensures r.None? ==> forall x :: x in s ==> x.jobId != id
  {
    if s == [] then None
    else if s[0].jobId == id then Some(s[0])
    else Find(s[1..], id)
  }

  /** `retain(|r| r.job_id != id)`. */
  function Without(s: seq<Replica>, id: string): (r: seq<Replica>)
    ensures forall x :: x in r <==> x in s && x.jobId != id
    ensures |r| <= |s|
  {
    if s == [] then []
    else if s[0].jobId == id then Without(s[1..], id)
    else [s[0]] + Without(s[1..], id)
  }

  lemma {:induction false} WithoutAbsent(s: seq<Replica>, id: string)
    requires forall x :: x in s ==> x.jobId != id
    ensures Without(s, id) == s
  {
    if s != [] {
      assert s[0] in s;
      WithoutAbsent(s[1..], id);
    }
  }

  lemma {:induction false} UniqueTail(s: seq<Replica>)
    requires Unique(s) && s != []
    ensures Unique(s[1..])
    ensures forall x :: x in s[1..] ==> x.jobId != s[0].jobId
  {
    forall x | x in s[1..] ensures x.jobId != s[0].jobId {
      var i :| 0 <= i < |s[1..]| && s[1..][i] == x;
      assert s[i + 1] == x;
    }
  }

  lemma {:induction false} WithoutUnique(s: seq<Replica>, id: string)
    requires Unique(s)
    ensures Unique(Without(s, id))
  {
    if s != [] {
      UniqueTail(s);
      WithoutUnique(s[1..], id);
    }
  }

  lemma {:induction false} CountWithout(s: seq<Replica>, r: Replica, target: string, k: Kind)
    requires Unique(s) && r in s
    ensures Count(Without(s, r.jobId), target, k) + (if KindOf(r, target) == k then 1 else 0)
         == Count(s, target, k)
  {
    UniqueTail(s);
    if s[0].jobId == r.jobId {
      assert s[0] == r;
      WithoutAbsent(s[1..], r.jobId);
    } else {
      assert r in s[1..];
      CountWithout(s[1..], r, target, k);
      var w := Without(s[1..], r.jobId);
      assert ([s[0]] + w)[1..] == w;
    }
  }

  /** Removing a tracked replica takes exactly its own head out of the count. */
  lemma TallyWithout(s: seq<Replica>, r: Replica, target: string)
    requires Unique(s) && r in s
    ensures TallyOf(Without(s, r.jobId), target).Plus(One(KindOf(r, target))) == TallyOf(s, target)
  {
    hide Count;
    forall k { CountWithout(s, r, target, k); }
  }

  lemma {:induction false} FindUnique(s: seq<Replica>, r: Replica)
    requires Unique(s) && r in s
    ensures Find(s, r.jobId) == Some(r)
  {
    UniqueTail(s);
    if s[0].jobId != r.jobId { FindUnique(s[1..], r); }
  }

  lemma SameIdSame(s: seq<Replica>, a: Replica, b: Replica)
    requires Unique(s) && a in s && b in s && a.jobId == b.jobId
    ensures a == b
  {
  }

  // ---- picking by kind ---------------------------------------------------------------------

  /** The replicas of the given kinds, in tracking order. */
  function Pick(s: seq<Replica>, target: string, ks: set<Kind>): (r: seq<Replica>)
    ensures forall x :: x in r <==> x in s && KindOf(x, target) in ks
    ensures |r| <= |s|
  {
    if s == [] then []
    else if KindOf(s[0], target) in ks then [s[0]] + Pick(s[1..], target, ks)
    else Pick(s[1..], target, ks)
  }

  function Keep(t: Tally, ks: set<Kind>): Tally {
    Tally(if NewPending in ks then t.np else 0,
          if NewRunning in ks then t.nr else 0,
          if OldPending in ks then t.op else 0,
          if OldRunning in ks then t.orun else 0,
          if Dead in ks then t.dead else 0)
  }

  lemma {:induction false} CountPick(s: seq<Replica>, target: string, ks: set<Kind>, k: Kind)
    ensures Count(Pick(s, target, ks), target, k) == if k in ks then Count(s, target, k) else 0
  {
    if s != [] {
      CountPick(s[1..], target, ks, k);
      var p := Pick(s[1..], target, ks);
      assert ([s[0]] + p)[1..] == p;
    }
  }

  lemma TallyPick(s: seq<Replica>, target: string, ks: set<Kind>)
    ensures TallyOf(Pick(s, target, ks), target) == Keep(TallyOf(s, target), ks)
  {
    hide Count;
    forall k { CountPick(s, target, ks, k); }
  }

  lemma {:induction false} PickUnique(s: seq<Replica>, target: string, ks: set<Kind>)
    requires Unique(s)
    ensures Unique(Pick(s, target, ks))
  {
    if s != [] {
      UniqueTail(s);
      PickUnique(s[1..], target, ks);
    }
  }

  lemma {:induction false} PickAppend(a: seq<Replica>, b: seq<Replica>, target: string, ks: set<Kind>)
    ensures Pick(a + b, target, ks) == Pick(a, target, ks) + Pick(b, target, ks)
  {
    if a == [] {
      assert a + b == b;
    } else {
      assert (a + b)[1..] == a[1..] + b;
      PickAppend(a[1..], b, target, ks);
    }
  }

  /** What one more element adds to a pick: the step of every loop that filters left to right. */
  lemma PickStep(s: seq<Replica>, i: nat, target: string, ks: set<Kind>)
    requires i < |s|
    ensures Pick(s[..i + 1], target, ks)
         == Pick(s[..i], target, ks) + (if KindOf(s[i], target) in ks then [s[i]] else [])
  {
    assert s[..i + 1] == s[..i] + [s[i]];
    PickAppend(s[..i], [s[i]], target, ks);
  }

  lemma TallyStep(s: seq<Replica>, i: nat, target: string)
    requires i < |s|
    ensures TallyOf(s[..i + 1], target) == TallyOf(s[..i], target).Plus(One(KindOf(s[i], target)))
  {
    assert s[..i + 1] == s[..i] + [s[i]];
    TallyPush(s[..i], s[i], target);
  }
}
