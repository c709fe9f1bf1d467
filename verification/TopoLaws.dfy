/** The dependency graph on its own terms (orders, walks, cycles), and Kahn's algorithm measured
    against them. */
module TopoLaws {
  import opened Text
  import opened Topo

  // ---- topological orders ----------------------------------------------------------------------

  /** Every node once, each after everything it needs. */
  ghost predicate Topological(g: Graph, order: seq<string>) {
    && Distinct(order)
    && Elems(order) == Nodes(g)
    && forall i, d :: 0 <= i < |order| && d in Needs(g, order[i]) ==> d in order[..i]
  }

  ghost predicate LexBefore(a: seq<string>, b: seq<string>) {
    exists i :: 0 <= i < |a| && i < |b| && a[..i] == b[..i] && Lt(a[i], b[i])
  }

  lemma GreedyIsTopological(g: Graph, order: seq<string>)
    requires GreedyPrefix(g, order) && Elems(order) == Nodes(g)
    ensures Topological(g, order)
  {
    forall i, d | 0 <= i < |order| && d in Needs(g, order[i]) ensures d in order[..i] {
      assert order[i] in Available(g, order[..i]);
      assert d in Elems(order[..i]);
    }
  }

  lemma {:induction false} FirstDifference(a: seq<string>, b: seq<string>) returns (i: nat)
    requires |a| == |b| && a != b
    ensures i < |a| && a[..i] == b[..i] && a[i] != b[i]
  {
    i := 0;
    while i < |a| && a[i] == b[i]
      invariant i <= |a| && a[..i] == b[..i] && a[i..] != b[i..]
    {
      assert a[i..] == [a[i]] + a[i + 1..] && b[i..] == [b[i]] + b[i + 1..];
      i := i + 1;
    }
  }

  lemma TopologicalLength(g: Graph, order: seq<string>)
    requires Topological(g, order)
    ensures |order| == |Nodes(g)|
  {
    DistinctFits(order, Nodes(g));
  }

  /** In any topological order, the next node is available after the ones before it. */
  lemma NextIsAvailable(g: Graph, order: seq<string>, i: nat)
    requires Topological(g, order) && i < |order|
    ensures order[i] in Available(g, order[..i])
  {
    assert order[i] in Elems(order);
    forall j | 0 <= j < i ensures order[j] != order[i] { }
    forall d | d in Needs(g, order[i]) ensures d in Elems(order[..i]) { }
  }

  /** Of all topological orders, the algorithm's is the lexicographically least. */
  lemma LeastOrder(g: Graph, order: seq<string>, other: seq<string>)
    requires TopoOf(g) == Sorted(order) && Topological(g, other)
    ensures Topological(g, order) && (other == order || LexBefore(order, other))
  {
    assert order == Kahn(g, []) && GreedyPrefix(g, order);
    GreedyIsTopological(g, order);
    TopologicalLength(g, order);
    TopologicalLength(g, other);
    if other != order {
      var i := FirstDifference(order, other);
      NextIsAvailable(g, other, i);
      assert IsLeast(order[i], Available(g, order[..i]));
    }
  }

  // ---- walks and cycles ------------------------------------------------------------------------

  /** A walk along dependencies. */
  ghost predicate Walk(g: Graph, p: seq<string>) {
    p != [] && forall k :: 0 <= k < |p| - 1 ==> p[k + 1] in Needs(g, p[k])
  }

  /** A walk from `n` that ends by coming back to a node it has passed. */
  ghost predicate Loops(g: Graph, n: string, p: seq<string>) {
    && Walk(g, p) && p[0] == n
    && exists i :: 0 <= i < |p| - 1 && p[i] == p[|p| - 1]
  }

  ghost predicate ReachesCycle(g: Graph, n: string) {
    exists p :: Loops(g, n, p)
  }

  ghost predicate Cyclic(g: Graph) {
    exists p :: Walk(g, p) && |p| >= 2 && p[0] == p[|p| - 1]
  }

  ghost function Position(s: seq<string>, x: string): nat
    requires x in s
    ensures Position(s, x) < |s| && s[Position(s, x)] == x
  {
    var i :| 0 <= i < |s| && s[i] == x;
    i
  }

  /** Along a walk that starts among emitted nodes, positions strictly fall. */
  lemma {:induction false} WalkDescends(g: Graph, done: seq<string>, p: seq<string>, i: nat, j: nat)
    requires GreedyPrefix(g, done) && Walk(g, p) && p[0] in done && i <= j < |p|
    ensures p[i] in done && p[j] in done
    ensures i < j ==> Position(done, p[j]) < Position(done, p[i])
    decreases j
  {
    if j > 0 {
      WalkDescends(g, done, p, if i < j then i else 0, j - 1);
      EmittedEarlier(g, done, p[j - 1], p[j]);
      if i == j { WalkDescends(g, done, p, 0, j - 1); }
    }
  }

  lemma EmittedEarlier(g: Graph, done: seq<string>, x: string, d: string)
    requires GreedyPrefix(g, done) && x in done && d in Needs(g, x)
    ensures d in done && Position(done, d) < Position(done, x)
  {
    var i := Position(done, x);
    assert done[i] in Available(g, done[..i]);
    assert d in Elems(done[..i]);
    var j :| 0 <= j < i && done[j] == d;
    var k := Position(done, d);
    assert k == j;
  }

  /** Nothing that reaches a cycle is ever emitted. */
  lemma EmittedReachesNoCycle(g: Graph, done: seq<string>, n: string)
    requires GreedyPrefix(g, done) && n in done
    ensures !ReachesCycle(g, n)
  {
    forall p ensures !Loops(g, n, p) {
      if Walk(g, p) && p[0] == n {
        forall i | 0 <= i < |p| - 1 ensures p[i] != p[|p| - 1] {
          WalkDescends(g, done, p, i, |p| - 1);
        }
      }
    }
  }

  /** When nothing is available, every stuck node needs a stuck node. */
  lemma StuckNeedsStuck(g: Graph, done: seq<string>, n: string) returns (d: string)
    requires Available(g, done) == {} && n in Nodes(g) && n !in done
    ensures d in Needs(g, n) && d in Nodes(g) && d !in done
  {
    assert n !in Available(g, done);
    assert !(Needs(g, n) <= Elems(done));
    d :| d in Needs(g, n) && d !in Elems(done);
  }

  lemma {:induction false} StuckWalk(g: Graph, done: seq<string>, n: string, length: nat) returns (p: seq<string>)
    requires Available(g, done) == {} && n in Nodes(g) && n !in done
    ensures Walk(g, p) && p[0] == n && |p| == length + 1
    ensures forall x :: x in p ==> x in Nodes(g)
    decreases length
  {
    if length == 0 {
      p := [n];
    } else {
      var d := StuckNeedsStuck(g, done, n);
      var q := StuckWalk(g, done, d, length - 1);
      p := [n] + q;
      forall k | 0 <= k < |p| - 1 ensures p[k + 1] in Needs(g, p[k]) {
        if k > 0 { assert q[(k - 1) + 1] in Needs(g, q[k - 1]); }
      }
    }
  }

  lemma Repeats(s: seq<string>, t: set<string>) returns (i: nat, j: nat)
    requires |s| > |t| && forall x :: x in s ==> x in t
    ensures i < j < |s| && s[i] == s[j]
  {
    if Distinct(s) { DistinctFits(s, t); }
    i, j :| 0 <= i < j < |s| && s[i] == s[j];
  }

  lemma StuckReachesCycle(g: Graph, done: seq<string>, n: string)
    requires Available(g, done) == {} && n in Nodes(g) && n !in done
    ensures ReachesCycle(g, n)
  {
    var p := StuckWalk(g, done, n, |Nodes(g)|);
    var i, j := Repeats(p, Nodes(g));
    var q := p[..j + 1];
    assert q[i] == q[|q| - 1];
    assert Loops(g, n, q);
  }

  lemma CycleFromLoop(g: Graph, n: string)
    requires ReachesCycle(g, n)
    ensures Cyclic(g)
  {
    var p :| Loops(g, n, p);
    var i :| 0 <= i < |p| - 1 && p[i] == p[|p| - 1];
    var q := p[i..];
    forall k | 0 <= k < |q| - 1 ensures q[k + 1] in Needs(g, q[k]) {
      assert q[k] == p[i + k] && q[k + 1] == p[i + k + 1];
    }
    assert Walk(g, q) && |q| >= 2 && q[0] == q[|q| - 1];
  }

  lemma LoopFromCycle(g: Graph) returns (n: string)
    requires Cyclic(g)
    ensures n in Nodes(g) && ReachesCycle(g, n)
  {
    var p :| Walk(g, p) && |p| >= 2 && p[0] == p[|p| - 1];
    n := p[0];
    assert p[1] in Needs(g, p[0]);
    assert Loops(g, n, p);
  }

  /** The sort succeeds exactly on acyclic graphs; it then yields a topological order, and otherwise
      reports, ascending, exactly the nodes from which a cycle can be reached. */
  lemma TopoSortMeaning(g: Graph)
    ensures TopoOf(g).Sorted? <==> !Cyclic(g)
    ensures TopoOf(g).Sorted? ==> Topological(g, TopoOf(g).order)
    ensures TopoOf(g).Cycle? ==>
              && TopoOf(g).stuck != []
              && (forall n :: n in TopoOf(g).stuck <==> n in Nodes(g) && ReachesCycle(g, n))
              && forall i, j :: 0 <= i < j < |TopoOf(g).stuck| ==> Lt(TopoOf(g).stuck[i], TopoOf(g).stuck[j])
  {
    var order := Kahn(g, []);
    if Elems(order) == Nodes(g) {
      GreedyIsTopological(g, order);
    }
    forall n | n in Nodes(g) ensures n !in order <==> ReachesCycle(g, n) {
      if n in order { EmittedReachesNoCycle(g, order, n); } else { StuckReachesCycle(g, order, n); }
    }
    CyclicMeans(g);
    hide Kahn, ReachesCycle, GreedyPrefix, Topological, Cyclic, Nodes;
    if Elems(order) != Nodes(g) {
      NonemptyAscending(Nodes(g), Elems(order));
    }
  }

  lemma CyclicMeans(g: Graph)
    ensures Cyclic(g) <==> exists n :: n in Nodes(g) && ReachesCycle(g, n)
  {
    if Cyclic(g) {
      var n := LoopFromCycle(g);
    }
    if n :| n in Nodes(g) && ReachesCycle(g, n) {
      CycleFromLoop(g, n);
    }
  }

  lemma NonemptyAscending(all: set<string>, some: set<string>)
    requires some <= all && some != all
    ensures Ascending(all - some) != []
  {
    var x :| x in all && x !in some;
    assert x in Ascending(all - some);
  }
}
