/** Kahn's algorithm with an ordered ready set, and what it computes: the least topological order,
    or exactly the nodes from which a dependency cycle can be reached. */
module Topo {
  import opened Text

  type Graph = map<string, set<string>>

  datatype Outcome = Sorted(order: seq<string>) | Cycle(stuck: seq<string>)

  function Needs(g: Graph, n: string): set<string> {
    if n in g then g[n] else {}
  }

  /** Every key and every node only referred to as a dependency. */
  function Nodes(g: Graph): set<string> {
    g.Keys + set n, d | n in g && d in g[n] :: d
  }

  function Elems(s: seq<string>): set<string> {
    set x | x in s
  }

  // ---- what the algorithm computes --------------------------------------------------------------

  /** Nodes not yet emitted whose dependencies all have been. */
  function Available(g: Graph, done: seq<string>): set<string> {
    set n | n in Nodes(g) && n !in done && Needs(g, n) <= Elems(done)
  }

  ghost predicate Distinct(s: seq<string>) {
    forall i, j :: 0 <= i < j < |s| ==> s[i] != s[j]
  }

  /** A prefix built by always emitting the least available node. */
  ghost predicate GreedyPrefix(g: Graph, done: seq<string>) {
    && Distinct(done)
    && (forall x :: x in done ==> x in Nodes(g))
    && forall i :: 0 <= i < |done| ==> IsLeast(done[i], Available(g, done[..i]))
  }

  lemma {:induction false} DistinctFits(s: seq<string>, t: set<string>)
    requires Distinct(s) && forall x :: x in s ==> x in t
    ensures |s| <= |t| && |Elems(s)| == |s|
    decreases |s|
  {
    if s != [] {
      var last, rest := s[|s| - 1], s[..|s| - 1];
      assert s == rest + [last];
      assert last !in rest;
      DistinctFits(rest, t - {last});
      assert Elems(s) == Elems(rest) + {last};
    }
  }

  lemma GreedyStep(g: Graph, done: seq<string>, x: string)
    requires GreedyPrefix(g, done) && IsLeast(x, Available(g, done))
    ensures GreedyPrefix(g, done + [x])
    ensures |done| < |Nodes(g)|
  {
    var next := done + [x];
    assert x in Available(g, done);
    forall i | 0 <= i < |next| ensures IsLeast(next[i], Available(g, next[..i])) {
      assert next[..i] == done[..i];
      if i == |done| { assert done[..i] == done; }
    }
    DistinctFits(next, Nodes(g));
  }

  ghost function Kahn(g: Graph, done: seq<string>): (r: seq<string>)
    requires GreedyPrefix(g, done)
    ensures GreedyPrefix(g, r) && Available(g, r) == {}
    decreases |Nodes(g)| - |done|
  {
    if Available(g, done) == {} then done else
      GreedyStep(g, done, Least(Available(g, done)));
      Kahn(g, done + [Least(Available(g, done))])
  }

  ghost function TopoOf(g: Graph): Outcome {
    var order := Kahn(g, []);
    if Elems(order) == Nodes(g) then Sorted(order) else Cycle(Ascending(Nodes(g) - Elems(order)))
  }

  // ---- the program's worklist -----------------------------------------------------------------

  /** Iterating a BTreeMap's keys or a BTreeSet: ascending, each element once. */
  method InOrder(s: set<string>) returns (keys: seq<string>)
    ensures Distinct(keys) && forall x :: x in keys <==> x in s
  {
    keys := Ascending(s);
  }

  /** `entry(n).or_insert(0)` for every listed name. */
  method RegisterAll(indegree: map<string, nat>, names: seq<string>) returns (r: map<string, nat>)
    requires forall n :: n in indegree ==> indegree[n] == 0
    ensures r.Keys == indegree.Keys + Elems(names)
    ensures forall n :: n in r ==> r[n] == 0
  {
    r := indegree;
    for i := 0 to |names|
      invariant r.Keys == indegree.Keys + Elems(names[..i])
      invariant forall n :: n in r ==> r[n] == 0
    {
      assert names[..i + 1] == names[..i] + [names[i]];
      if names[i] !in r { r := r[names[i] := 0]; }
    }
    assert names[..|names|] == names;
  }

  ghost function Mentioned(g: Graph, keys: seq<string>): set<string> {
    if keys == [] then {} else Mentioned(g, keys[..|keys| - 1]) + {keys[|keys| - 1]} + Needs(g, keys[|keys| - 1])
  }

  lemma {:induction false} MentionedMembers(g: Graph, keys: seq<string>)
    ensures forall x :: x in Mentioned(g, keys) <==> x in keys || exists n :: n in keys && x in Needs(g, n)
  {
    if keys != [] {
      MentionedMembers(g, keys[..|keys| - 1]);
      assert keys == keys[..|keys| - 1] + [keys[|keys| - 1]];
      hide Needs;
    }
  }

  lemma AllMentioned(g: Graph, keys: seq<string>)
    requires forall x :: x in keys <==> x in g
    ensures Mentioned(g, keys) == Nodes(g)
  {
    MentionedMembers(g, keys);
    hide Mentioned;
  }

  lemma MentionedStep(g: Graph, keys: seq<string>, i: nat, ds: seq<string>)
    requires i < |keys| && forall x :: x in ds <==> x in Needs(g, keys[i])
    ensures Mentioned(g, keys[..i + 1]) == Mentioned(g, keys[..i]) + Elems([keys[i]] + ds)
  {
    assert keys[..i + 1][..i] == keys[..i];
    assert Elems([keys[i]] + ds) == {keys[i]} + Needs(g, keys[i]);
  }

  method RegisterNodes(g: Graph) returns (indegree: map<string, nat>)
    ensures indegree.Keys == Nodes(g)
    ensures forall n :: n in indegree ==> indegree[n] == 0
  {
    indegree := map[];
    var keys := InOrder(g.Keys);
    for i := 0 to |keys|
      invariant indegree.Keys == Mentioned(g, keys[..i])
      invariant forall n :: n in indegree ==> indegree[n] == 0
    {
      var node := keys[i];
      assert node in keys;
      var ds := InOrder(g[node]);
      MentionedStep(g, keys, i, ds);
      hide Mentioned, Elems;
      indegree := RegisterAll(indegree, [node] + ds);
    }
    assert keys[..|keys|] == keys;
    AllMentioned(g, keys);
  }

  lemma PrefixStep(s: seq<string>, i: nat)
    requires Distinct(s) && i < |s|
    ensures s[i] in s && s[i] !in s[..i]
    ensures forall x :: x in s[..i + 1] <==> x in s[..i] || x == s[i]
  {
    assert s[..i + 1] == s[..i] + [s[i]];
  }

  method CountDependencies(g: Graph, registered: map<string, nat>) returns (indegree: map<string, nat>)
    requires registered.Keys == Nodes(g) && forall n :: n in registered ==> registered[n] == 0
    ensures indegree.Keys == Nodes(g)
    ensures forall n :: n in indegree ==> indegree[n] == |Needs(g, n)|
  {
    indegree := registered;
    var keys := InOrder(g.Keys);
    for i := 0 to |keys|
      invariant indegree.Keys == Nodes(g)
      invariant forall n :: n in indegree ==> indegree[n] == if n in keys[..i] then |Needs(g, n)| else 0
    {
      PrefixStep(keys, i);
      indegree := indegree[keys[i] := |g[keys[i]]|];
    }
    assert keys[..|keys|] == keys;
    assert forall n :: n !in g ==> |Needs(g, n)| == 0;
  }

  ghost predicate Edge(dependents: map<string, seq<string>>, d: string, n: string) {
    d in dependents && n in dependents[d]
  }

  ghost predicate AllDistinct(dependents: map<string, seq<string>>) {
    forall d :: d in dependents ==> Distinct(dependents[d])
  }

  ghost predicate Reversed(g: Graph, dependents: map<string, seq<string>>) {
    AllDistinct(dependents) && forall d, n :: Edge(dependents, d, n) <==> n in g && d in g[n]
  }

  /** `entry(d).or_default().push(node)` for every dependency `d` of `node`. */
  method PushDependent(dependents: map<string, seq<string>>, node: string, ds: seq<string>) returns (r: map<string, seq<string>>)
    requires AllDistinct(dependents) && Distinct(ds) && forall d :: !Edge(dependents, d, node)
    ensures AllDistinct(r)
    ensures forall d, n :: Edge(r, d, n) <==> Edge(dependents, d, n) || (n == node && d in ds)
  {
    r := dependents;
    for j := 0 to |ds|
      invariant AllDistinct(r)
      invariant forall d, n :: Edge(r, d, n) <==> Edge(dependents, d, n) || (n == node && d in ds[..j])
    {
      var d := ds[j];
      PrefixStep(ds, j);
      assert !Edge(r, d, node);
      hide Edge, AllDistinct;
      r := PushOne(r, d, node);
    }
    assert ds[..|ds|] == ds;
  }

  method PushOne(dependents: map<string, seq<string>>, d: string, node: string) returns (r: map<string, seq<string>>)
    requires AllDistinct(dependents) && !Edge(dependents, d, node)
    ensures AllDistinct(r)
    ensures forall e, n :: Edge(r, e, n) <==> Edge(dependents, e, n) || (e == d && n == node)
  {
    var listed := if d in dependents then dependents[d] else [];
    assert node !in listed;
    r := dependents[d := listed + [node]];
    assert Distinct(listed);
    assert Distinct(listed + [node]);
  }

  method ReverseEdges(g: Graph) returns (dependents: map<string, seq<string>>)
    ensures Reversed(g, dependents)
  {
    dependents := map[];
    var keys := InOrder(g.Keys);
    for i := 0 to |keys|
      invariant AllDistinct(dependents)
      invariant forall d, n :: Edge(dependents, d, n) <==> n in keys[..i] && d in Needs(g, n)
    {
      var node := keys[i];
      PrefixStep(keys, i);
      var ds := InOrder(g[node]);
      hide Edge, AllDistinct;
      dependents := PushDependent(dependents, node, ds);
    }
    assert keys[..|keys|] == keys;
  }

  /** Dependencies of `n` not yet emitted. */
  ghost function Missing(g: Graph, done: seq<string>, n: string): nat {
    |Needs(g, n) - Elems(done)|
  }

  /** The bookkeeping of the worklist loop: what every node still misses. */
  ghost predicate Tracking(g: Graph, done: seq<string>, indegree: map<string, nat>) {
    && indegree.Keys == Nodes(g)
    && forall n :: n in indegree ==> indegree[n] == Missing(g, done, n)
  }

  lemma MissingNone(g: Graph, done: seq<string>, n: string)
    ensures Missing(g, done, n) == 0 <==> Needs(g, n) <= Elems(done)
  {
    if Needs(g, n) <= Elems(done) {
      assert Needs(g, n) - Elems(done) == {};
    } else {
      var x :| x in Needs(g, n) && x !in Elems(done);
      assert x in Needs(g, n) - Elems(done);
    }
  }

  lemma AvailableMeans(g: Graph, done: seq<string>, indegree: map<string, nat>, n: string)
    requires Tracking(g, done, indegree)
    ensures n in Available(g, done) <==> n in Nodes(g) && n !in done && indegree[n] == 0
  {
    MissingNone(g, done, n);
    hide Missing;
  }

  /** Emitting `node` takes one off what each of its dependents misses. */
  lemma MissingOne(g: Graph, done: seq<string>, node: string, n: string)
    requires node !in done
    ensures Missing(g, done + [node], n) == Missing(g, done, n) - (if node in Needs(g, n) then 1 else 0)
    ensures node in Needs(g, n) ==> Missing(g, done, n) > 0
  {
    var before, after := Needs(g, n) - Elems(done), Needs(g, n) - Elems(done + [node]);
    assert Elems(done + [node]) == Elems(done) + {node};
    if node in Needs(g, n) {
      assert after == before - {node};
    } else {
      assert after == before;
    }
  }

  /** Whatever has been emitted had all its dependencies emitted before. */
  lemma EmittedIsClosed(g: Graph, done: seq<string>, x: string)
    requires GreedyPrefix(g, done) && x in done
    ensures Needs(g, x) <= Elems(done)
  {
    var i :| 0 <= i < |done| && done[i] == x;
    assert done[i] in Available(g, done[..i]);
    assert forall y :: y in done[..i] ==> y in done;
  }

  /** A dependent of an available node has not been emitted and is not available itself. */
  lemma DependentWaits(g: Graph, done: seq<string>, node: string, n: string)
    requires GreedyPrefix(g, done) && node in Available(g, done) && node in Needs(g, n)
    ensures n in Nodes(g) && n !in done && n != node && n !in Available(g, done)
  {
    if n in done { EmittedIsClosed(g, done, n); }
  }

  /** Who becomes available once `node` is emitted. */
  lemma AvailableNext(g: Graph, done: seq<string>, node: string, n: string)
    requires GreedyPrefix(g, done) && node in Available(g, done)
    ensures n in Available(g, done + [node]) <==>
            (n in Available(g, done) && n != node) || (node in Needs(g, n) && Missing(g, done + [node], n) == 0)
  {
    MissingNone(g, done, n);
    MissingNone(g, done + [node], n);
    MissingOne(g, done, node, n);
    if node in Needs(g, n) { DependentWaits(g, done, node, n); }
    hide GreedyPrefix, Missing, Needs, Nodes;
  }

  /** The loop over the dependents of `node`: decrement, and mark ready at zero. */
  method Release(waiting: seq<string>, indegree: map<string, nat>, ready: set<string>)
    returns (indegree': map<string, nat>, ready': set<string>)
    requires Distinct(waiting) && forall n :: n in waiting ==> n in indegree && indegree[n] > 0
    ensures indegree'.Keys == indegree.Keys
    ensures forall n :: n in indegree ==> indegree'[n] == indegree[n] - (if n in waiting then 1 else 0)
    ensures forall n :: n in ready' <==> n in ready || (n in waiting && indegree'[n] == 0)
  {
    indegree', ready' := indegree, ready;
    for i := 0 to |waiting|
      invariant indegree'.Keys == indegree.Keys
      invariant forall n :: n in indegree ==> indegree'[n] == indegree[n] - (if n in waiting[..i] then 1 else 0)
      invariant forall n :: n in ready' <==> n in ready || (n in waiting[..i] && indegree'[n] == 0)
    {
      var dep := waiting[i];
      PrefixStep(waiting, i);
      indegree' := indegree'[dep := indegree'[dep] - 1];
      if indegree'[dep] == 0 {
        ready' := ready' + {dep};
      }
    }
    assert waiting[..|waiting|] == waiting;
  }

  lemma BeforeRelease(g: Graph, done: seq<string>, node: string, waiting: seq<string>, indegree: map<string, nat>)
    requires GreedyPrefix(g, done) && Tracking(g, done, indegree) && node in Available(g, done)
    requires forall n :: n in waiting <==> node in Needs(g, n)
    ensures node !in done
    ensures forall n :: n in waiting ==> n in indegree && indegree[n] > 0
  {
    forall n | n in waiting ensures n in indegree && indegree[n] > 0 {
      DependentWaits(g, done, node, n);
      MissingOne(g, done, node, n);
      hide Missing, Available, GreedyPrefix;
    }
  }

  lemma TrackingNext(g: Graph, done: seq<string>, node: string, waiting: seq<string>, indegree: map<string, nat>, indegree': map<string, nat>)
    requires Tracking(g, done, indegree) && node !in done && indegree'.Keys == indegree.Keys
    requires forall n :: n in waiting <==> node in Needs(g, n)
    requires forall n :: n in indegree ==> indegree'[n] + (if n in waiting then 1 else 0) == indegree[n]
    ensures Tracking(g, done + [node], indegree')
  {
    forall n | n in indegree' ensures indegree'[n] == Missing(g, done + [node], n) {
      MissingOne(g, done, node, n);
      hide Missing, Needs;
    }
  }

  lemma ReadyNext(g: Graph, done: seq<string>, node: string, waiting: seq<string>, indegree': map<string, nat>, ready': set<string>)
    requires GreedyPrefix(g, done) && node in Available(g, done)
    requires Tracking(g, done + [node], indegree')
    requires forall n :: n in waiting <==> node in Needs(g, n)
    requires forall n :: n in waiting ==> n in indegree'
    requires forall n :: n in ready' <==> n in Available(g, done) - {node} || (n in waiting && indegree'[n] == 0)
    ensures ready' == Available(g, done + [node])
  {
    forall n { AvailableNext(g, done, node, n); }
    hide Available, GreedyPrefix, Missing, Needs, Nodes, Tracking;
  }

  /** One turn of the worklist: emit the least ready node and release its dependents. */
  method EmitNext(ghost g: Graph, dependents: map<string, seq<string>>, order: seq<string>, indegree: map<string, nat>, ready: set<string>)
    returns (order': seq<string>, indegree': map<string, nat>, ready': set<string>)
    requires Reversed(g, dependents) && ready != {}
    requires GreedyPrefix(g, order) && Tracking(g, order, indegree) && ready == Available(g, order)
    ensures GreedyPrefix(g, order') && Tracking(g, order', indegree') && ready' == Available(g, order')
    ensures |order'| == |order| + 1 && |order| < |Nodes(g)|
    ensures Kahn(g, order') == Kahn(g, order)
  {
    hide Available, GreedyPrefix, Tracking, Reversed, Nodes, Distinct, IsLeast, Le;
    var node := Least(ready);
    GreedyStep(g, order, node);
    var waiting := if node in dependents then dependents[node] else [];
    WaitingList(g, dependents, node);
    BeforeRelease(g, order, node, waiting, indegree);
    LeastMember(ready);
    indegree', ready' := Release(waiting, indegree, ready - {node});
    TrackingNext(g, order, node, waiting, indegree, indegree');
    ReadyNext(g, order, node, waiting, indegree', ready');
    KahnStep(g, order);
    order' := order + [node];
  }

  method TopoSort(g: Graph) returns (r: Outcome)
    ensures r == TopoOf(g)
  {
    hide Available, GreedyPrefix, Tracking, Reversed, Distinct, IsLeast, Le;
    var indegree := RegisterNodes(g);
    indegree := CountDependencies(g, indegree);
    var dependents := ReverseEdges(g);
    var ready := set n | n in indegree && indegree[n] == 0;
    var order: seq<string> := [];
    StartTracking(g, indegree, ready);
    hide Nodes;
    while ready != {}
      invariant GreedyPrefix(g, order) && Tracking(g, order, indegree) && ready == Available(g, order)
      invariant Kahn(g, order) == Kahn(g, [])
      invariant |order| <= |Nodes(g)|
      decreases |Nodes(g)| - |order|
    {
      order, indegree, ready := EmitNext(g, dependents, order, indegree, ready);
    }
    r := Conclude(g, order, indegree);
  }

  method Conclude(ghost g: Graph, order: seq<string>, indegree: map<string, nat>) returns (r: Outcome)
    requires GreedyPrefix(g, order) && Tracking(g, order, indegree) && Available(g, order) == {}
    requires GreedyPrefix(g, []) && Kahn(g, order) == Kahn(g, [])
    ensures r == TopoOf(g)
  {
    hide Available, GreedyPrefix, Tracking, Nodes;
    GreedyElems(g, order);
    KahnEnd(g, order);
    TrackingKeys(g, order, indegree);
    if |order| != |indegree| {
      var stuck := set n | n in indegree && n !in order;
      assert stuck == Nodes(g) - Elems(order);
      r := Cycle(Ascending(stuck));
    } else {
      r := Sorted(order);
    }
  }

  lemma LeastMember(s: set<string>)
    requires s != {}
    ensures Least(s) in s
  {
  }

  lemma TrackingKeys(g: Graph, order: seq<string>, indegree: map<string, nat>)
    requires Tracking(g, order, indegree)
    ensures indegree.Keys == Nodes(g) && |indegree| == |Nodes(g)|
  {
    assert |indegree| == |indegree.Keys|;
  }

  lemma KahnStep(g: Graph, order: seq<string>)
    requires GreedyPrefix(g, order) && Available(g, order) != {}
    ensures GreedyPrefix(g, order + [Least(Available(g, order))])
    ensures Kahn(g, order) == Kahn(g, order + [Least(Available(g, order))])
  {
    GreedyStep(g, order, Least(Available(g, order)));
    hide Available, GreedyPrefix, Nodes, IsLeast;
  }

  lemma KahnEnd(g: Graph, order: seq<string>)
    requires GreedyPrefix(g, order) && Available(g, order) == {}
    ensures Kahn(g, order) == order
  {
    hide Available, GreedyPrefix;
  }

  lemma StartTracking(g: Graph, indegree: map<string, nat>, ready: set<string>)
    requires indegree.Keys == Nodes(g) && forall n :: n in indegree ==> indegree[n] == |Needs(g, n)|
    requires forall n :: n in ready <==> n in indegree && indegree[n] == 0
    ensures GreedyPrefix(g, []) && Tracking(g, [], indegree)
    ensures ready == Available(g, [])
  {
    MissingAll(g, indegree);
    StartReady(g, indegree, ready);
    hide Available, Missing, Tracking, Needs, Nodes;
  }

  lemma StartReady(g: Graph, indegree: map<string, nat>, ready: set<string>)
    requires Tracking(g, [], indegree)
    requires forall n :: n in ready <==> n in indegree && indegree[n] == 0
    ensures ready == Available(g, [])
  {
    forall n { AvailableMeans(g, [], indegree, n); }
    hide Available, Missing, Tracking, Needs, Nodes;
  }

  lemma MissingAll(g: Graph, indegree: map<string, nat>)
    requires indegree.Keys == Nodes(g) && forall n :: n in indegree ==> indegree[n] == |Needs(g, n)|
    ensures Tracking(g, [], indegree)
  {
    hide Needs, Nodes;
    forall n | n in indegree ensures indegree[n] == Missing(g, [], n) {
      assert Needs(g, n) - Elems([]) == Needs(g, n);
    }
  }

  lemma WaitingList(g: Graph, dependents: map<string, seq<string>>, node: string)
    requires Reversed(g, dependents)
    ensures var waiting := if node in dependents then dependents[node] else [];
            Distinct(waiting) && forall n :: n in waiting <==> node in Needs(g, n)
  {
    forall n ensures Edge(dependents, node, n) <==> node in Needs(g, n) { }
  }

  /** All nodes were emitted exactly when as many were emitted as there are. */
  lemma GreedyElems(g: Graph, order: seq<string>)
    requires GreedyPrefix(g, order)
    ensures |order| == |Nodes(g)| <==> Elems(order) == Nodes(g)
  {
    FillsExactly(order, Nodes(g));
  }

  lemma FillsExactly(s: seq<string>, t: set<string>)
    requires Distinct(s) && forall x :: x in s ==> x in t
    ensures |s| == |t| <==> Elems(s) == t
  {
    DistinctFits(s, t);
    hide Distinct;
    if Elems(s) != t {
      var x :| x in t && x !in Elems(s);
      DistinctFits(s, t - {x});
    }
  }
}
