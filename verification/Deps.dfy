/** The dependency gate: may a deployment be placed, given what its dependencies look like now? */
module Deps {
  import opened Text
  import opened Sorting
  import opened Deployments

  datatype DepReadiness = Absent | LivePresent | Healthy

  datatype Gate = Ready | Waiting(unmet: seq<string>)

  predicate Met(dep: DependencyRef, observed: DepReadiness) {
    match observed
    case Absent => false
    case LivePresent => !dep.healthy
    case Healthy => true
  }

  function UnmetServices(deps: seq<DependencyRef>, readiness: string -> DepReadiness): set<string> {
    set dep | dep in deps && !Met(dep, readiness(dep.service)) :: dep.service
  }

  /** Open when every dependency is met; otherwise the unmet services, ascending, each once. */
  function GateOf(deps: seq<DependencyRef>, readiness: string -> DepReadiness): Gate {
    var unmet := UnmetServices(deps, readiness);
    if unmet == {} then Ready else Waiting(Ascending(unmet))
  }

  /** `dedup()`: drop an element equal to the one kept before it. */
  function Dedup(s: seq<string>): (r: seq<string>)
    ensures r != [] <==> s != []
    ensures s != [] ==> r[0] == s[0]
  {
    if |s| <= 1 then s
    else if s[0] == s[1] then Dedup(s[1..])
    else [s[0]] + Dedup(s[1..])
  }

  lemma LeIsTotalOrder()
    ensures TotalOrder(Le)
  {
    forall a: string, b: string ensures Le(a, b) || Le(b, a) { LeTotal(a, b); }
    forall a: string, b: string, c: string | Le(a, b) && Le(b, c) ensures Le(a, c) { LeTransitive(a, b, c); }
  }

  ghost predicate StrictlyAscending(s: seq<string>) {
    forall i, j :: 0 <= i < j < |s| ==> Lt(s[i], s[j])
  }

  lemma {:induction false} DedupAscends(s: seq<string>)
    requires Sorted(Le, s)
    ensures StrictlyAscending(Dedup(s))
    ensures forall x :: x in Dedup(s) <==> x in s
  {
    if |s| > 1 {
      var rest := s[1..];
      assert s == [s[0]] + rest;
      DedupAscends(rest);
      if s[0] != s[1] {
        var r := Dedup(rest);
        forall x | x in r ensures Lt(s[0], x) {
          assert x in rest;
          var i :| 0 <= i < |rest| && rest[i] == x;
          assert Le(s[0], s[i + 1]) && Le(s[1], s[i + 1]) by {
            if i == 0 { LeReflexive(s[1]); }
          }
          if s[0] == x { LeAntisymmetric(s[0], s[1]); }
        }
      }
    }
  }

  lemma {:induction false} AscendingUnique(a: seq<string>, b: seq<string>)
    requires StrictlyAscending(a) && StrictlyAscending(b)
    requires forall x :: x in a <==> x in b
    ensures a == b
  {
    if a == [] {
      if b != [] { HasHead(b); }
    } else {
      assert a[0] in a && a[0] in b;
      assert b[0] in b && b[0] in a;
      if a[0] != b[0] {
        LeAntisymmetric(a[0], b[0]);
      }
      forall x ensures x in a[1..] <==> x in b[1..] {
        TailMember(a, x);
        TailMember(b, x);
      }
      AscendingUnique(a[1..], b[1..]);
      assert a == [a[0]] + a[1..] && b == [b[0]] + b[1..];
    }
  }

  lemma HasHead(s: seq<string>)
    requires s != []
    ensures s[0] in s
  {
  }

  lemma TailMember(s: seq<string>, x: string)
    requires StrictlyAscending(s) && s != []
    ensures x in s[1..] <==> x in s && x != s[0]
  {
    if x in s[1..] {
      var i :| 0 <= i < |s[1..]| && s[1..][i] == x;
      assert s[i + 1] == x;
    }
  }

  method Evaluate(d: Deployment, readiness: string -> DepReadiness) returns (gate: Gate)
    ensures gate == GateOf(d.dependsOn, readiness)
  {
    var unmet: seq<string> := [];
    for i := 0 to |d.dependsOn|
      invariant forall s :: s in unmet <==> s in UnmetServices(d.dependsOn[..i], readiness)
    {
      var dep := d.dependsOn[i];
      var observed := readiness(dep.service);
      var met := match (dep.healthy, observed)
        case (_, Absent) => false
        case (false, _) => true
        case (true, Healthy) => true
        case (true, LivePresent) => false;
      assert d.dependsOn[..i + 1] == d.dependsOn[..i] + [dep];
      if !met {
        unmet := unmet + [dep.service];
      }
    }
    assert d.dependsOn[..|d.dependsOn|] == d.dependsOn;
    if unmet == [] {
      assert UnmetServices(d.dependsOn, readiness) == {};
      gate := Ready;
    } else {
      assert unmet[0] in unmet;
      LeIsTotalOrder();
      SortSorted(Le, unmet);
      SortMembers(Le, unmet);
      DedupAscends(Sort(Le, unmet));
      AscendingUnique(Dedup(Sort(Le, unmet)), Ascending(UnmetServices(d.dependsOn, readiness)));
      gate := Waiting(Dedup(Sort(Le, unmet)));
    }
  }

  /** Held exactly when some dependency is unmet, naming each unmet service once, in order. */
  lemma GateMeaning(deps: seq<DependencyRef>, readiness: string -> DepReadiness)
    ensures GateOf(deps, readiness).Waiting? <==> exists dep :: dep in deps && !Met(dep, readiness(dep.service))
    ensures GateOf(deps, readiness).Waiting? ==>
              && var unmet := GateOf(deps, readiness).unmet;
              && unmet != [] && StrictlyAscending(unmet)
              && forall s :: s in unmet <==> exists dep :: dep in deps && dep.service == s && !Met(dep, readiness(s))
  {
    if dep :| dep in deps && !Met(dep, readiness(dep.service)) {
      assert dep.service in UnmetServices(deps, readiness);
    }
  }
}
