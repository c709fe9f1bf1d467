/** A stack of deployments: who must come up before whom, and when the manifest is rejected. */
module Stacks {
  import opened Text
  import opened Deployments
  import opened Topo
  import opened TopoLaws

  datatype Rejection =
    | NoApps
    | InvalidApp
    | DuplicateKey(key: string)
    | NoPublisher(name: string, service: string, namespace: string)
    | DependencyCycle(stuck: seq<string>)

  // ---- who owns a service ----------------------------------------------------------------------

  predicate Publishes(app: Deployment, namespace: string, service: string) {
    service != "" && app.service == service && app.namespace == namespace
  }

  /** The key of the last-listed app publishing the service in the namespace. */
  function OwnerOf(apps: seq<Deployment>, namespace: string, service: string): Option<string> {
    if apps == [] then None
    else if Publishes(apps[|apps| - 1], namespace, service) then Some(apps[|apps| - 1].Key())
    else OwnerOf(apps[..|apps| - 1], namespace, service)
  }

  /** The producers one app waits for: owners of its dependencies other than itself. */
  function Producers(apps: seq<Deployment>, app: Deployment): set<string> {
    set dep | dep in app.dependsOn && OwnerOf(apps, app.namespace, dep.service).Some?
              && OwnerOf(apps, app.namespace, dep.service).value != app.Key()
            :: OwnerOf(apps, app.namespace, dep.service).value
  }

  /** The owner graph: every app key, with the producers of every app listed under that key. */
  function OwnerGraph(apps: seq<Deployment>, some: seq<Deployment>): Graph {
    if some == [] then map[] else
      var g, app := OwnerGraph(apps, some[..|some| - 1]), some[|some| - 1];
      g[app.Key() := (if app.Key() in g then g[app.Key()] else {}) + Producers(apps, app)]
  }

  function Keys(apps: seq<Deployment>): set<string> {
    set app | app in apps :: app.Key()
  }

  function Listed(owner: map<(string, string), string>, namespace: string, service: string): Option<string> {
    if (namespace, service) in owner then Some(owner[(namespace, service)]) else None
  }

  /** The table built from `apps` answers every lookup with the owner. */
  ghost predicate OwnersIn(owner: map<(string, string), string>, apps: seq<Deployment>) {
    forall ns, svc :: OwnerOf(apps, ns, svc) == Listed(owner, ns, svc)
  }

  /** What validation promises about a stack. */
  ghost predicate Sound(apps: seq<Deployment>, appValid: Deployment -> bool) {
    && apps != []
    && (forall app :: app in apps ==> appValid(app))
    && DistinctKeys(apps)
    && AllPublished(apps)
    && !Cyclic(OwnerGraph(apps, apps))
  }

  ghost predicate DistinctKeys(apps: seq<Deployment>) {
    forall i, j :: 0 <= i < j < |apps| ==> apps[i].Key() != apps[j].Key()
  }

  ghost predicate Published(apps: seq<Deployment>, namespace: string, service: string) {
    exists a :: a in apps && Publishes(a, namespace, service)
  }

  ghost predicate AllPublished(apps: seq<Deployment>) {
    forall app, dep :: app in apps && dep in app.dependsOn ==> Published(apps, app.namespace, dep.service)
  }

  class Stack {
    var namespace: Option<string>
    var apps: seq<Deployment>

    constructor (namespace: Option<string>, apps: seq<Deployment>)
      ensures this.namespace == namespace && this.apps == apps
    {
      this.namespace, this.apps := namespace, apps;
    }

    /** Push the stack's namespace into the apps still at the default one. */
    method ApplyNamespace()
      modifies this`apps
      ensures |apps| == |old(apps)|
      ensures forall i :: 0 <= i < |apps| ==>
        apps[i] == if namespace.Some? && old(apps)[i].namespace == "default"
                   then old(apps)[i].(namespace := namespace.value) else old(apps)[i]
    {
      match namespace {
        case None => return;
        case Some(ns) =>
          for i := 0 to |apps|
            invariant |apps| == |old(apps)|
            invariant forall j :: 0 <= j < |apps| ==>
              apps[j] == if j < i && old(apps)[j].namespace == "default" then old(apps)[j].(namespace := ns) else old(apps)[j]
          {
            if apps[i].namespace == "default" {
              apps := apps[i := apps[i].(namespace := ns)];
            }
          }
      }
    }

    method ServiceOwners() returns (owner: map<(string, string), string>)
      ensures OwnersIn(owner, apps)
    {
      owner := map[];
      for i := 0 to |apps|
        invariant OwnersIn(owner, apps[..i])
      {
        var app := apps[i];
        assert apps[..i + 1][..i] == apps[..i];
        if app.service != "" {
          owner := owner[(app.namespace, app.service) := app.Key()];
        }
      }
      assert apps[..|apps|] == apps;
    }

    method ApplyOrder() returns (r: Outcome)
      ensures r == TopoOf(OwnerGraph(apps, apps))
    {
      var owner := ServiceOwners();
      var deps: Graph := map[];
      for i := 0 to |apps|
        invariant deps == OwnerGraph(apps, apps[..i])
      {
        var app := apps[i];
        assert apps[..i + 1][..i] == apps[..i];
        var entry := if app.Key() in deps then deps[app.Key()] else {};
        ghost var before := entry;
        for j := 0 to |app.dependsOn|
          invariant entry == before + Producers(apps, app.(dependsOn := app.dependsOn[..j]))
        {
          var d := app.dependsOn[j];
          ProducersStep(apps, app, j);
          if (app.namespace, d.service) in owner {
            var o := owner[(app.namespace, d.service)];
            if o != app.Key() {
              entry := entry + {o};
            }
          } else {
            assert OwnerOf(apps, app.namespace, d.service).None?;
          }
        }
        assert app.(dependsOn := app.dependsOn[..|app.dependsOn|]) == app by {
          assert app.dependsOn[..|app.dependsOn|] == app.dependsOn;
        }
        deps := deps[app.Key() := entry];
      }
      assert apps[..|apps|] == apps;
      r := TopoSort(deps);
    }

    method PublishedServices() returns (published: set<(string, string)>)
      ensures forall ns, svc :: (ns, svc) in published <==> Published(apps, ns, svc)
    {
      published := {};
      for i := 0 to |apps|
        invariant forall ns, svc :: (ns, svc) in published <==> Published(apps[..i], ns, svc)
      {
        var app := apps[i];
        PublishedStep(apps, i);
        if app.service != "" {
          published := published + {(app.namespace, app.service)};
        }
      }
      assert apps[..|apps|] == apps;
    }

    method CheckKeys() returns (r: Option<string>)
      ensures r.None? <==> DistinctKeys(apps)
      ensures r.Some? ==> exists i, j :: 0 <= i < j < |apps| && apps[i].Key() == r.value == apps[j].Key()
    {
      var keys: set<string> := {};
      for j := 0 to |apps|
        invariant DistinctKeys(apps[..j])
        invariant keys == Keys(apps[..j])
      {
        assert apps[..j + 1] == apps[..j] + [apps[j]];
        if apps[j].Key() in keys {
          var a :| a in apps[..j] && a.Key() == apps[j].Key();
          var i :| 0 <= i < j && apps[i] == a;
          return Some(apps[j].Key());
        }
        forall i | 0 <= i < j ensures apps[i].Key() != apps[j].Key() {
          assert apps[i] in apps[..j];
        }
        keys := keys + {apps[j].Key()};
      }
      assert apps[..|apps|] == apps;
      r := None;
    }

    method CheckDependencies() returns (r: Option<(Deployment, DependencyRef)>)
      ensures r.None? <==> AllPublished(apps)
      ensures r.Some? ==> r.value.0 in apps && r.value.1 in r.value.0.dependsOn
                          && !Published(apps, r.value.0.namespace, r.value.1.service)
    {
      var published := PublishedServices();
      for i := 0 to |apps|
        invariant forall app, dep :: app in apps[..i] && dep in app.dependsOn ==> Published(apps, app.namespace, dep.service)
      {
        var app := apps[i];
        assert apps[..i + 1] == apps[..i] + [app];
        for j := 0 to |app.dependsOn|
          invariant forall dep :: dep in app.dependsOn[..j] ==> Published(apps, app.namespace, dep.service)
        {
          var dep := app.dependsOn[j];
          assert app.dependsOn[..j + 1] == app.dependsOn[..j] + [dep];
          if (app.namespace, dep.service) !in published {
            return Some((app, dep));
          }
        }
        assert app.dependsOn[..|app.dependsOn|] == app.dependsOn;
      }
      assert apps[..|apps|] == apps;
      r := None;
    }

    /** Accept exactly the sound stacks; otherwise name the first rule broken, in the order the
        rules are checked. `appValid` is each app's own validation. */
    method Validate(appValid: Deployment -> bool) returns (r: Option<Rejection>)
      ensures r.None? <==> Sound(apps, appValid)
      ensures r == Some(NoApps) <==> apps == []
      ensures r == Some(InvalidApp) <==> apps != [] && exists app :: app in apps && !appValid(app)
      ensures r.Some? && r.value.DuplicateKey? ==>
                exists i, j :: 0 <= i < j < |apps| && apps[i].Key() == r.value.key == apps[j].Key()
      ensures r.Some? && r.value.NoPublisher? ==>
                exists app, dep :: app in apps && dep in app.dependsOn && !Published(apps, app.namespace, dep.service)
                  && r.value == NoPublisher(app.name, dep.service, app.namespace)
      ensures r.Some? && r.value.DependencyCycle? ==>
                && DistinctKeys(apps) && AllPublished(apps)
                && forall n :: n in r.value.stuck <==> n in Nodes(OwnerGraph(apps, apps)) && ReachesCycle(OwnerGraph(apps, apps), n)
    {
      if apps == [] {
        return Some(NoApps);
      }
      for i := 0 to |apps|
        invariant forall app :: app in apps[..i] ==> appValid(app)
      {
        assert apps[..i + 1] == apps[..i] + [apps[i]];
        if !appValid(apps[i]) {
          assert apps[i] in apps;
          return Some(InvalidApp);
        }
      }
      assert apps[..|apps|] == apps;
      var duplicate := CheckKeys();
      if duplicate.Some? {
        return Some(DuplicateKey(duplicate.value));
      }
      var missing := CheckDependencies();
      if missing.Some? {
        var (app, dep) := missing.value;
        return Some(NoPublisher(app.name, dep.service, app.namespace));
      }
      var order := ApplyOrder();
      TopoSortMeaning(OwnerGraph(apps, apps));
      hide OwnerGraph, Cyclic, ReachesCycle, Nodes, TopoOf;
      match order {
        case Sorted(_) => r := None;
        case Cycle(stuck) => r := Some(DependencyCycle(stuck));
      }
    }
  }

  lemma PublishedStep(apps: seq<Deployment>, i: nat)
    requires i < |apps|
    ensures forall ns, svc :: Published(apps[..i + 1], ns, svc) <==> Published(apps[..i], ns, svc) || Publishes(apps[i], ns, svc)
  {
    assert apps[..i + 1] == apps[..i] + [apps[i]];
    forall ns, svc ensures Published(apps[..i + 1], ns, svc) <==> Published(apps[..i], ns, svc) || Publishes(apps[i], ns, svc) {
      if Published(apps[..i], ns, svc) {
        var a :| a in apps[..i] && Publishes(a, ns, svc);
        assert a in apps[..i + 1];
      }
      if Publishes(apps[i], ns, svc) { assert apps[i] in apps[..i + 1]; }
    }
  }

  lemma ProducersStep(apps: seq<Deployment>, app: Deployment, j: nat)
    requires j < |app.dependsOn|
    ensures
      var o := OwnerOf(apps, app.namespace, app.dependsOn[j].service);
      Producers(apps, app.(dependsOn := app.dependsOn[..j + 1]))
      == Producers(apps, app.(dependsOn := app.dependsOn[..j])) + (if o.Some? && o.value != app.Key() then {o.value} else {})
  {
    assert app.dependsOn[..j + 1] == app.dependsOn[..j] + [app.dependsOn[j]];
    hide OwnerOf;
  }

  // ---- what the apply order guarantees ----------------------------------------------------------

  /** The owner is the last-listed publisher in the namespace. */
  lemma {:induction false} OwnerIsLast(apps: seq<Deployment>, namespace: string, service: string)
    ensures OwnerOf(apps, namespace, service).Some? <==> Published(apps, namespace, service)
    ensures OwnerOf(apps, namespace, service).Some? ==>
              exists i :: 0 <= i < |apps| && Publishes(apps[i], namespace, service)
                && OwnerOf(apps, namespace, service) == Some(apps[i].Key())
                && forall j :: i < j < |apps| ==> !Publishes(apps[j], namespace, service)
  {
    if apps != [] {
      var last, rest := apps[|apps| - 1], apps[..|apps| - 1];
      assert apps == rest + [last];
      if Publishes(last, namespace, service) {
        assert last in apps;
        assert apps[|apps| - 1] == last;
      } else {
        OwnerIsLast(rest, namespace, service);
        if OwnerOf(rest, namespace, service).Some? {
          var i :| 0 <= i < |rest| && Publishes(rest[i], namespace, service)
                && OwnerOf(rest, namespace, service) == Some(rest[i].Key())
                && forall j :: i < j < |rest| ==> !Publishes(rest[j], namespace, service);
          assert apps[i] == rest[i];
          forall j | i < j < |apps| ensures !Publishes(apps[j], namespace, service) {
            if j < |rest| { assert apps[j] == rest[j]; }
          }
        }
      }
    }
  }

  lemma {:induction false} OwnerGraphEdges(apps: seq<Deployment>, some: seq<Deployment>)
    ensures OwnerGraph(apps, some).Keys == Keys(some)
    ensures forall k, p :: p in Needs(OwnerGraph(apps, some), k) <==>
              exists app :: app in some && app.Key() == k && p in Producers(apps, app)
  {
    if some != [] {
      var rest, last := some[..|some| - 1], some[|some| - 1];
      assert some == rest + [last];
      OwnerGraphEdges(apps, rest);
      hide Producers;
      var g, old' := OwnerGraph(apps, some), OwnerGraph(apps, rest);
      forall k, p
        ensures p in Needs(g, k) <==> exists app :: app in some && app.Key() == k && p in Producers(apps, app)
      {
        assert p in Needs(g, k) <==> p in Needs(old', k) || (k == last.Key() && p in Producers(apps, last));
        if app :| app in rest && app.Key() == k && p in Producers(apps, app) { assert app in some; }
        if k == last.Key() && p in Producers(apps, last) { assert last in some; }
      }
    }
  }

  lemma ProducerIsApp(apps: seq<Deployment>, app: Deployment, p: string)
    requires p in Producers(apps, app)
    ensures p in Keys(apps)
  {
    var dep :| dep in app.dependsOn && OwnerOf(apps, app.namespace, dep.service) == Some(p);
    OwnerIsLast(apps, app.namespace, dep.service);
    var i :| 0 <= i < |apps| && apps[i].Key() == p;
    assert apps[i] in apps;
  }

  lemma OwnerGraphNodes(apps: seq<Deployment>)
    ensures Nodes(OwnerGraph(apps, apps)) == Keys(apps)
  {
    var g := OwnerGraph(apps, apps);
    OwnerGraphEdges(apps, apps);
    forall n, d | n in g && d in g[n] ensures d in Keys(apps) {
      assert d in Needs(g, n);
      var app :| app in apps && app.Key() == n && d in Producers(apps, app);
      ProducerIsApp(apps, app, d);
    }
    hide OwnerGraph;
  }

  lemma {:induction false} DistinctKeysCount(apps: seq<Deployment>)
    requires DistinctKeys(apps)
    ensures |Keys(apps)| == |apps|
  {
    if apps != [] {
      var rest, last := apps[..|apps| - 1], apps[|apps| - 1];
      assert apps == rest + [last];
      DistinctKeysCount(rest);
      assert Keys(apps) == Keys(rest) + {last.Key()};
      assert last.Key() !in Keys(rest);
    }
  }

  /** In a sound stack whose apps do not depend on their own service, the apply order is a
      permutation of the app keys in which every consumer comes after the last-listed publisher,
      in its namespace, of every service it depends on; and it is the least such order. */
  lemma ApplyOrderMeaning(apps: seq<Deployment>, appValid: Deployment -> bool)
    requires Sound(apps, appValid)
    requires forall app, dep :: app in apps && dep in app.dependsOn ==> dep.service != app.service
    ensures TopoOf(OwnerGraph(apps, apps)).Sorted?
    ensures var order := TopoOf(OwnerGraph(apps, apps)).order;
            && Distinct(order) && Elems(order) == Keys(apps) && |order| == |apps|
            && forall app, dep :: app in apps && dep in app.dependsOn ==>
                 && OwnerOf(apps, app.namespace, dep.service).Some?
                 && forall j :: 0 <= j < |order| && order[j] == app.Key() ==>
                      OwnerOf(apps, app.namespace, dep.service).value in order[..j]
  {
    hide OwnerGraph, TopoOf, Cyclic, ReachesCycle, OwnerOf, LexBefore, DistinctKeys, AllPublished;
    var g := OwnerGraph(apps, apps);
    TopoSortMeaning(g);
    OwnerGraphNodes(apps);
    DistinctKeysCount(apps);
    var order := TopoOf(g).order;
    TopologicalLength(g, order);
    forall app, dep | app in apps && dep in app.dependsOn
      ensures OwnerOf(apps, app.namespace, dep.service).Some?
      ensures OwnerOf(apps, app.namespace, dep.service).value in Needs(g, app.Key())
    {
      OwnerIsNeeded(apps, appValid, app, dep);
    }
    hide Needs, Sound;
  }

  lemma OwnerIsNeeded(apps: seq<Deployment>, appValid: Deployment -> bool, app: Deployment, dep: DependencyRef)
    requires Sound(apps, appValid) && app in apps && dep in app.dependsOn && dep.service != app.service
    ensures OwnerOf(apps, app.namespace, dep.service).Some?
    ensures OwnerOf(apps, app.namespace, dep.service).value in Needs(OwnerGraph(apps, apps), app.Key())
  {
    OwnerIsLast(apps, app.namespace, dep.service);
    assert Published(apps, app.namespace, dep.service);
    OwnerIsOther(apps, app, dep);
    OwnerGraphEdges(apps, apps);
    hide OwnerGraph, Cyclic;
    assert OwnerOf(apps, app.namespace, dep.service).value in Producers(apps, app);
  }

  lemma OwnerIsOther(apps: seq<Deployment>, app: Deployment, dep: DependencyRef)
    requires DistinctKeys(apps) && app in apps && dep in app.dependsOn && dep.service != app.service
    requires OwnerOf(apps, app.namespace, dep.service).Some?
    ensures OwnerOf(apps, app.namespace, dep.service).value != app.Key()
  {
    OwnerIsLast(apps, app.namespace, dep.service);
    var i :| 0 <= i < |apps| && Publishes(apps[i], app.namespace, dep.service)
             && OwnerOf(apps, app.namespace, dep.service) == Some(apps[i].Key());
    var j :| 0 <= j < |apps| && apps[j] == app;
    assert i != j;
  }

  // ---- validation and order in the manifest's own terms ---------------------------------------------

  /** App `i` publishes the service in the namespace, and none listed after it does. */
  ghost predicate LastPublisher(apps: seq<Deployment>, i: int, namespace: string, service: string) {
    && 0 <= i < |apps| && service != "" && apps[i].service == service && apps[i].namespace == namespace
    && forall j :: i < j < |apps| ==> !(apps[j].service == service && apps[j].namespace == namespace)
  }

  /** Some app `k` depends on a service that another app `p` was the last to publish. */
  ghost predicate WaitsFor(apps: seq<Deployment>, k: string, p: string) {
    p != k && exists app, dep, i ::
      && app in apps && app.namespace + "/" + app.name == k && dep in app.dependsOn
      && LastPublisher(apps, i, app.namespace, dep.service) && apps[i].namespace + "/" + apps[i].name == p
  }

  lemma OwnerMeans(apps: seq<Deployment>, namespace: string, service: string, p: string)
    ensures OwnerOf(apps, namespace, service) == Some(p)
       <==> exists i :: LastPublisher(apps, i, namespace, service) && apps[i].namespace + "/" + apps[i].name == p
  {
    OwnerIsLast(apps, namespace, service);
    hide OwnerOf;
    if OwnerOf(apps, namespace, service) == Some(p) {
      var i :| 0 <= i < |apps| && Publishes(apps[i], namespace, service) && OwnerOf(apps, namespace, service) == Some(apps[i].Key())
               && forall j :: i < j < |apps| ==> !Publishes(apps[j], namespace, service);
      assert LastPublisher(apps, i, namespace, service);
    }
    if i :| LastPublisher(apps, i, namespace, service) && apps[i].namespace + "/" + apps[i].name == p {
      assert Publishes(apps[i], namespace, service) && apps[i] in apps;
      var j :| 0 <= j < |apps| && Publishes(apps[j], namespace, service) && OwnerOf(apps, namespace, service) == Some(apps[j].Key())
               && forall l :: j < l < |apps| ==> !Publishes(apps[l], namespace, service);
      assert i == j;
    }
  }

  lemma WaitsForIsNeed(apps: seq<Deployment>, k: string, p: string)
    ensures p in Needs(OwnerGraph(apps, apps), k) <==> WaitsFor(apps, k, p)
  {
    OwnerGraphEdges(apps, apps);
    hide OwnerGraph, OwnerOf;
    forall ns, svc { OwnerMeans(apps, ns, svc, p); }
    if app :| app in apps && app.Key() == k && p in Producers(apps, app) {
      var dep :| dep in app.dependsOn && OwnerOf(apps, app.namespace, dep.service) == Some(p);
      var i :| LastPublisher(apps, i, app.namespace, dep.service) && apps[i].namespace + "/" + apps[i].name == p;
    }
    if WaitsFor(apps, k, p) {
      var app, dep, i :| app in apps && app.namespace + "/" + app.name == k && dep in app.dependsOn
                         && LastPublisher(apps, i, app.namespace, dep.service) && apps[i].namespace + "/" + apps[i].name == p;
      assert OwnerOf(apps, app.namespace, dep.service) == Some(p);
      assert p in Producers(apps, app);
    }
  }

  /** A ring of apps, each waiting for the next. */
  ghost predicate Ring(apps: seq<Deployment>, p: seq<string>) {
    |p| >= 2 && p[0] == p[|p| - 1] && forall k :: 0 <= k < |p| - 1 ==> WaitsFor(apps, p[k], p[k + 1])
  }

  lemma CyclicIsRing(apps: seq<Deployment>)
    ensures Cyclic(OwnerGraph(apps, apps)) <==> exists p :: Ring(apps, p)
  {
    hide OwnerGraph, WaitsFor;
    var g := OwnerGraph(apps, apps);
    forall k, p ensures p in Needs(g, k) <==> WaitsFor(apps, k, p) { WaitsForIsNeed(apps, k, p); }
    hide Needs;
    if p :| Walk(g, p) && |p| >= 2 && p[0] == p[|p| - 1] { assert Ring(apps, p); }
    if p :| Ring(apps, p) { assert Walk(g, p); }
  }

  /** Validation accepts a stack if and only if it has apps, each valid by itself, no two of them share
      namespace/name, every dependency names a service some app publishes in the same namespace, and
      no apps wait for each other in a ring. */
  lemma SoundMeans(apps: seq<Deployment>, appValid: Deployment -> bool)
    ensures Sound(apps, appValid)
       <==> && apps != [] && (forall app :: app in apps ==> appValid(app))
            && (forall i, j :: 0 <= i < j < |apps| ==> apps[i].namespace + "/" + apps[i].name != apps[j].namespace + "/" + apps[j].name)
            && (forall app, dep :: app in apps && dep in app.dependsOn ==>
                  dep.service != "" && exists a :: a in apps && a.service == dep.service && a.namespace == app.namespace)
            && !exists p :: Ring(apps, p)
  {
    CyclicIsRing(apps);
    hide Cyclic, OwnerGraph, Ring;
    if AllPublished(apps) {
      forall app, dep | app in apps && dep in app.dependsOn
        ensures dep.service != "" && exists a :: a in apps && a.service == dep.service && a.namespace == app.namespace
      {
        assert Published(apps, app.namespace, dep.service);
      }
    }
    if forall app, dep :: app in apps && dep in app.dependsOn ==>
         dep.service != "" && exists a :: a in apps && a.service == dep.service && a.namespace == app.namespace {
      forall app, dep | app in apps && dep in app.dependsOn ensures Published(apps, app.namespace, dep.service) {
        var a :| a in apps && a.service == dep.service && a.namespace == app.namespace;
        assert Publishes(a, app.namespace, dep.service);
      }
    }
  }

  /** In the apply order every app comes after every app it waits for. */
  lemma OrderRespectsWaiting(apps: seq<Deployment>, appValid: Deployment -> bool, i: nat, p: string)
    requires Sound(apps, appValid)
    ensures var r := TopoOf(OwnerGraph(apps, apps));
            r.Sorted? && (i < |r.order| && WaitsFor(apps, r.order[i], p) ==> p in r.order[..i])
  {
    hide OwnerGraph, TopoOf, Cyclic, ReachesCycle, WaitsFor;
    TopoSortMeaning(OwnerGraph(apps, apps));
    var r := TopoOf(OwnerGraph(apps, apps));
    if i < |r.order| { WaitsForIsNeed(apps, r.order[i], p); }
  }
}
