/** The daemon's pass over every managed deployment, and what no sequence of passes, applies and
    rollbacks can break on the cluster. */
module Daemon {
  import opened Text
  import opened Replicas
  import opened Rollout
  import opened Driver
  import opened Ticking
  import opened Controlling
  import opened Convergence
  import opened Template
  import opened Stores

  /** The settings of `Controller::new`. */
  function Defaults(): Config { Config(120, 3) }

  datatype Pass<S> = Pass(world: S, deployments: map<string, Managed>, unconverged: nat)

  function TickFor<S>(dr: MeshDriver<S>, hash: Bytes -> string, w: S, m: Managed): Tick<S> {
    TickOf(dr, Defaults(), w, Health(m.replicas, map[]), m.spec, RevisionOf(hash, m.spec))
  }

  /** One tick for each key in turn, each with a new controller; a missing key is skipped. */
  function PassOver<S>(dr: MeshDriver<S>, hash: Bytes -> string, w: S, deployments: map<string, Managed>, keys: seq<string>): Pass<S>
    decreases |keys|
  {
    if keys == [] then Pass(w, deployments, 0)
    else if keys[0] !in deployments then PassOver(dr, hash, w, deployments, keys[1..])
    else
      var m := deployments[keys[0]];
      var t := TickFor(dr, hash, w, m);
      var p := PassOver(dr, hash, t.world, deployments[keys[0] := m.(replicas := t.After().replicas)], keys[1..]);
      p.(unconverged := p.unconverged + if t.Done() then 0 else 1)
  }

  function KeysFor(deployments: map<string, Managed>, namespace: Option<string>): seq<string> {
    match namespace
    case Some(ns) => Ascending(set key | key in deployments && deployments[key].spec.namespace == ns)
    case None => Ascending(deployments.Keys)
  }

  /** The pass's work for one key: a new controller takes over the replicas, ticks once, and hands
      them back. */
  method Visit<S>(dr: MeshDriver<S>, w: S, store: Store, key: string) returns (w': S, done: bool)
    requires key in store.deployments
    modifies store`deployments
    ensures var m := old(store.deployments)[key];
            var t := TickFor(dr, store.hash, w, m);
            && w' == t.world && done == t.Done()
            && store.deployments == old(store.deployments)[key := m.(replicas := t.After().replicas)]
  {
    hide TickOf, RevisionOf;
    var managed := store.deployments[key];
    var ctrl := new Controller();
    ctrl.replicas := managed.replicas;
    var target := Revision(store.hash, managed.spec);
    var report;
    w', report := ctrl.Tick(dr, w, managed.spec, target);
    store.deployments := store.deployments[key := managed.(replicas := ctrl.replicas)];
    done := report.done;
  }

  lemma PassTurn<S>(dr: MeshDriver<S>, hash: Bytes -> string, w: S, deployments: map<string, Managed>, keys: seq<string>, i: nat)
    requires i < |keys|
    ensures var p := PassOver(dr, hash, w, deployments, keys[i..]);
            if keys[i] !in deployments then p == PassOver(dr, hash, w, deployments, keys[i + 1..]) else
            var m := deployments[keys[i]];
            var t := TickFor(dr, hash, w, m);
            var q := PassOver(dr, hash, t.world, deployments[keys[i] := m.(replicas := t.After().replicas)], keys[i + 1..]);
            p.world == q.world && p.deployments == q.deployments && p.unconverged == q.unconverged + if t.Done() then 0 else 1
  {
    hide TickFor, TickOf;
    assert keys[i..][0] == keys[i] && keys[i..][1..] == keys[i + 1..];
  }

  method ReconcilePass<S>(dr: MeshDriver<S>, w: S, store: Store, namespace: Option<string>) returns (w': S, unconverged: nat)
    modifies store`deployments
    ensures Pass(w', store.deployments, unconverged)
         == PassOver(dr, store.hash, w, old(store.deployments), KeysFor(old(store.deployments), namespace))
  {
    hide TickFor, PassOver, TickOf, Ascending;
    var keys: seq<string>;
    match namespace {
      case Some(ns) => keys := store.NamesIn(ns);
      case None => keys := Ascending(store.deployments.Keys);
    }
    w', unconverged := w, 0;
    ghost var all := PassOver(dr, store.hash, w, store.deployments, keys);
    for i := 0 to |keys|
      invariant var p := PassOver(dr, store.hash, w', store.deployments, keys[i..]);
                p.world == all.world && p.deployments == all.deployments && unconverged + p.unconverged == all.unconverged
    {
      var key := keys[i];
      PassTurn(dr, store.hash, w', store.deployments, keys, i);
      if key !in store.deployments {
        continue;
      }
      var done;
      w', done := Visit(dr, w', store, key);
      if !done {
        unconverged := unconverged + 1;
      }
    }
    assert keys[|keys|..] == [];
    PassNone(dr, store.hash, w', store.deployments);
  }

  lemma PassNone<S>(dr: MeshDriver<S>, hash: Bytes -> string, w: S, deployments: map<string, Managed>)
    ensures PassOver(dr, hash, w, deployments, []) == Pass(w, deployments, 0)
  {
  }

  // ---- a pass that reports nothing left to do ----------------------------------------------------

  ghost predicate Settled(hash: Bytes -> string, m: Managed) {
    Converged(m.spec.replicas, TallyOf(m.replicas, RevisionOf(hash, m.spec)))
  }

  lemma DoneSettles<S>(dr: MeshDriver<S>, hash: Bytes -> string, w: S, m: Managed)
    requires Unique(m.replicas) && TickFor(dr, hash, w, m).Done()
    ensures Settled(hash, m.(replicas := TickFor(dr, hash, w, m).After().replicas))
  {
    hide RevisionOf, TickOf, Converged, TallyOf;
    DoneIsStable(dr, Defaults(), w, Health(m.replicas, map[]), m.spec, RevisionOf(hash, m.spec));
  }

  /** A pass leaves alone what it does not visit, and a count of zero means that every deployment it
      visited has exactly its desired replicas ready on its own revision and nothing else live. */
  lemma {:induction false} PassSettles<S>(dr: MeshDriver<S>, hash: Bytes -> string, w: S, deployments: map<string, Managed>, keys: seq<string>)
    requires forall key :: key in keys && key in deployments ==> Unique(deployments[key].replicas)
    requires forall i, j :: 0 <= i < j < |keys| ==> keys[i] != keys[j]
    ensures var p := PassOver(dr, hash, w, deployments, keys);
            && p.deployments.Keys == deployments.Keys
            && (forall key :: key in deployments && key !in keys ==> p.deployments[key] == deployments[key])
            && (p.unconverged == 0 ==> forall key :: key in deployments && key in keys ==> Settled(hash, p.deployments[key]))
    decreases |keys|
  {
    hide Settled, TickFor, Unique, TickOf;
    if keys != [] {
      var key := keys[0];
      if key !in deployments {
        PassSettles(dr, hash, w, deployments, keys[1..]);
      } else {
        var m := deployments[key];
        var t := TickFor(dr, hash, w, m);
        var next := deployments[key := m.(replicas := t.After().replicas)];
        if t.Done() { DoneSettles(dr, hash, w, m); }
        assert key !in keys[1..];
        PassSettles(dr, hash, t.world, next, keys[1..]);
      }
    }
  }

  // ---- which deployments a pass visits ---------------------------------------------------------------

  /** Everything, or everything whose spec is in the namespace. */
  predicate InScope(m: Managed, namespace: Option<string>) {
    namespace.None? || m.spec.namespace == namespace.value
  }

  /** A pass visits exactly the deployments in scope, each once, in ascending order of their keys. */
  lemma PassVisits(deployments: map<string, Managed>, namespace: Option<string>)
    ensures var keys := KeysFor(deployments, namespace);
            && (forall key :: key in keys <==> key in deployments && InScope(deployments[key], namespace))
            && (forall i, j :: 0 <= i < j < |keys| ==> keys[i] != keys[j] && Le(keys[i], keys[j]))
  {
    hide Ascending;
  }

  /** The world after the first `i` ticks. */
  function WorldAfter<S>(w: S, ticks: seq<Tick<S>>, i: nat): S
    requires i <= |ticks|
  {
    if i == 0 then w else ticks[i - 1].world
  }

  /** `ticks` are the ticks a pass ran for `keys`, one each, every one in the world the one before left:
      it starts from the entry the store held, and its replicas are the ones written back. */
  ghost predicate Ticked<S>(dr: MeshDriver<S>, hash: Bytes -> string, w: S, before: map<string, Managed>, after: map<string, Managed>,
                            keys: seq<string>, ticks: seq<Tick<S>>)
  {
    |ticks| == |keys| && forall i :: 0 <= i < |keys| ==>
      && keys[i] in before && keys[i] in after
      && ticks[i] == TickFor(dr, hash, WorldAfter(w, ticks, i), before[keys[i]])
      && after[keys[i]] == before[keys[i]].(replicas := ticks[i].After().replicas)
  }

  function NotDone<S>(ticks: seq<Tick<S>>): nat {
    if ticks == [] then 0 else NotDone(ticks[1..]) + if ticks[0].Done() then 0 else 1
  }

  lemma {:induction false} PassTicks<S>(dr: MeshDriver<S>, hash: Bytes -> string, w: S, deployments: map<string, Managed>, keys: seq<string>)
    returns (ticks: seq<Tick<S>>)
    requires forall key :: key in keys ==> key in deployments
    requires forall i, j :: 0 <= i < j < |keys| ==> keys[i] != keys[j]
    ensures var p := PassOver(dr, hash, w, deployments, keys);
            && Ticked(dr, hash, w, deployments, p.deployments, keys, ticks) && p.unconverged == NotDone(ticks)
            && p.world == WorldAfter(w, ticks, |ticks|)
            && forall key :: key in deployments && key !in keys ==> key in p.deployments && p.deployments[key] == deployments[key]
    decreases |keys|
  {
    hide TickFor;
    if keys == [] {
      ticks := [];
    } else {
      var m := deployments[keys[0]];
      var t := TickFor(dr, hash, w, m);
      var next := deployments[keys[0] := m.(replicas := t.After().replicas)];
      assert keys[0] !in keys[1..];
      var rest := PassTicks(dr, hash, t.world, next, keys[1..]);
      ticks := [t] + rest;
      var p := PassOver(dr, hash, w, deployments, keys);
      forall i | 0 <= i < |keys|
        ensures keys[i] in deployments && keys[i] in p.deployments
        ensures ticks[i] == TickFor(dr, hash, WorldAfter(w, ticks, i), deployments[keys[i]])
        ensures p.deployments[keys[i]] == deployments[keys[i]].(replicas := ticks[i].After().replicas)
      {
        if i > 0 {
          assert keys[i] == keys[1..][i - 1] && ticks[i] == rest[i - 1];
          assert WorldAfter(w, ticks, i) == WorldAfter(t.world, rest, i - 1);
        }
      }
    }
  }

  /** The whole pass: one tick for each deployment in scope and no other, its replicas written back,
      everything out of scope as it was, and the count is the number of ticks that were not done. */
  lemma PassRuns<S>(dr: MeshDriver<S>, hash: Bytes -> string, w: S, deployments: map<string, Managed>, namespace: Option<string>)
    returns (keys: seq<string>, ticks: seq<Tick<S>>)
    ensures forall key :: key in keys <==> key in deployments && InScope(deployments[key], namespace)
    ensures forall i, j :: 0 <= i < j < |keys| ==> keys[i] != keys[j] && Le(keys[i], keys[j])
    ensures var p := PassOver(dr, hash, w, deployments, KeysFor(deployments, namespace));
            && Ticked(dr, hash, w, deployments, p.deployments, keys, ticks) && p.unconverged == NotDone(ticks)
            && p.world == WorldAfter(w, ticks, |ticks|)
            && forall key :: key in deployments && !InScope(deployments[key], namespace) ==>
                 key in p.deployments && p.deployments[key] == deployments[key]
  {
    hide KeysFor, PassOver, InScope, Ticked, NotDone;
    keys := KeysFor(deployments, namespace);
    PassVisits(deployments, namespace);
    ticks := PassTicks(dr, hash, w, deployments, keys);
  }

  /** A count of zero means that every deployment in scope is settled. */
  lemma PassSettlesScope<S>(dr: MeshDriver<S>, hash: Bytes -> string, w: S, deployments: map<string, Managed>, namespace: Option<string>)
    requires forall key :: key in deployments ==> Unique(deployments[key].replicas)
    ensures var p := PassOver(dr, hash, w, deployments, KeysFor(deployments, namespace));
            && p.deployments.Keys == deployments.Keys
            && (p.unconverged == 0 ==>
                  forall key :: key in deployments && InScope(deployments[key], namespace) ==> Settled(hash, p.deployments[key]))
  {
    hide KeysFor, PassOver, InScope, Settled, Unique;
    PassVisits(deployments, namespace);
    PassSettles(dr, hash, w, deployments, KeysFor(deployments, namespace));
  }

  // ---- the paused flag -----------------------------------------------------------------------------

  /** The same store but for which rollouts are paused. */
  ghost predicate SameButPaused(a: map<string, Managed>, b: map<string, Managed>) {
    a.Keys == b.Keys && forall key :: key in a ==> b[key] == a[key].(paused := b[key].paused)
  }

  /** Pausing holds nothing: a pass does to the world, counts and writes back the same whatever the
      flags are, and it leaves the flags alone. */
  lemma {:induction false} PausedIsIgnored<S>(dr: MeshDriver<S>, hash: Bytes -> string, w: S, a: map<string, Managed>, b: map<string, Managed>,
                                             keys: seq<string>)
    requires SameButPaused(a, b)
    ensures var p, q := PassOver(dr, hash, w, a, keys), PassOver(dr, hash, w, b, keys);
            && p.world == q.world && p.unconverged == q.unconverged && SameButPaused(p.deployments, q.deployments)
            && forall key :: key in b ==> key in q.deployments && q.deployments[key].paused == b[key].paused
    decreases |keys|
  {
    hide TickOf, RevisionOf;
    if keys != [] {
      var key := keys[0];
      if key !in a {
        PausedIsIgnored(dr, hash, w, a, b, keys[1..]);
      } else {
        var t := TickFor(dr, hash, w, a[key]);
        assert TickFor(dr, hash, w, b[key]) == t;
        hide TickFor;
        PausedIsIgnored(dr, hash, t.world, a[key := a[key].(replicas := t.After().replicas)],
                        b[key := b[key].(replicas := t.After().replicas)], keys[1..]);
      }
    }
  }

  lemma SameKeysFor(a: map<string, Managed>, b: map<string, Managed>, namespace: Option<string>)
    requires SameButPaused(a, b)
    ensures KeysFor(a, namespace) == KeysFor(b, namespace)
  {
    hide Ascending;
    match namespace {
      case None =>
      case Some(ns) =>
        assert (set key | key in a && a[key].spec.namespace == ns) == (set key | key in b && b[key].spec.namespace == ns);
    }
  }

  /** So for the whole pass, filtered or not. */
  lemma PauseHoldsNothing<S>(dr: MeshDriver<S>, hash: Bytes -> string, w: S, a: map<string, Managed>, b: map<string, Managed>,
                             namespace: Option<string>)
    requires SameButPaused(a, b)
    ensures var p, q := PassOver(dr, hash, w, a, KeysFor(a, namespace)), PassOver(dr, hash, w, b, KeysFor(b, namespace));
            p.world == q.world && p.unconverged == q.unconverged && SameButPaused(p.deployments, q.deployments)
  {
    hide PassOver, KeysFor, SameButPaused;
    SameKeysFor(a, b, namespace);
    PausedIsIgnored(dr, hash, w, a, b, KeysFor(a, namespace));
  }
}
