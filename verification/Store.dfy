/** The managed deployments: applying specs, the bounded rollback history, and undoing. */
module Stores {
  import opened Text
  import opened Deployments
  import opened Replicas
  import opened Template

  function MaxHistory(): nat { 10 }

  datatype Managed = Managed(spec: Deployment, replicas: seq<Replica>, grant: Option<string>, history: seq<Deployment>, paused: bool)

  function DefaultDeployment(): Deployment {
    Deployment("", "", "", [], 0, Resources(1, 256), [], 0, 0, RollingUpdate(1, 1), [], None, "", [])
  }

  function Blank(): Managed { Managed(DefaultDeployment(), [], None, [], false) }

  /** The newest `n` entries. */
  function Newest(s: seq<Deployment>, n: nat): seq<Deployment> {
    if |s| <= n then s else s[|s| - n..]
  }

  // ---- what the operations do to one entry -------------------------------------------------------

  /** Record a superseded spec, unless its revision is already the newest one; keep the last ten. */
  function Recorded(hash: Bytes -> string, history: seq<Deployment>, prior: Deployment): seq<Deployment> {
    if history != [] && RevisionOf(hash, history[|history| - 1]) == RevisionOf(hash, prior) then history
    else Newest(history + [prior], MaxHistory())
  }

  function Applied(hash: Bytes -> string, m: Managed, spec: Deployment, grant: Option<string>): Managed {
    m.(history := if m.spec.image != "" && RevisionOf(hash, m.spec) != RevisionOf(hash, spec)
                  then Recorded(hash, m.history, m.spec) else m.history,
       spec := spec,
       grant := if grant.Some? then grant else m.grant)
  }

  datatype UndoError = NoDeployment | NoSuchRevision | NothingToUndo
  datatype UndoResult = Rolled(managed: Managed) | Refused(error: UndoError)

  /** `rposition`: the newest entry with the revision. */
  function NewestWith(hash: Bytes -> string, history: seq<Deployment>, revision: string): (r: Option<nat>)
    ensures r.Some? ==> r.value < |history| && RevisionOf(hash, history[r.value]) == revision
    ensures r.Some? ==> forall j :: r.value < j < |history| ==> RevisionOf(hash, history[j]) != revision
    ensures r.None? ==> forall j :: 0 <= j < |history| ==> RevisionOf(hash, history[j]) != revision
  {
    if history == [] then None
    else if RevisionOf(hash, history[|history| - 1]) == revision then Some(|history| - 1)
    else
      assert forall j :: 0 <= j < |history| - 1 ==> history[..|history| - 1][j] == history[j];
      NewestWith(hash, history[..|history| - 1], revision)
  }

  /** Only the pod template rolls back: count, name and namespace stay. */
  function RolledTo(m: Managed, prior: Deployment, rest: seq<Deployment>): Managed {
    m.(spec := prior.(replicas := m.spec.replicas, namespace := m.spec.namespace, name := m.spec.name), history := rest)
  }

  function Undone(hash: Bytes -> string, m: Managed, toRevision: Option<string>): UndoResult {
    match toRevision
    case Some(rev) =>
      (match NewestWith(hash, m.history, rev)
       case Some(i) => Rolled(RolledTo(m, m.history[i], m.history[..i] + m.history[i + 1..]))
       case None => Refused(NoSuchRevision))
    case None =>
      if m.history == [] then Refused(NothingToUndo)
      else Rolled(RolledTo(m, m.history[|m.history| - 1], m.history[..|m.history| - 1]))
  }

  // ---- the store -----------------------------------------------------------------------------------

  class Store {
    const hash: Bytes -> string
    var deployments: map<string, Managed>

    constructor (hash: Bytes -> string)
      ensures this.hash == hash && deployments == map[]
    {
      this.hash, deployments := hash, map[];
    }

    method PushHistory(m: Managed, prior: Deployment) returns (m': Managed)
      ensures m' == m.(history := Recorded(hash, m.history, prior))
    {
      if m.history != [] {
        var last := Revision(hash, m.history[|m.history| - 1]);
        var rev := Revision(hash, prior);
        if last == rev {
          return m;
        }
      }
      var history := m.history + [prior];
      if |history| > MaxHistory() {
        var overflow := |history| - MaxHistory();
        history := history[overflow..];
      }
      m' := m.(history := history);
    }

    method Upsert(spec: Deployment, grant: Option<string>)
      modifies this`deployments
      ensures deployments == old(deployments)[spec.Key() :=
        Applied(hash, if spec.Key() in old(deployments) then old(deployments)[spec.Key()] else Blank(), spec, grant)]
    {
      var key := spec.Key();
      var entry := if key in deployments then deployments[key] else Blank();
      ghost var before := entry;
      if entry.spec.image != "" {
        var outgoing := Revision(hash, entry.spec);
        var incoming := Revision(hash, spec);
        if outgoing != incoming {
          entry := PushHistory(entry, entry.spec);
        }
      }
      entry := entry.(spec := spec);
      if grant.Some? {
        entry := entry.(grant := grant);
      }
      assert entry == Applied(hash, before, spec, grant);
      deployments := deployments[key := entry];
    }

    /** Keys of the deployments in a namespace, ascending. */
    method NamesIn(namespace: string) returns (names: seq<string>)
      ensures names == Ascending(set key | key in deployments && deployments[key].spec.namespace == namespace)
    {
      names := Ascending(set key | key in deployments && deployments[key].spec.namespace == namespace);
    }

    method Undo(key: string, toRevision: Option<string>) returns (r: UndoResult)
      modifies this`deployments
      ensures r == if key in old(deployments) then Undone(hash, old(deployments)[key], toRevision) else Refused(NoDeployment)
      ensures deployments == if r.Rolled? then old(deployments)[key := r.managed] else old(deployments)
    {
      if key !in deployments {
        return Refused(NoDeployment);
      }
      var managed := deployments[key];
      var prior: Deployment;
      var rest: seq<Deployment>;
      match toRevision {
        case Some(rev) =>
          match NewestWith(hash, managed.history, rev) {
            case Some(i) => prior, rest := managed.history[i], managed.history[..i] + managed.history[i + 1..];
            case None => return Refused(NoSuchRevision);
          }
        case None =>
          if managed.history == [] {
            return Refused(NothingToUndo);
          }
          prior, rest := managed.history[|managed.history| - 1], managed.history[..|managed.history| - 1];
      }
      var rolled := prior.(replicas := managed.spec.replicas, namespace := managed.spec.namespace, name := managed.spec.name);
      r := Rolled(managed.(spec := rolled, history := rest));
      deployments := deployments[key := r.managed];
    }
  }

  // ---- the history refines the full log --------------------------------------------------------------

  /** Applying a sequence of specs under one key, from nothing. */
  function AppliedAll(hash: Bytes -> string, specs: seq<Deployment>): Managed {
    if specs == [] then Blank() else
      Applied(hash, AppliedAll(hash, specs[..|specs| - 1]), specs[|specs| - 1], None)
  }

  /** The full log: each spec that was followed by one of a different revision. */
  function Superseded(hash: Bytes -> string, specs: seq<Deployment>): seq<Deployment> {
    if |specs| <= 1 then [] else
      Superseded(hash, specs[..|specs| - 1]) +
      (if RevisionOf(hash, specs[|specs| - 2]) != RevisionOf(hash, specs[|specs| - 1]) then [specs[|specs| - 2]] else [])
  }

  /** The newest log entry always differs from what is running now. */
  lemma {:induction false} LogNeverEndsInCurrent(hash: Bytes -> string, specs: seq<Deployment>)
    requires specs != []
    ensures var log := Superseded(hash, specs);
            log != [] ==> RevisionOf(hash, log[|log| - 1]) != RevisionOf(hash, specs[|specs| - 1])
  {
    hide RevisionOf;
    if |specs| > 1 {
      LogNeverEndsInCurrent(hash, specs[..|specs| - 1]);
    }
  }

  lemma NewestPush(s: seq<Deployment>, x: Deployment, n: nat)
    requires n > 0
    ensures Newest(Newest(s, n) + [x], n) == Newest(s + [x], n)
  {
  }

  /** One more apply keeps the history in step with the log. */
  lemma ApplyStep(hash: Bytes -> string, m: Managed, log: seq<Deployment>, spec: Deployment)
    requires m.history == Newest(log, MaxHistory()) && m.spec.image != ""
    requires log != [] ==> RevisionOf(hash, log[|log| - 1]) != RevisionOf(hash, m.spec)
    ensures var m' := Applied(hash, m, spec, None);
            && m'.spec == spec
            && m'.history == Newest(log + (if RevisionOf(hash, m.spec) != RevisionOf(hash, spec) then [m.spec] else []), MaxHistory())
  {
    hide RevisionOf;
    NewestPush(log, m.spec, MaxHistory());
    assert log + [] == log;
  }

  lemma FirstApply(hash: Bytes -> string, specs: seq<Deployment>)
    requires |specs| == 1
    ensures AppliedAll(hash, specs).history == [] && AppliedAll(hash, specs).spec == specs[0]
  {
    assert specs[..0] == [];
    assert AppliedAll(hash, specs[..0]) == Blank();
  }

  /** After any sequence of applies of specs with an image, the history is exactly the last ten
      entries of the full log: nothing else is dropped, repeated or reordered. */
  lemma {:induction false} HistoryRefinesLog(hash: Bytes -> string, specs: seq<Deployment>)
    requires forall s :: s in specs ==> s.image != ""
    ensures var m := AppliedAll(hash, specs);
            && m.history == Newest(Superseded(hash, specs), MaxHistory())
            && (specs != [] ==> m.spec == specs[|specs| - 1])
  {
    if |specs| == 1 {
      FirstApply(hash, specs);
      hide AppliedAll;
    } else if |specs| > 1 {
      var rest := specs[..|specs| - 1];
      HistoryRefinesLog(hash, rest);
      LogNeverEndsInCurrent(hash, rest);
      hide RevisionOf, Applied, Newest;
      assert rest[|rest| - 1] == specs[|specs| - 2] && specs[|specs| - 2] in specs;
      ApplyStep(hash, AppliedAll(hash, rest), Superseded(hash, rest), specs[|specs| - 1]);
    }
  }

  /** `k` default undos in a row. */
  function UndoneTimes(hash: Bytes -> string, m: Managed, k: nat): Managed
    decreases k
  {
    if k == 0 then m else
      match Undone(hash, m, None)
      case Rolled(m') => UndoneTimes(hash, m', k - 1)
      case Refused(_) => m
  }

  lemma RolledRevision(hash: Bytes -> string, m: Managed, prior: Deployment, rest: seq<Deployment>)
    ensures RevisionOf(hash, RolledTo(m, prior, rest).spec) == RevisionOf(hash, prior)
  {
    RevisionIgnores(hash, RolledTo(m, prior, rest).spec, prior);
  }

  /** Undoing to a named revision works exactly when the history holds it; it takes the newest such
      entry out and runs it. */
  lemma UndoToRevision(hash: Bytes -> string, m: Managed, rev: string)
    ensures Undone(hash, m, Some(rev)).Rolled? <==> exists h :: h in m.history && RevisionOf(hash, h) == rev
    ensures Undone(hash, m, Some(rev)).Rolled? ==>
              var u := Undone(hash, m, Some(rev)).managed;
              && RevisionOf(hash, u.spec) == rev && u.spec.replicas == m.spec.replicas
              && exists i :: 0 <= i < |m.history| && RevisionOf(hash, m.history[i]) == rev
                   && (forall j :: i < j < |m.history| ==> RevisionOf(hash, m.history[j]) != rev)
                   && u.history == m.history[..i] + m.history[i + 1..]
  {
    match NewestWith(hash, m.history, rev) {
      case Some(i) =>
        RolledRevision(hash, m, m.history[i], m.history[..i] + m.history[i + 1..]);
        hide RevisionOf;
        assert m.history[i] in m.history;
      case None =>
    }
  }

  lemma RolledTwice(m: Managed, last: Deployment, rest: seq<Deployment>, prior: Deployment, before: seq<Deployment>)
    ensures RolledTo(RolledTo(m, last, rest), prior, before) == RolledTo(m, prior, before)
  {
  }

  lemma OneUndo(hash: Bytes -> string, m: Managed, k: nat)
    requires 1 <= k && m.history != []
    ensures UndoneTimes(hash, m, k)
         == UndoneTimes(hash, RolledTo(m, m.history[|m.history| - 1], m.history[..|m.history| - 1]), k - 1)
  {
    hide RevisionOf, RolledTo;
  }

  /** `k` default undos are one roll back to the `k`-th newest entry. */
  lemma {:induction false} UndoneIsRolled(hash: Bytes -> string, m: Managed, k: nat)
    requires 1 <= k <= |m.history|
    ensures UndoneTimes(hash, m, k) == RolledTo(m, m.history[|m.history| - k], m.history[..|m.history| - k])
    decreases k
  {
    var last, rest := m.history[|m.history| - 1], m.history[..|m.history| - 1];
    var u1 := RolledTo(m, last, rest);
    assert u1.history == rest;
    OneUndo(hash, m, k);
    if k == 1 {
      assert UndoneTimes(hash, u1, 0) == u1;
    } else {
      hide UndoneTimes, RolledTo;
      UndoneIsRolled(hash, u1, k - 1);
      assert rest[|rest| - (k - 1)] == m.history[|m.history| - k];
      assert rest[..|rest| - (k - 1)] == m.history[..|m.history| - k];
      RolledTwice(m, last, rest, m.history[|m.history| - k], m.history[..|m.history| - k]);
    }
  }

  /** Default undos walk the history back newest first, keep the current count, name and namespace,
      and never touch the tracked replicas. */
  lemma UndoWalksBack(hash: Bytes -> string, m: Managed, k: nat)
    requires 1 <= k <= |m.history|
    ensures var u := UndoneTimes(hash, m, k);
            && RevisionOf(hash, u.spec) == RevisionOf(hash, m.history[|m.history| - k])
            && u.history == m.history[..|m.history| - k]
            && u.spec.replicas == m.spec.replicas && u.spec.Key() == m.spec.Key()
            && u.replicas == m.replicas && u.grant == m.grant && u.paused == m.paused
            && u.spec == m.history[|m.history| - k].(replicas := m.spec.replicas, namespace := m.spec.namespace, name := m.spec.name)
  {
    UndoneIsRolled(hash, m, k);
    RolledRevision(hash, m, m.history[|m.history| - k], m.history[..|m.history| - k]);
    hide RevisionOf, UndoneTimes;
  }

  /** Together: after applying any specs and undoing `k` times, the revision running is the one the
      full log holds `k` from its end. */
  lemma UndoFollowsLog(hash: Bytes -> string, specs: seq<Deployment>, k: nat)
    requires forall s :: s in specs ==> s.image != ""
    requires 1 <= k <= MaxHistory() && k <= |Superseded(hash, specs)|
    ensures var log := Superseded(hash, specs);
            var u := UndoneTimes(hash, AppliedAll(hash, specs), k);
            && RevisionOf(hash, u.spec) == RevisionOf(hash, log[|log| - k])
            && u.spec.replicas == specs[|specs| - 1].replicas
  {
    hide RevisionOf, UndoneTimes, AppliedAll, Superseded, Newest;
    HistoryRefinesLog(hash, specs);
    LogNeedsTwo(hash, specs);
    var m, log := AppliedAll(hash, specs), Superseded(hash, specs);
    NewestFromEnd(log, MaxHistory(), k);
    UndoWalksBack(hash, m, k);
  }

  lemma LogNeedsTwo(hash: Bytes -> string, specs: seq<Deployment>)
    ensures Superseded(hash, specs) != [] ==> |specs| >= 2
  {
  }

  lemma NewestFromEnd(s: seq<Deployment>, n: nat, k: nat)
    requires 1 <= k <= n && k <= |s|
    ensures k <= |Newest(s, n)| && Newest(s, n)[|Newest(s, n)| - k] == s[|s| - k]
  {
  }

  // ---- one apply and one refusal in full --------------------------------------------------------------

  /** An apply runs the new spec, keeps the replicas and the paused flag, keeps the grant unless it
      brings one, and records the outgoing spec only if it has an image, its revision changes and it is
      not the one recorded last; of a longer history the ten newest stay. */
  lemma AppliedExactly(hash: Bytes -> string, m: Managed, spec: Deployment, grant: Option<string>)
    ensures var m' := Applied(hash, m, spec, grant);
            var full := m.history + [m.spec];
            && m'.spec == spec && m'.replicas == m.replicas && m'.paused == m.paused
            && m'.grant == (match grant case Some(g) => Some(g) case None => m.grant)
            && (if m.spec.image == "" || RevisionOf(hash, m.spec) == RevisionOf(hash, spec)
                   || (m.history != [] && RevisionOf(hash, m.history[|m.history| - 1]) == RevisionOf(hash, m.spec))
                then m'.history == m.history
                else |m'.history| == Min(|full|, 10) && m'.history == full[|full| - Min(|full|, 10)..])
  {
    hide RevisionOf, Newest;
    NewestTen(m.history + [m.spec]);
  }

  lemma NewestTen(s: seq<Deployment>)
    ensures Newest(s, MaxHistory()) == s[|s| - Min(|s|, 10)..]
  {
  }

  /** Undo refuses exactly when there is nothing to undo, or nothing recorded with that revision. */
  lemma UndoRefusesExactly(hash: Bytes -> string, m: Managed, toRevision: Option<string>)
    ensures Undone(hash, m, toRevision) == Refused(NothingToUndo) <==> toRevision.None? && m.history == []
    ensures Undone(hash, m, toRevision) == Refused(NoSuchRevision)
       <==> toRevision.Some? && forall p :: p in m.history ==> RevisionOf(hash, p) != toRevision.value
    ensures Undone(hash, m, toRevision) != Refused(NoDeployment)
  {
    hide RevisionOf;
    match toRevision {
      case None =>
      case Some(rev) =>
        var found := NewestWith(hash, m.history, rev);
        hide NewestWith;
        if found.Some? { assert m.history[found.value] in m.history; }
    }
  }
}
