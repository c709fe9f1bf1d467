/** The steady-state control loop: count and liveness only, blind to revisions. */
module Reconciling {
  import opened Text
  import opened Sorting
  import opened Deployments
  import opened Replicas

  datatype Plan = Plan(toPlace: nat, toKill: seq<string>)

  function KillRank(p: Phase): nat {
    match p
    case Pending => 0
    case Running => 1
    case _ => 2
  }

  /** Scale-down preference: pending before running, then by job id. */
  predicate KillLe(a: Replica, b: Replica) {
    KillRank(a.phase) < KillRank(b.phase) || (KillRank(a.phase) == KillRank(b.phase) && Le(a.jobId, b.jobId))
  }

  lemma KillLeTotal()
    ensures TotalOrder(KillLe)
  {
    forall a: Replica, b: Replica ensures KillLe(a, b) || KillLe(b, a) {
      LeTotal(a.jobId, b.jobId);
    }
    forall a: Replica, b: Replica, c: Replica | KillLe(a, b) && KillLe(b, c) ensures KillLe(a, c) {
      if Le(a.jobId, b.jobId) && Le(b.jobId, c.jobId) { LeTransitive(a.jobId, b.jobId, c.jobId); }
    }
  }

  function Take<T>(s: seq<T>, n: nat): seq<T> {
    if n <= |s| then s[..n] else s
  }

  function Terminal(s: seq<Replica>): seq<Replica> {
    if s == [] then []
    else if s[0].phase.IsTerminal() then [s[0]] + Terminal(s[1..])
    else Terminal(s[1..])
  }

  function Living(s: seq<Replica>): seq<Replica> {
    if s == [] then []
    else if s[0].phase.IsTerminal() then Living(s[1..])
    else [s[0]] + Living(s[1..])
  }

  lemma {:induction false} SplitAppend(a: seq<Replica>, b: seq<Replica>)
    ensures Terminal(a + b) == Terminal(a) + Terminal(b)
    ensures Living(a + b) == Living(a) + Living(b)
  {
    if a == [] {
      assert a + b == b;
    } else {
      assert (a + b)[1..] == a[1..] + b;
      SplitAppend(a[1..], b);
    }
  }

  lemma SplitStep(s: seq<Replica>, i: nat)
    requires i < |s|
    ensures Terminal(s[..i + 1]) == Terminal(s[..i]) + (if s[i].phase.IsTerminal() then [s[i]] else [])
    ensures Living(s[..i + 1]) == Living(s[..i]) + (if s[i].phase.IsTerminal() then [] else [s[i]])
  {
    assert s[..i + 1] == s[..i] + [s[i]];
    SplitAppend(s[..i], [s[i]]);
  }

  lemma IdsStep(s: seq<Replica>, i: nat)
    requires i < |s|
    ensures Ids(s[..i + 1]) == Ids(s[..i]) + [s[i].jobId]
  {
  }

  lemma IdsPush(s: seq<Replica>, r: Replica)
    ensures Ids(s + [r]) == Ids(s) + [r.jobId]
  {
  }

  lemma SplitNone()
    ensures Terminal([]) == [] && Living([]) == [] && Ids([]) == []
  {
  }

  /** Reap the dead; place the shortfall, or kill the excess in scale-down order. */
  function PlanOf(desired: nat, replicas: seq<Replica>): Plan {
    var live := Living(replicas);
    Plan(SatSub(desired, |live|),
         Ids(Terminal(replicas)) + Ids(Take(Sort(KillLe, live), SatSub(|live|, desired))))
  }

  method Reconcile(d: Deployment, replicas: seq<Replica>) returns (plan: Plan)
    ensures plan == PlanOf(d.replicas, replicas)
  {
    var toPlace, toKill := 0, [];
    SplitNone();
    hide Terminal, Living, Ids, Sort, KillLe;
    var live: seq<Replica> := [];
    for i := 0 to |replicas|
      invariant toKill == Ids(Terminal(replicas[..i]))
      invariant live == Living(replicas[..i])
    {
      var r := replicas[i];
      SplitStep(replicas, i);
      IdsPush(Terminal(replicas[..i]), r);
      if r.phase.IsTerminal() {
        toKill := toKill + [r.jobId];
      } else {
        live := live + [r];
      }
    }
    assert replicas[..|replicas|] == replicas;
    var alive, desired := |live|, d.replicas;
    ghost var reaped := toKill;
    if alive < desired {
      toPlace := desired - alive;
    } else if alive > desired {
      var excess := alive - desired;
      var order := Sort(KillLe, live);
      for i := 0 to excess
        invariant toKill == reaped + Ids(order[..i])
      {
        IdsStep(order, i);
        toKill := toKill + [order[i].jobId];
      }
    }
    plan := Plan(toPlace, toKill);
  }
}
