/** The declarative deployment: what the operator asked for. */
module Deployments {
  import opened Text

  const U32_MAX: int := 0xFFFF_FFFF
  const U64_MAX: int := 0xFFFF_FFFF_FFFF_FFFF

  type U32 = x: int | 0 <= x <= U32_MAX
  type U64 = x: int | 0 <= x <= U64_MAX
  type I128 = x: int | -0x8000_0000_0000_0000_0000_0000_0000_0000 <= x <= 0x7FFF_FFFF_FFFF_FFFF_FFFF_FFFF_FFFF_FFFF

  function Min(a: int, b: int): int { if a <= b then a else b }
  function Max(a: int, b: int): int { if a >= b then a else b }

  /** `a.saturating_add(b)` on u32. */
  function SatAdd(a: U32, b: U32): U32 { Min(a + b, U32_MAX) }

  /** `a.saturating_sub(b)` on unsigned numbers. */
  function SatSub(a: nat, b: nat): nat { if a <= b then 0 else a - b }

  /** `a.saturating_mul(b)` on u32. */
  function SatMul(a: nat, b: nat): U32 {
    assert a * b >= 0;
    Min(a * b, U32_MAX)
  }

  datatype Resources = Resources(cpuCores: U32, memMb: U64)

  datatype Strategy =
    | RollingUpdate(maxUnavailable: U32, maxSurge: U32)
    | Recreate

  datatype EnvVar = EnvVar(name: string, value: string, valueFrom: Option<string>)

  datatype Probe = Probe(command: seq<string>)

  datatype DependencyRef = DependencyRef(service: string, healthy: bool)

  datatype Deployment = Deployment(
    name: string,
    namespace: string,
    image: string,
    command: seq<string>,
    replicas: U32,
    resources: Resources,
    select: seq<string>,
    bid: I128,
    durationSecs: U64,
    strategy: Strategy,
    env: seq<EnvVar>,
    liveness: Option<Probe>,
    service: string,
    dependsOn: seq<DependencyRef>)
  {
    /** The namespace-scoped identity `namespace/name`. */
    function Key(): string {
      namespace + "/" + name
    }

    function ServiceName(): Option<string> {
      if service == "" then None else Some("ce-gke/" + namespace + "/" + service)
    }
  }

  function ResolvedServiceName(dep: DependencyRef, namespace: string): string {
    "ce-gke/" + namespace + "/" + dep.service
  }

  lemma {:induction false} SplitsOnce(a: string, b: string, c: string, e: string)
    requires '/' !in a && '/' !in c && a + "/" + b == c + "/" + e
    ensures a == c && b == e
    decreases |a|
  {
    var s, t := a + "/" + b, c + "/" + e;
    assert s[0] == t[0] && s[1..] == t[1..];
    if a == "" || c == "" {
      assert a == "" && c == "";
      assert s[1..] == b && t[1..] == e;
    } else {
      assert s[1..] == a[1..] + "/" + b && t[1..] == c[1..] + "/" + e;
      SplitsOnce(a[1..], b, c[1..], e);
      assert a == [a[0]] + a[1..] && c == [c[0]] + c[1..];
    }
  }

  /** Keys tell deployments apart: namespaces without a slash share a key only if namespace and name
      are both the same. */
  lemma KeysSeparate(d: Deployment, e: Deployment)
    requires '/' !in d.namespace && '/' !in e.namespace
    ensures d.Key() == e.Key() <==> d.namespace == e.namespace && d.name == e.name
  {
    if d.Key() == e.Key() { SplitsOnce(d.namespace, d.name, e.namespace, e.name); }
  }

  /** A dependency of an app in `namespace` is looked up under exactly the name its publisher
      advertises: the same service, in the same namespace, and nobody else's. */
  lemma DependencyFindsPublisher(dep: DependencyRef, namespace: string, publisher: Deployment)
    requires '/' !in namespace && '/' !in publisher.namespace && dep.service != ""
    ensures publisher.ServiceName() == Some(ResolvedServiceName(dep, namespace))
       <==> publisher.service == dep.service && publisher.namespace == namespace
  {
    if publisher.ServiceName() == Some(ResolvedServiceName(dep, namespace)) {
      var a, b := "ce-gke/" + publisher.namespace + "/" + publisher.service, "ce-gke/" + namespace + "/" + dep.service;
      assert a[7..] == publisher.namespace + "/" + publisher.service && b[7..] == namespace + "/" + dep.service;
      SplitsOnce(publisher.namespace, publisher.service, namespace, dep.service);
    }
  }
}
