/** What the controller needs from the mesh. The driver is any set of functions over any world
    state, so it answers each call as it likes: it may refuse, fail, or report anything. */
module Driver {
  import opened Text
  import opened Deployments
  import opened Replicas
  import opened Placement
  import opened Deps

  datatype MeshDriver<!S> = MeshDriver(
    clock: S -> nat,
    atlas: S -> (S, Option<seq<AtlasEntry>>),
    phase: (S, string, string, Option<Probe>) -> (S, Option<Phase>),
    kill: (S, string, string) -> (S, bool),
    deploy: (S, string, Deployment) -> (S, Option<string>),
    advertise: (S, string) -> (S, bool),
    serviceReady: (S, string) -> (S, Option<DepReadiness>))

  /** The driver never hands out a job id twice: `issued` says which ids exist in a world, no call
      forgets one, and a deploy returns one that did not exist. */
  ghost predicate NeverReissues<S(!new)>(dr: MeshDriver<S>, issued: (S, string) -> bool) {
    && (forall w, id :: issued(w, id) ==> issued(dr.atlas(w).0, id))
    && (forall w, n, j, p, id :: issued(w, id) ==> issued(dr.phase(w, n, j, p).0, id))
    && (forall w, n, j, id :: issued(w, id) ==> issued(dr.kill(w, n, j).0, id))
    && (forall w, n, d, id :: issued(w, id) ==> issued(dr.deploy(w, n, d).0, id))
    && (forall w, s, id :: issued(w, id) ==> issued(dr.advertise(w, s).0, id))
    && (forall w, s, id :: issued(w, id) ==> issued(dr.serviceReady(w, s).0, id))
    && (forall w, n, d :: dr.deploy(w, n, d).1.Some? ==>
          !issued(w, dr.deploy(w, n, d).1.value) && issued(dr.deploy(w, n, d).0, dr.deploy(w, n, d).1.value))
  }
}
