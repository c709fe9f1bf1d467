# ce-gke rollout engine: model and proofs

This project models the reconcile and rollout engine of ce-gke, an orchestrator that keeps a declared
number of replicas of each deployment running on mesh hosts, and proves what that engine promises.
`dafny verify dfyconfig.toml` checks all of it.

- **Planning.** `Rollout`, `Reconcile`: the step planner and plain reconcile. The loops follow the
  program, filling a step object in place, and are proved against `PlanStep` and `PlanOf`. `Planner`,
  `PlanLaws` and `Reduction` prove safety, freedom from deadlock, what a step does exactly, and the
  reduction of the one to the other.
- **The tick.** `Controller` is the object whose methods refresh, gate, kill, substitute, place and
  advertise; each is proved equal to a stage of `TickOf` in `Ticking`, a function that threads the
  state of the mesh through every driver call. A driver (`Driver`) is any record of functions over
  any world type, so it may refuse, fail or report anything in any pattern. Time, the atlas and phase
  observations are what that driver returns.
- **Laws over ticks and runs.** `Accounts` is the balance of one tick in five kinds of replica;
  `WorkLaw`, `Safety`, `Floor`, `Substitutes`, `PlacementLoop`, `Overcommit`, `Identity`, `HealthLaw`,
  `Held` and `Convergence` build on it. `Dialogue` is what a tick says to the mesh, call by call. A run is a sequence of worlds in which ticks start; between ticks the world may change
  at will, except that issued job ids stay issued.
- **The fleet.** `FakeDriver` is the in-memory cluster, `Ownership` what one tick keeps on it,
  `FakeLive` convergence on it with no assumption left about the driver, `Daemon` the pass over the
  store, `Fleet` the invariant over any run of the system. `Store` is the managed state, its bounded
  history and undo.
- **Around it.** `Placement` (fit, score, ranking), `Deps` (the gate), `Topo`, `TopoLaws`, `Stack`
  (dependency order and stack validation), `Template` (the bytes a revision hashes).

`D`, the work left, is |desired - new live| + old live + dead, over tracked replicas. "New" and "on
target" mean launched from the current pod template revision, "live" Pending or Running, "ready"
Running, "dead" Failed or Succeeded.

Integer types: specification numbers carry their widths (`U32`, `U64`, `I128`), and every saturating
or truncating operation is written out. Counts of replicas, candidates and jobs are unbounded.

## Where the code and its documentation differ

The code is followed in each case.

- `src/placement.rs:33-35` says the capacity estimate is "never an over-commit". Fit is checked once
  per tick, when ranking; the placement loop then stacks replicas on a host without looking again.
  `OvercommitLaw.OvercommitsExactly` says when that cannot exceed a host, and `TwoCanOvercommit` is a
  case where it does.
- `src/rollout.rs:92-94` promises that available replicas do not drop below the floor. The plan keeps
  that promise; the tick does not always, because substitute kills may take ready replicas when
  kills of pending ones fail. `FloorLaw.FloorExactly` gives the exact condition.
- `src/controller.rs:203-208` describes substitutes as a matter of pure scale-down. They also act when
  a kill of an old replica fails while Recreate is draining: `SubstituteLaw.SubstitutesExactly` says
  exactly when substitutes are possible.
- README.md:166-168 of the repository says a shortfall is reported. One can go unreported when the
  last candidate is dropped on the last permitted attempt (`PlacementLoop.ShortfallReportedExactly`).
- `src/rollout.rs:27` says a done step leaves nothing to do; it can still list dead replicas to reap
  (`Planner.DoneIdleExactly`).
- `src/state.rs:37-38` says a paused rollout makes no progress toward a new revision. A pass does the
  same whether or not it is paused (`Daemon.PauseHoldsNothing`).

## Model

| member | source | states |
|---|---|---|
| `Rollout.Census` | src/rollout.rs:56-83 | the counting loop returns the live/ready counts of on-target and other replicas and the dead ids in listing order |
| `Rollout.RolloutStep.KillExcessNew` | src/rollout.rs:228-247 | appends exactly the `new_live - desired` first on-target replicas in scale-down order, and touches nothing else of the step |
| `Rollout.RolloutStep.PlanRecreate` | src/rollout.rs:120-144 | the in-place Recreate planner leaves in the step exactly the specified placements, kills in order, and done flag |
| `Rollout.RolloutStep.PlanRolling` | src/rollout.rs:148-225 | the in-place rolling planner leaves in the step exactly the specified placements, kills in order, and done flag |
| `Rollout.PlanNext` | src/rollout.rs:101-117 | the whole planner computes the specification `PlanStep` for either strategy |
| `Planner.VictimsTally` | src/rollout.rs:119-247 | per kind of replica, how many a step retires, as a function of the head count and budgets alone (pending before running, old ready only down to the floor) |
| `Planner.VictimsTracked` | src/rollout.rs:101-247 | with unique ids every planned kill names a tracked replica, none of them twice |
| `Planner.SpareTally` | src/rollout.rs:101-247 | heads are conserved: victims plus survivors are the fleet, kind by kind |
| `Planner.AvailabilityFloor` | src/rollout.rs:165-224 | when the kills of a rolling step succeed, Running stays at least min(Running before, desired - max_unavailable), though ready on-target replicas trimmed in the same step were counted as ready |
| `Planner.NeverStallsRolling` | src/rollout.rs:148-225 | with max_unavailable or an effective surge budget, an idle rolling step that is not done has a target replica still pending |
| `Planner.NeverStallsRecreate` | src/rollout.rs:120-144 | the same for Recreate, with no condition on budgets |
| `Planner.StallsExactly` | src/rollout.rs:176-224 | for given budgets and count some fleet with nothing pending deadlocks if and only if max_unavailable is 0, the surge adds nothing and the count is positive |
| `Planner.DoneIdleExactly` | src/rollout.rs:104-107 | a done step places nothing and kills exactly the dead replicas, so it is idle if and only if none is tracked |
| `PlanLaw.TallyMeans` | src/rollout.rs:55-83 | the five counts are the numbers of pending and running replicas on and off target, and of dead ones, in terms of phase and revision alone |
| `PlanLaw.RollingStepExactly` | src/rollout.rs:148-247 | a rolling step with its kills carried out leaves no dead and no pending old replica, exactly min(new live, desired) new ones with pending trimmed first, and ready old ones exactly down to the floor; it places all that is missing that the surge ceiling admits |
| `PlanLaw.RecreateStepExactly` | src/rollout.rs:120-144 | a Recreate step kills all old replicas and places nothing while one is live, then places exactly what is missing or trims exactly the excess |
| `PlanLaw.DoneExactly` | src/rollout.rs:143-163 | done if and only if exactly the desired number of replicas is live and every one of them is running on target |
| `PlanLaw.KillsInOrder` | src/rollout.rs:104-247 | the kill list is the dead, then excess on-target replicas, pending first and by job id, then old ones, each group of the rest in tracked order |
| `PlanLaw.SparedComeLater` | src/rollout.rs:209-247 | of two live on-target replicas the one killed comes first in scale-down order; of two ready old ones under a rolling update, the one tracked first |
| `Reconciling.Reconcile` | src/reconcile.rs:115-160 | the loop reaps the dead in order, then places the shortfall or kills the excess in scale-down order |
| `Reduction.ReducesToReconcile` | src/rollout.rs:101-247 | when every live replica is on target, both strategies and all budgets give reconcile's placements and its very kill sequence (README.md:161-163 of the repository) |
| `Reduction.ReconcileReachesDesired` | src/reconcile.rs:106-149 | carrying the plan out lands on exactly the desired live count, no dead, and min(Running, desired) ready |
| `Reduction.NoKillSetKeepsMore` | src/reconcile.rs:135-146 | no other set of kills that gets down to the desired count keeps more ready replicas |
| `Controlling.Controller.Observe` | src/controller.rs:94-103 | every replica is asked, in order, before anything is updated |
| `Controlling.Controller.ApplyReports` | src/controller.rs:104-127 | a report resets or bumps the error counter, condemns at the threshold, and counters of untracked ids are dropped |
| `Controlling.Controller.EvaluateDeps` | src/controller.rs:134-149 | resolves each dependency over the mesh, errors counting as absent, and gates on the answers |
| `Controlling.Controller.KillPlanned` | src/controller.rs:179-201 | planned kills: untracked ids skipped, successes untracked and reported, failures kept and counted |
| `Controlling.Controller.KillSubstitutes` | src/controller.rs:209-238 | the substitute loop carries out its specification: order, skips, excess and failure counters |
| `Controlling.Controller.PlaceReplicas` | src/controller.rs:247-287 | the bounded, re-sorting placement loop carries out its specification, attempts and failure report included |
| `Controlling.Controller.Tick` | src/controller.rs:158-306 | one tick of the object equals `TickOf`: new world, replicas, counters and the whole report, for any driver |
| `Controlling.Controller.Converge` | src/controller.rs:311-327 | the loop equals `ConvergeOf`: stops at the first done tick, otherwise spends the budget, with the mesh moving on in between |
| `Accounts.RunKillsEffect` | src/controller.rs:179-201 | for any driver the victims split into killed (removed, reported) and spared (still tracked, counted as failures), kind by kind |
| `Accounts.RunSubstitutesEffect` | src/controller.rs:209-238 | substitutes are tracked alternates, none planned before, at most the excess |
| `Accounts.TickBooks` | src/controller.rs:158-306 | for every driver, strategy and fleet: after + planned kills + substitutes = refreshed + placed, kind by kind, each bounded by what was planned |
| `Accounts.KillReport` | src/controller.rs:196-234 | a tick reports as kill failures exactly the planned kills that no kill, planned or substitute, made up for |
| `Dialogue.TickSays` | src/controller.rs:158-306 | whatever the driver answers, a tick asks for the phase of each tracked replica once on its own host with the liveness probe, looks each dependency up once, asks each planned victim's own host to kill it once in order, asks for substitutes only tracked unplanned replicas on their own hosts, deploys only this spec to ranked hosts, and advertises exactly when it may; nothing else is ever said |
| `Dialogue.RunKillsSays` | src/controller.rs:180-192 | each victim's kill is sent once, in order, to the host it is tracked on |
| `Dialogue.RunSubstitutesSays` | src/controller.rs:218-237 | each substitute kill is sent to the host the replica is tracked on, for an unplanned alternate |
| `Dialogue.PlaceStageSays` | src/controller.rs:244-283 | with something wanted and the gate open the atlas is read once and then only this spec is deployed, to ranked hosts, within the attempts; otherwise nothing is said |
| `Dialogue.AdvertiseSays` | src/controller.rs:293-303 | a service is advertised, once, under ce-gke/namespace/service, if and only if it is named, a replica is running and the gate is open |
| `WorkLaw.TickWork` | src/controller.rs:158-306 | D, the work left, falls by exactly one per successful placement or kill, planned or substitute; the shortfall falls by exactly the placements |
| `WorkLaw.RefreshWork` | src/controller.rs:94-127 | a refresh adds at most two units of D per on-target death, and nothing for anything else |
| `WorkLaw.RunWork` | src/controller.rs:158-306 | over any run of one controller, placements plus kills plus final D is at most D0 + 2 deaths, and placements are at most the starting shortfall plus deaths |
| `Identity.TickOwns` | src/controller.rs:158-306 | with a driver that never reissues an id, tracked ids stay unique and issued through every tick, whatever fails |
| `Safety.SurgeCeiling` | src/controller.rs:244-288 | even if every kill fails, live after a tick is at most max(live after refresh, ceiling), the ceiling being desired under Recreate; a Recreate tick that places ends with no old live replica |
| `Safety.RunSurgeCeiling` | src/controller.rs:158-306 | in every state a run reaches the live count is within max(start, ceiling) plus the replicas that came back from a terminal phase |
| `Safety.TickKeepsFloor` | src/controller.rs:158-306 | the availability floor holds for a tick under any pattern of kill failures while new live is at most desired, and otherwise when planned kills succeed |
| `FloorLaw.FloorExactly` | src/controller.rs:203-238 | a rolling tick over a fleet keeps the floor under every driver if and only if new live <= desired, or nothing on target is ready, or max_unavailable >= desired, or at most max_unavailable on-target replicas are pending |
| `FloorLaw.SafeKeepsFloor` | src/controller.rs:158-306 | the sufficient half of that condition for drivers over any world |
| `FloorLaw.UnsafeBreaksFloor` | src/controller.rs:209-238 | outside the condition, a driver whose kills of pending replicas fail makes the substitutes take ready ones below the floor |
| `Safety.SubstitutesAreSafe` | src/controller.rs:203-238 | substitutes take only unplanned live on-target replicas, never below desired, never in a tick that places, and only after a planned on-target kill failed or while Recreate still drains old replicas |
| `SubstituteLaw.SubstitutesExactly` | src/controller.rs:203-238 | over a fleet some driver makes a tick substitute if and only if more are live on target than desired and either desired is positive or Recreate is draining old replicas |
| `SubstituteLaw.SubstitutesNeed` | src/controller.rs:209-238 | the necessary half for drivers over any world |
| `SubstituteLaw.SubstitutesHappen` | src/controller.rs:209-238 | under the condition, a driver that fails every planned kill makes it happen |
| `PlacementLoop.PlacementAccounting` | src/controller.rs:244-288 | the loop ends within its attempts; placed plus reported failures never exceed what was wanted and equal it whenever the spare attempts cover it |
| `PlacementLoop.ShortfallReportedExactly` | src/controller.rs:250-287 | every driver has its shortfall reported if and only if wanted <= max attempts - candidates; otherwise one that rejects on the last permitted attempt hides it |
| `PlacementLoop.AttemptsCover` | src/controller.rs:250 | that condition is: one replica wanted, or at most three candidates per wanted replica |
| `PlacementLoop.AcceptorPlaces` | src/controller.rs:250-287 | if one ranked host never rejects, something is placed, and everything wanted is once wanted + candidates - 1 attempts are allowed |
| `PlacementLoop.PlacementSpreads` | src/controller.rs:251-283 | greedy balance: score_i - 150(k_i - 1) >= score_j - 150 k_j for a host i that received k_i >= 1 and a host j never rejected, so equally scored ones differ by at most one |
| `OvercommitLaw.ReachExactly` | src/controller.rs:251-283 | over all drivers one placement stage can put k replicas on a ranked host if and only if k is wanted and k plus the hosts ahead of it once charged k - 1 times fit in the attempts |
| `OvercommitLaw.LoadWithinReach` | src/controller.rs:251-283 | the upper half of that for drivers over any world: what a host receives is within its reach |
| `OvercommitLaw.OvercommitsExactly` | src/placement.rs:33-35 | against the comment's promise: no driver makes a tick over-commit a host if and only if every fresh host that fits holds, in true arithmetic, every number of replicas within its reach |
| `OvercommitLaw.OvercommitsWhenCovered` | src/placement.rs:33-35 | when the attempts cover everything wanted and every other ranked host, that is: every eligible host holds all that is wanted |
| `OvercommitLaw.OneNeverOvercommits` | src/placement.rs:48-55 | placing a single replica never over-commits, for requests of at least one core and 1 to 2^32 - 1 MB |
| `OvercommitLaw.TwoCanOvercommit` | src/controller.rs:246-283 | two replicas of one core each can go to a host with one free core |
| `Convergence.DoneMeans` | src/controller.rs:176-177 | a tick reports done exactly when the gate is open and the refreshed fleet is desired ready on-target replicas with no old one live |
| `Convergence.DoneIsStable` | src/controller.rs:158-306 | a done tick places nothing, substitutes nothing and only reaps the dead; with none it changes nothing |
| `Convergence.DoneAgain` | src/controller.rs:158-306 | done is a fixed point: if the next refresh finds the same phases and the gate is open, the next tick is done |
| `Convergence.FairTickMoves` | src/controller.rs:158-306 | a fair tick that is neither done nor waiting for a pending target replica places or kills something |
| `Convergence.Converges` | src/controller.rs:311-327 | from every start, with kills succeeding, one ranked host always accepting and pending replicas ready by the next tick, some tick among the first D + 2 is done |
| `Convergence.ConvergeReachesDone` | src/controller.rs:311-327 | `converge` with a budget of D + 2 ticks returns a done report under those conditions |
| `Convergence.ValidSpecsCanMove` | src/spec.rs:424-446 | the strategy rule and replica cap of validation imply the budgets the liveness results need |
| `FakeLiveness.FakeConverges` | src/driver.rs:347-403 | on the in-memory cluster nothing is assumed but the start: tracked replicas are its jobs, no fault injected, dependencies up, one host with room for the ceiling; then `converge` returns done within D + 2 ticks |
| `FakeLiveness.FirstRolloutConverges` | src/controller.rs:311-327 | from an empty cluster, with the services it depends on up, budgets that can move and one host that fits the ceiling, `converge` returns done within desired + 2 ticks |
| `FakeLiveness.FitAfter` | src/controller.rs:158-306 | that start condition is kept by every tick on the in-memory cluster |
| `Convergence.ConvergeEnds` | src/controller.rs:311-327 | the loop ends with the world, controller and report of the first done tick, otherwise of the last tick with the mesh moved on once more, or untouched without a budget; each tick starts in the world the mesh moved on to |
| `HealthLaw.TickFaithful` | src/controller.rs:94-127 | after the refresh and at the end of a tick, each error counter is the current streak of failed refreshes and each phase is the last observed one until the streak reaches max(1, threshold), then Failed |
| `HealthLaw.RunFaithful` | src/controller.rs:94-127 | the same over any run of one controller |
| `HealthLaw.AdoptionFaithful` | src/daemon.rs:60-61 | a new controller that takes over replicas starts faithful, with no misses |
| `HealthLaw.CondemnedIsScheduled` | src/rollout.rs:106-107 | a replica found terminal is on the kill list of that very tick |
| `HealthLaw.CountersAreTracked` | src/controller.rs:123-126 | after a refresh only tracked replicas have an error counter |
| `HeldRuns.WaitingMeans` | src/controller.rs:134-149 | while lookups answer steadily a tick waits exactly when some dependency is unmet, and names exactly the unmet services, ascending, once each |
| `HeldRuns.WaitsExactly` | src/controller.rs:134-149 | the same with the answers and names spelled out: a service is reported if and only if its lookup under ce-gke/namespace/service finds nothing, or only an unhealthy one where a healthy one is required; ascending, once each |
| `HeldRuns.HeldTick` | src/controller.rs:240-303 | a waiting tick deploys nothing, advertises nothing, never reports done and tracks only what it tracked before, while excess and dead replicas go as soon as kills succeed |
| `HeldRuns.HeldRun` | src/controller.rs:240-303 | over any run of waiting ticks the tracked ids only shrink and nothing is placed, advertised or done |
| `Deps.Evaluate` | src/deps.rs:54-75 | the loop with its sort and dedup computes the gate |
| `Deps.GateMeaning` | src/deps.rs:54-75 | waiting if and only if some dependency is unmet; the unmet list is strictly ascending and exact |
| `Deployments.DependencyFindsPublisher` | src/spec.rs:352-358 | a dependency is looked up under exactly the name its publisher advertises, the same service in the same namespace, and nobody else's |
| `Text.LeMeans` | src/stack.rs:166-171 | the order used for keys, ids and ready sets: a prefix comes first, otherwise the smaller character at the first difference |
| `Placement.RankContents` | src/placement.rs:76-95 | the ranking lists exactly the fresh hosts that fit, best first |
| `Placement.RankListsExactly` | src/placement.rs:27-95 | for distinct hosts, requests of at least one core and 1 to 2^32 - 1 MB: a host is ranked if and only if it was seen within the window, has docker and every selected tag, and holds jobs + 1 replicas in true arithmetic |
| `Placement.RankOrdersByHeadroom` | src/placement.rs:62-95 | under the same conditions one host precedes another if and only if both are usable and it has more unsaturated headroom (100 per free core, 1 per free MB, less 50 per job), or as much and the smaller id |
| `Placement.RankIgnoresAtlasOrder` | src/placement.rs:76-95 | with distinct node ids the ranking does not depend on the order of the atlas |
| `Placement.FitIsExact` | src/placement.rs:38-55 | for mem_mb below 2^32 the saturating fit test says exactly that jobs + 1 replicas fit in cores and memory; above it the truncation admits a host that does not fit |
| `Placement.ImprovementHelps` | src/placement.rs:57-70 | more capacity, fewer jobs, fresher signal never lowers the score and never loses eligibility |
| `Placement.ImprovementKeepsPlace` | src/placement.rs:76-95 | improving one host neither drops it nor moves it behind a host it preceded |
| `Placement.RankDistinct` | src/placement.rs:76-95 | distinct hosts give distinct candidates |
| `Topo.TopoSort` | src/stack.rs:141-194 | the worklist loop with its in-degree, reverse-edge and ready collections computes `TopoOf` |
| `Topo.EmitNext` | src/stack.rs:171-183 | one turn: the least ready node is emitted, in-degrees and the ready set again describe what is left |
| `TopoLaws.TopoSortMeaning` | src/stack.rs:134-194 | succeeds if and only if the graph, referenced-only nodes included, is acyclic; the order has every node once after its dependencies; on failure the reported set is exactly the nodes from which a cycle is reachable, ascending |
| `TopoLaws.LeastOrder` | src/stack.rs:169-183 | the order is the lexicographically least of all topological orders |
| `Stacks.Stack.ApplyNamespace` | src/stack.rs:50-58 | only apps still in the default namespace move to the stack's |
| `Stacks.Stack.ApplyOrder` | src/stack.rs:109-132 | builds the owner graph and sorts it |
| `Stacks.OwnerIsLast` | src/stack.rs:110-117 | the owner of a service is the last-listed app of that namespace publishing it, and there is one if and only if somebody publishes it |
| `Stacks.OwnerGraphEdges` | src/stack.rs:118-131 | under distinct keys an app needs exactly the owners of its dependencies other than itself |
| `Stacks.ApplyOrderMeaning` | src/stack.rs:104-132 | for a sound stack the apply order is a permutation of the app keys with every consumer after the owner of each service it depends on |
| `Stacks.Stack.Validate` | src/stack.rs:62-102 | accepts if and only if there are apps, each valid, keys distinct, every dependency published in its namespace and the owner graph acyclic; a rejection names a real culprit |
| `Stacks.SoundMeans` | src/stack.rs:62-102 | what validation accepts, in the manifest's own terms: apps, each valid, no two with the same namespace/name, every dependency published by an app of the same namespace, and no ring of apps waiting for each other's last-listed publisher |
| `Stacks.OrderRespectsWaiting` | src/stack.rs:104-132 | in the apply order every app comes after every app it waits for, in the same terms |
| `FakeCluster.FakeDriver.AddToHost` | src/driver.rs:364-379 | the first host with the id, and no other, gets its job count changed, never below zero |
| `FakeCluster.FakeDriver.Deploy` | src/driver.rs:352-369 | fails exactly under the one-shot fault, which it clears, or on a rejecting host, and otherwise adds a pending job under the next id with the host's count raised |
| `FakeCluster.FakeDriver.Kill` | src/driver.rs:371-382 | fails exactly for ids with an injected failure; otherwise the job is gone and its host's count lowered; killing an unknown job succeeds |
| `FakeCluster.FakeNeverReissues` | src/driver.rs:352-369 | the in-memory driver is one of those the engine's laws are about: it never hands out an id twice |
| `Daemon.ReconcilePass` | src/daemon.rs:41-94 | the pass over the store equals `PassOver`: one tick by a new controller per key in order, replicas written back, undone ticks counted |
| `Daemon.PassVisits` | src/daemon.rs:47-50 | a pass visits exactly the deployments of the store, or exactly those whose spec is in the namespace, each once, in ascending key order |
| `Daemon.PassRuns` | src/daemon.rs:51-93 | a pass runs one tick for each deployment in scope, in the world the previous one left, starting from its stored entry; writes its replicas back, changes nothing else, and counts the ticks that were not done |
| `Daemon.PassSettlesScope` | src/daemon.rs:41-94 | a count of zero means that every deployment in scope, the whole store without a filter, has exactly its desired replicas ready on its revision and nothing else live |
| `Daemon.PassSettles` | src/daemon.rs:41-94 | entries not visited stay as they were, and a count of zero means every visited deployment has exactly its desired replicas ready on its revision and nothing else live |
| `Daemon.PauseHoldsNothing` | src/daemon.rs:54-57 | two stores that differ only in paused flags get the same world, the same count and the same entries up to those flags from a pass, filtered or not |
| `Ownership.TickKeeps` | src/controller.rs:158-306 | on the in-memory cluster a tick keeps its deployment's jobs equal to its tracked replicas, foreign jobs untouched and host counts right |
| `Fleet.PassSound` | src/daemon.rs:41-94 | a pass keeps the division of all jobs among deployments and leaves unvisited entries and their jobs alone |
| `Fleet.NamespaceIsolated` | src/daemon.rs:47-50 | a namespace-filtered pass leaves every other namespace's entries and jobs exactly as they were |
| `Fleet.FleetRun` | src/daemon.rs:41-94 | over any run of applies, rollbacks, pauses, passes, phase changes and injected faults: a job exists if and only if some deployment tracks it, exactly one does, on the node it runs on, and each host counts its starting jobs plus those on it |
| `Stores.Store.Upsert` | src/state.rs:151-163 | inserts or replaces the spec under its key, keeps replicas, keeps the grant unless a new one is given, records the outgoing spec if its revision changed |
| `Stores.AppliedExactly` | src/state.rs:151-163 | an apply runs the new spec, keeps replicas and paused flag, keeps the grant unless it brings one, and records the outgoing spec only if it has an image, its revision changes and it is not the newest recorded; the ten newest stay |
| `Deployments.KeysSeparate` | src/spec.rs:402-405 | namespaces without a slash share a key only for the same namespace and name |
| `Stores.Store.PushHistory` | src/state.rs:46-56 | records a superseded spec unless its revision is the newest one, and keeps the last ten |
| `Stores.Store.Undo` | src/main.rs:404-428 | default and to-revision undo with their three refusals; nothing but the entry changes |
| `Stores.HistoryRefinesLog` | src/state.rs:46-56 | after any applies of one key with images, the history is the last ten entries of the full log of superseded specs |
| `Stores.UndoRefusesExactly` | src/main.rs:407-417 | undo refuses exactly when the history is empty, or has no entry of the revision asked for |
| `Stores.UndoToRevision` | src/main.rs:407-413 | undo to a revision finds the newest entry with it, runs exactly that revision and removes only that entry |
| `Stores.UndoWalksBack` | src/main.rs:414-428 | k default undos run the k-th newest recorded spec with the current count, name and namespace, keep replicas, grant and paused flag, and drop k entries |
| `Stores.UndoFollowsLog` | src/main.rs:404-428 | the two together: k undos after any applies run the revision the full log holds k from its end |
| `Template.Revision` | src/spec.rs:374-400 | feeding the hasher field by field hashes exactly `TemplateBytes` |
| `Template.RevisionMeansTemplate` | src/spec.rs:370-400 | under a collision-free hash two NUL-free deployments without env vars have the same revision if and only if they have the same pod template |
| `Template.RevisionMeansTemplateAndEnv` | src/spec.rs:370-400 | with env vars and equally many arguments, if and only if the templates and the environment bytes agree |
| `Template.TemplateRoundTrip` | src/spec.rs:374-386 | a decoder recovers image, command, cpu, memory, bid and duration from the hashed bytes when there are no env vars and no NUL in image and arguments |
| `Template.EqualBytesEqualTemplates` | src/spec.rs:374-386 | so for such deployments equal hash input means equal pod template, and conversely |
| `Template.NulArgumentCollides` | src/spec.rs:378-381 | the NUL condition is needed: any argument with a NUL in it hashes like the two it would split into |
| `Template.CollidesExactly` | src/spec.rs:374-396 | with any environments, two NUL-free deployments with equal hash input have the same pod template if and only if they have equally many arguments |
| `Template.SameCountSameTemplate` | src/spec.rs:374-396 | with equally many arguments the hash inputs are equal if and only if the pod templates and the environment bytes are |
| `Template.EnvReadsBack` | src/spec.rs:386-396 | environments with NUL-free names and values and no U+0001 in secret references hash alike if and only if they are the same variables in order, an empty reference counting as none |
| `Template.EnvCollides` | src/spec.rs:386-396 | the argument count is needed: a concrete pair of different NUL-free templates, one with a variable, with the same hash input |
| `Template.RevisionIgnores` | src/spec.rs:370-400 | name, namespace, count, strategy, placement tags, service, dependencies and probe do not change the revision |

## Left out

- Replica, candidate and job counts beyond 2^32: the code counts in u32; here those counts are unbounded, and only specification numbers and capacities saturate or truncate.
- HealthLaw.RunFaithful: covers the run of one controller; the daemon builds a new one each pass, so error counters start over there.
- Convergence.Converges: the environment is fair in every tick of the run; how long a real mesh takes to become fair is not modelled.
- FakeLiveness.FakeConverges: the clock stands still during the run, so the freshness of hosts does not change in it.
- Fleet.FleetRun: `delete`, which kills and forgets an entry (with `--force` even if kills fail), is not one of the events.
- Stacks.Stack.Validate: the validation of a single app is a parameter; its only rules used elsewhere are the strategy rule, the replica cap and that no app depends on its own service.
- Template.TemplateRoundTrip: no environment variables, because the argument list has no end marker before the numbers; `Template.CollidesExactly` and `Template.EnvCollides` cover deployments that have some.
- Template.Revision: SHA-256 and its truncation to 16 hex digits are an arbitrary function of the bytes.
- Host load: the list of hosts is what the atlas reports; hosts outside the cluster's own job count (other tenants) are charged as the code charges them, one replica of this deployment per job.
- Asynchrony: each awaited driver call is one atomic step; sleeping, signals and interleaving of two controllers are not modelled.
- The capability grant: stored and replaced as in the code, but not passed on to the driver, which ignores it in the in-memory cluster.
- Readiness probes: kept by the specification but unused by the tick; liveness probes are passed to the driver as they are.
- The driver for the real mesh, authorization, serving, secrets, the wire protocol and the command line other than undo: calls into code that is not part of this model.
- Loading, saving, migrating and locking the state file: file-system behaviour.
- Manifest parsing, name, image, environment and probe checks, status printing and tallies: easy one-function facts.
