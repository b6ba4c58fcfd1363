# Schedulator: a verified model of the decision pipeline

Schedulator is a GPU scheduler: deterministic decision engines (scaling, placement, preemption, rebalancing) work on
snapshots of an in-memory world state, a plan generator turns their decisions into a dependency graph of operations, and
an executor runs that graph concurrently against the clusters. This project models those parts in Dafny and proves what
they promise, over every input, every order of events and every run. `dafny verify dfyconfig.toml` checks all of it.

Loops, mutable maps and objects of the program are loops, map-valued variables and classes here. Go's map iteration is an
arbitrary choice of the next key, a goroutine finishing is an arbitrary choice of the next result, a timer firing or a
context being cancelled is an arbitrary boolean, and UUIDs are a sequence of ids that never repeats. Floats are reals,
times are naturals counting nanoseconds with 0 for "never".

| file | what it holds |
|---|---|
| Model, Collections | the data types; enumerations, sums over maps, sorting, ceiling division |
| DependencyGraph, ExecutionTrace, Executor, PlanGenerator | plans and their concurrent execution |
| Operations, InterleavedRuns | the calls each operation's handler makes; whole runs in which the handlers interleave |
| Snapshots, Preemption, GreedyPlan | the engines' view of the world; victim selection, and what it selects said without its queues |
| PlacementScoring, PlacementCycle, Placement, ClusterChoice, PlacementOutcome, CycleVictims, ScaleDownVictims | cluster choice and what it prefers counted in GPUs, the accounting of one placement cycle and what its decisions amount to, the victims a whole cycle names, scale-down victims |
| World, WorldState, SnapshotIsolation, Reservations | the world state as a value, as an object with its mutators, and the memory its snapshots must not share; what reservations hold and how long |
| Events, EventMeaning, Debounce, ControlLoop | what events do to the world and what a stream of them leaves, how they are coalesced, and the loop around the engines |
| Scaling, Rebalancing | the scaling state machine over whole runs; migrations and why they cannot go back and forth |
| SimulatedWorld, Simulator, StartTimes | the simulator as a closed driver of the world state, and when its replicas start |

Main results:

- **Execution.** The three result lists of an uncancelled run are disjoint and functions of the dependency graph and of
  each operation's outcome alone, whatever order results arrive in; no operation is lost, for all outcomes, exactly when
  the plan is closed and acyclic; every generated plan is. Every interleaving of an executor's trace with what the
  handlers can do is a legal run, and in every legal run an operation acts only after its dependencies had their effect:
  a migration's own deletion waits for its replacement to run and never acts if that failed, and a scale-up waits for all
  preemptions in its cluster. Over all whole executions the source replica itself is safe exactly when no other decision
  names it.
- **Preemption.** The plan is a function of the snapshot as a set; it is safe, tight, and withheld only on exhaustion.
  It is the one list that at every step evicts the best replica that may still go: the lowest tier first, the first victim
  from the cluster where that tier holds most GPUs, then the closest match in size; and there is a plan exactly when that
  list frees enough.
- **Placement.** Spread never refuses an application that fits somewhere; capacity placements come first and never
  over-commit a cluster; all reservations stay within the spare GPUs plus those of the distinct victims as long as no plan
  of the cluster names a victim another one names, and exactly when it does is stated below; spread stays balanced; the
  warmest cache tier wins, and among equally warm clusters the tighter fit, counted in GPUs left over, and the emptier one.
  Every application ends a cycle at its target, or growing ones as far towards it as there is room or a plan. A replica
  that lands where its reservation was made leaves every cluster's room as it was.
- **World state.** Which mutations and which event streams keep the accounting of GPUs, pods, scores and gauges, as
  if-and-only-if statements; for every window of events, exactly when its batch does what the raw events would have
  done, and that well-formed events always meet the condition; after every stream a pod or node is there exactly as the
  last event naming it says; the simulator never oversubscribes a node in any tick of any run, each replica taking what
  its application asks for and running exactly its cold start after it was placed, with replica names proved fresh;
  snapshots are isolated as long as they are not written back.
- **Rebalancing and scaling.** A cycle below its cap proposes every replica that passes the filters, where a tie between
  tightest targets may go either way; no chain of migrations returns to a cluster it left, exactly when the threshold is
  positive; under pressure the scaling target is the least count that brings every metric over its limit back to its
  target; over every run actions are approved exactly when the cooldowns and the stabilisation window allow it, and the
  signals counted are consecutive exactly when the engine never paused in between.

Where the code and its own comments differ, the model follows the code:

- All preemption calls of a cycle see the same snapshot, so an application's second preemption placement adopts the same
  plan again. A cycle names no victim twice exactly when no application that needs GPUs has two preemption placements and
  no two applications whose plans overlap have one each (`CycleVictims.VictimsNamedOnceIff`); a starved application that
  wants two replicas always names its victims twice (`CycleVictims.StarvedApplicationNamesVictimsTwice`). The freed GPUs
  are then reserved twice: a cluster's reservations fit exactly when its placements fit in what was spare plus what the
  plans of the adopting applications free, each victim counted once (`CycleVictims.BudgetHoldsIff`, for one application
  `CycleVictims.RepeatedPlanFitsIff`), and on one full node they do not (`CycleVictims.FullNamesVictimTwice`).
- A migration's source replica is deleted only after its replacement ran, in every run, exactly when no preemption, no
  scale-down and no other migration of the cycle names that replica (`InterleavedRuns.SourceIsBlueGreenIff`).
- A target of `MinReplicas` is not always reached: the up-cap is applied after it
  (`Scaling.TargetReachesMinimumIff`).
- The effective target never falls below running plus pending, so the engine itself never asks for a scale-down
  (`Scaling.ComputeTarget`); the stability machine is therefore proved for arbitrary targets.
- The "consecutive" scale-down signals need not be consecutive (`Scaling.SignalsNeedNotBeConsecutive`): the counter is
  the current streak exactly when no cycle without a signal followed a counted one (`Scaling.CounterIsStreakIff`), that
  is, when the engine never stopped wanting to go down, or was cooling, before it next went up (`Scaling.ConsecutiveIff`).
- Changing a replica's size in place (`World.UpsertKeepsAccountingIff`) and announcing a node that already has tracked
  replicas (`Events.ClusterEventKeepsAccountingIff`) are exactly what breaks the accounting.
- Debouncing does not always preserve meaning: keys come from the event, entries from its payload, and neither has to be
  there or to match. A window's batch does, in every order and to every world, what the raw events would have done,
  exactly when for every entry the window replaces some surviving event replaces it and every surviving one says what the
  last raw one says (`Debounce.WindowPreservedIff`). Well-formed events meet this (`Debounce.WellFormedIsKept`); a metrics
  event without its payload, merged over a full one, does not (`Debounce.MissingPayloadErasesUpdate`).
- A migration cap of 0 still lets one migration through: every outcome of a cycle respects the cap exactly when it is
  positive or no migration is worth proposing (`Rebalancing.CapRespectedIff`), ties or not; with the default threshold
  there is an input on which every outcome exceeds it (`Rebalancing.CapOfZeroIsExceeded`).
- `FragmentationScore` measures utilisation, so consolidation moves replicas to larger clusters
  (`Rebalancing.ProposalsGrowCapacity`); with a threshold of 0 or less two equal clusters may pass a replica back and
  forth (`Rebalancing.RoundTrip`), so a chain never returns exactly when the threshold is positive
  (`Rebalancing.NoReturnIff`).
- A reservation lapses after a multiple of the whole seconds of the cold start, so with the default multiple of 2 it
  outlives the cold start exactly when that is a second or longer (`Reservations.OutlivesColdStartIff`).
- A snapshot's node handed back to the world state shares its pod list from then on
  (`SnapshotIsolation.WriteBackThenRestore`); the simulator does this, on a snapshot it then drops.

## Model

| member | source | states |
|---|---|---|
| DependencyGraph.NoSinkMeansCycle | internal/executor/executor.go:128-217 | following dependencies for ever inside a finite plan comes round a cycle, so a stuck plan must be cyclic |
| DependencyGraph.SettledOperationHasFate | internal/executor/executor.go:131-217 | an operation all of whose dependencies can be dispatched must complete, fail, or wait on one that fails |
| DependencyGraph.EveryOperationHasFateIff | internal/executor/executor.go:131-217 | for all outcomes, every operation completes, fails or is aborted if and only if the plan is closed and acyclic |
| Executor.BuildIndices | internal/executor/executor.go:107-129 | the id index covers exactly the operations, all start pending, and the reverse adjacency lists exactly the dependency edges |
| Executor.DepsCompleted | internal/executor/executor.go:233-240 | true if and only if every direct dependency has completed |
| Executor.AbortTransitive | internal/executor/executor.go:244-268 | the search terminates and aborts exactly the pending operations that transitively depend on the failed one, each once |
| Executor.DispatchReady | internal/executor/executor.go:132-152 | afterwards no pending operation has all its dependencies completed; only such were dispatched, and counters match the statuses |
| Executor.TakeResult | internal/executor/executor.go:160-187 | any operation in flight may report next; success completes it, failure also aborts everything downstream of it |
| Executor.AbortPending | internal/executor/executor.go:189-197 | on cancellation every pending operation is aborted and the pending counter becomes 0 |
| Executor.DrainInFlight | internal/executor/executor.go:198-215 | on cancellation every operation in flight is still awaited and recorded by its own outcome |
| Executor.RestingFates | internal/executor/executor.go:128-217 | when nothing is in flight or ready, the status map says exactly which operations must complete, must fail and must be aborted |
| Executor.Execute | internal/executor/executor.go:94-230 | confluence without cancellation; in every run the lists are disjoint and duplicate-free, completed and failed as they must be; total if cancelled or if the plan is closed and acyclic; errors reported as returned; the event trace only dispatches operations whose dependencies succeeded before, takes a result only when nothing more can be dispatched, and holds exactly the results, failures and aborts listed; cancelled only in a context that may be |
| Executor.FatesPartition | internal/executor/executor.go:128-217 | no operation must end in two of the three ways, and in a closed acyclic plan the three sets make up the whole plan |
| Executor.NothingLostIff | internal/executor/executor.go:154-158 | the escape from an empty in-flight set loses no operation, whatever fails, if and only if the plan is closed and acyclic |
| ExecutionTrace.SuccessIsFinal | internal/executor/executor.go:160-187 | in every legal trace an operation that succeeded never fails and is never dropped |
| ExecutionTrace.ErrorIsFinal | internal/executor/executor.go:160-187 | in every legal trace an operation that failed never succeeds and is never dropped |
| Operations.WaitForRunning | internal/executor/operations.go:152-177 | succeeds if and only if Running is observed before any error, termination or the deadline; only observes its own replica |
| Operations.WaitForDeletion | internal/executor/operations.go:182-205 | succeeds if and only if the replica is observed terminated or unknown before the deadline |
| Operations.PerformScaleUp | internal/executor/operations.go:80-112 | success means the replica was created, seen running and kept and the fulfilment of its reservation requested; failure after creation deletes the orphan and requests the reservation's expiry |
| Operations.PerformPreempt | internal/executor/operations.go:116-133 | success means the victim was labelled and deleted; nothing else is ever deleted |
| Operations.PerformScaleDown | internal/executor/operations.go:136-148 | success means the replica was deleted; nothing else is ever deleted |
| Operations.RunningOutcomeMeans | internal/executor/operations.go:152-177 | over all answers, success is Running before any error, termination or the deadline, and the calls only observe the replica |
| Operations.DispatchEnds | internal/executor/operations.go:18-148 | however a dispatched operation ends, it deletes at most its target or a replica it created before, and success means its effect was achieved |
| InterleavedRuns.InterleavingIsLegal | internal/executor/executor.go:132-187 | interleaving any legal executor trace with calls the handlers can make, started after dispatch and complete before the result is taken, gives a legal run |
| InterleavedRuns.DependencyAchievedFirst | internal/executor/executor.go:132-152 | in every legal run, no handler makes a call before each dependency of its operation succeeded and had its effect |
| InterleavedRuns.MigrationIsBlueGreen | internal/plangen/generator.go:93-124 | in every legal run the migration's own deletion makes no call before its replacement was created and seen running |
| InterleavedRuns.FailedReplacementKeepsSource | internal/plangen/generator.go:93-124 | if the replacement failed or was dropped, the migration's own deletion never makes a call |
| InterleavedRuns.ReportedFailureKeepsSource | internal/executor/executor.go:160-217 | the same if the executor reports the replacement as failed or aborted |
| InterleavedRuns.PreemptionsComeFirst | internal/plangen/generator.go:79-111 | a scale-up makes no call before every preemption of the plan in its cluster has deleted its victim |
| InterleavedRuns.DeletedByNamer | internal/executor/operations.go:80-148 | in every legal run a replica is deleted only by an operation of the plan that names it, or by the scale-up that created it before |
| InterleavedRuns.NamedElsewhereIff | internal/plangen/generator.go:46-149 | a second operation of the plan names a migration's source if and only if a preemption, a scale-down or another migration does |
| InterleavedRuns.FailedReplacementKeepsReplica | internal/plangen/generator.go:93-124 | a source that nothing else names is not deleted by anyone if its replacement failed or was dropped |
| InterleavedRuns.NamedElsewhereMayDelete | internal/plangen/generator.go:58-124 | if something else names the source, some execution of the whole plan, in which the replacement is dispatched as soon as it can be, deletes the source before the replacement's handler makes a call |
| InterleavedRuns.SourceIsBlueGreenIff | internal/plangen/generator.go:93-124 | over all outcomes, handler behaviours and executions of the whole plan the source replica is deleted only after its replacement ran, if and only if no preemption, scale-down or other migration names it |
| PlanGenerator.PreemptionIdsAre | internal/plangen/generator.go:55-68 | the ids remembered for a cluster are those of exactly the preemptions in it |
| PlanGenerator.GeneratePlan | internal/plangen/generator.go:46-149 | the plan holds the four phases in order: preemptions, scale-downs, scale-ups after the preemptions of their cluster, migrations as a scale-up and the source's deletion after it |
| PlanGenerator.MigrationIsPlanned | internal/plangen/generator.go:93-124 | every migration becomes a scale-up of its application in its target cluster with its constraints, waiting for exactly the preemptions there, followed by the removal of its source, waiting for that scale-up |
| PlanGenerator.ScaleUpIsPlannedIff | internal/plangen/generator.go:79-111 | a scale-up is in the plan if and only if it was decided or starts a migration's replacement |
| PlanGenerator.ScaleDownIsPlannedIff | internal/plangen/generator.go:70-124 | a scale-down is in the plan if and only if it was decided or removes a migration's source |
| PlanGenerator.PlanDependsBackwards | internal/plangen/generator.go:58-124 | every dependency of a generated plan stands earlier in it |
| PlanGenerator.BackwardsIsAcyclic | internal/plangen/generator.go:58-124 | a list of operations whose dependencies all stand earlier is closed and acyclic |
| PlanGenerator.PlanIsExecutable | internal/plangen/generator.go:46-149 | every generated plan has distinct ids and is closed and acyclic |
| ControlLoop.RunPlan | internal/controlloop/loop.go:243-264 | for all decisions and migrations, cancelled or not, each generated operation ends in exactly one list, and without cancellation which one is decided by the outcomes; every interleaving of the run's trace with what the handlers can do is an execution of the whole plan and a legal run |
| Snapshots.BuildReplicasByApp | internal/worldstate/snapshot.go:28-34 | in any iteration order each bucket is a permutation of the application's replicas |
| Snapshots.ReplicasForApp | internal/engine/engineutil/replicas.go:8-20 | the indexed and the scanning form both list exactly the application's replicas |
| Snapshots.CountActiveReplicas | internal/engine/engineutil/replicas.go:22-30 | with or without the index, the number of running or pending replicas |
| Preemption.CollectCandidates | internal/engine/preemption/engine.go:85-105 | in any iteration order the two lists enumerate exactly the active replicas of lower-priority applications, tier by tier |
| Preemption.PreferenceIsStrictTotal | internal/engine/preemption/engine.go:219-250 | the comparator is a strict total order on candidates with distinct replica ids |
| Preemption.SortCandidates | internal/engine/preemption/engine.go:219-250 | sorting gives the one ranking of the pool, whatever order the pool was collected in; what ranks first is `GreedyPlan.BeforeMeans` |
| Preemption.SelectVictims | internal/engine/preemption/engine.go:163-212 | the greedy loop with its per-application counters is the fold that pins the first cluster, spares minimums and stops when enough is freed |
| Preemption.RunCascade | internal/engine/preemption/engine.go:114-126 | the second tier is tried only for a top-priority application still short, for the remaining need, in the cluster pinned by the first |
| Preemption.FindPreemptionOpportunity | internal/engine/preemption/engine.go:66-157 | the plan is a function of the snapshot, independent of every map iteration order; which plan it is, and whether there is one, is `GreedyPlan.PlanIsGreedyIff` |
| Preemption.CascadeIsTight | internal/engine/preemption/engine.go:114-126 | over both tiers all victims are in one cluster, distinct candidates, and the last one was needed |
| Preemption.CascadeKeepsMinimum | internal/engine/preemption/engine.go:114-126 | the minimum survives both tiers although the second restarts its counters, because the tiers share no application |
| Preemption.PlanIsSafeAndTight | internal/engine/preemption/engine.go:115-156 | victims are distinct active replicas of strictly lower priority in the target cluster; they free at least the need; without the last they do not; every application keeps its minimum active |
| Preemption.GivesUpOnlyWhenExhausted | internal/engine/preemption/engine.go:174-211 | without a plan, every unpicked candidate in the pinned cluster, or anywhere if none was picked, belongs to an application at its minimum |
| GreedyPlan.TotalIsFreeable | internal/engine/preemption/engine.go:221-230 | the total a cluster is ranked by is the GPUs of all running or pending lower-priority replicas of the tier in it, summed over the snapshot's replicas |
| GreedyPlan.BenefitIsMiss | internal/engine/preemption/engine.go:256-266 | the benefit is higher exactly for the size that misses the need by less |
| GreedyPlan.BeforeMeans | internal/engine/preemption/engine.go:232-250 | of two replicas of a tier whose applications are above their minimum, the one in the cluster with most GPUs to free comes first, ties by least cluster id, then the closest match in size, ties by least replica id |
| GreedyPlan.SelectPicksFirst | internal/engine/preemption/engine.go:174-211 | for any queue, each replica the loop takes is the first in it that may still go, and it stops only when enough is freed or none may |
| GreedyPlan.GreedyIsUnique | internal/engine/preemption/engine.go:66-157 | at most one list of evictions takes at every step, while GPUs are missing, the best replica that may still go: its application above its minimum, in the first victim's cluster, of the lowest tier left, the first from the cluster with most GPUs to free, then the closest match |
| GreedyPlan.GreedyExists | internal/engine/preemption/engine.go:66-157 | there is such a list for every snapshot |
| GreedyPlan.PlanIsGreedyIff | internal/engine/preemption/engine.go:66-157 | there is a plan if and only if the requester may preempt and that list frees enough, and then the plan is that list, its cluster and the requester's needs |
| PlacementScoring.ComputeCacheScore | internal/engine/placement/scoring.go:15-53 | the weight of the warmest tier the cluster holds the model in, and the nodes holding it there |
| PlacementScoring.PreferredMeans | internal/engine/placement/scoring.go:15-53 | preferred are first exactly the cluster's nodes with the model in GPU memory, then exactly those with it on local NVMe, and no others |
| PlacementScoring.ComputePackingScore | internal/engine/placement/scoring.go:58-77 | determined by the tightest fitting node; 0 if none fits; what it is in GPUs is `ClusterChoice.PackingMeans` |
| PlacementScoring.ComputeBalanceScore | internal/engine/placement/engine.go:274-279 | the share of ready GPUs not allocated; 0 with no capacity |
| PlacementScoring.DefaultTiersDominate | internal/engine/placement/config.go:17-28 | with the default weights neighbouring tiers differ by more than packing and balance can add up to |
| PlacementScoring.ScoreInBand | internal/engine/placement/scoring.go:15-77 | with sane allocation the score lies between the tier's weight and that plus the two soft weights |
| PlacementScoring.WarmerScoresHigher | internal/engine/placement/engine.go:270-305 | the linear score refines the lexicographic order: a warmer tier always scores strictly higher |
| PlacementCycle.SomeClusterBelowLimit | internal/engine/placement/engine.go:238-268 | by pigeonhole some eligible cluster is always below the spread limit |
| PlacementCycle.NeverOverBudget | internal/engine/placement/engine.go:138-196 | at every point of a cycle a cluster's reservations are at most its spare GPUs plus what the adopted plans free there, counted once per adoption |
| PlacementCycle.NeverOvercommits | internal/engine/placement/engine.go:354-385 | before the first preemption placement no cluster is reserved beyond its spare GPUs |
| PlacementCycle.EligibilityShrinks | internal/engine/placement/engine.go:225-236 | within a cycle the clusters eligible for a given need only become fewer |
| PlacementCycle.CapacityBeforePreemption | internal/engine/placement/engine.go:144-168 | an application's capacity placements precede its preemption placements, and the latter all adopt one and the same plan |
| PlacementCycle.LimitRises | internal/engine/placement/engine.go:238-253 | between two placements of an application the spread limit can only rise |
| PlacementCycle.SpreadIsBalanced | internal/engine/placement/engine.go:238-268 | every cluster given a capacity placement holds at most the ceiling of the application's replicas over the clusters eligible at its latest one |
| PlacementCycle.WarmestClusterWins | internal/engine/placement/engine.go:270-305 | the cluster chosen has the warmest tier among those allowed |
| ClusterChoice.OneNodeCounts | internal/engine/placement/engine.go:274-279 | the GPUs counted and those in use are those of ready nodes, each with its own figures |
| ClusterChoice.PackingMeans | internal/engine/placement/scoring.go:58-77 | the packing score is 1 for an exact fit and falls by an equal part for every GPU left over on the tightest node, down to 0 |
| ClusterChoice.BestIffWorthMost | internal/engine/placement/engine.go:205-324 | a cluster has the highest score if and only if none allowed is worth more: the weight of its tier, less for every GPU left over on its tightest node and for its share of GPUs in use |
| ClusterChoice.TighterFitWins | internal/engine/placement/scoring.go:58-77 | against an allowed cluster of the same tier and share in use, the chosen one's tightest fitting node has no more free GPUs, as long as the other's waste is under a whole node |
| ClusterChoice.EmptierClusterWins | internal/engine/placement/engine.go:270-305 | against an allowed cluster of the same tier and tightest fit, the chosen one's share of GPUs in use is not larger |
| ClusterChoice.CapacityPlacementIsWorthMost | internal/engine/placement/engine.go:205-324 | every capacity placement of a cycle goes to a cluster worth most among those allowed at that point |
| Placement.HasFittingNode | internal/engine/placement/engine.go:342-349 | true if and only if some ready node has the GPUs free, local reservations ignored |
| Placement.ClusterAvailableGPUs | internal/engine/placement/engine.go:354-385 | ready free GPUs less active and local reservations, at least 0; 0 for an unknown cluster |
| Placement.EligibleClusters | internal/engine/placement/engine.go:225-236 | lists exactly the clusters passing the capacity filter |
| Placement.ComputeSpreadLimit | internal/engine/placement/engine.go:238-253 | the ceiling of one more than the application's replicas over the eligible clusters |
| Placement.FindBestCluster | internal/engine/placement/engine.go:205-324 | succeeds if and only if some cluster passes the capacity filter, spread or not; the result has the highest score of all allowed clusters, that is, it is worth most (`ClusterChoice.BestIffWorthMost`) |
| Placement.PlaceOne | internal/engine/placement/engine.go:144-168 | capacity first, then preemption; gives up only when no cluster is eligible and no plan exists |
| Placement.PlaceApp | internal/engine/placement/engine.go:138-196 | places the whole delta, or up to the first refusal and nothing after it |
| Placement.ComputePlacement | internal/engine/placement/engine.go:83-200 | reservations and scale-ups correspond one to one to a justified log; every growing application is served or refused, higher priorities first; every shrinking one ends exactly at its target |
| Placement.PlanScaleDowns | internal/engine/placement/engine.go:119-130 | removes, of each shrinking application and no other, exactly the replicas above its target |
| PlacementOutcome.GrowthReachesTarget | internal/engine/placement/engine.go:83-200 | every application that is to grow ends at its target, counting its scale-ups among the decisions, or below it when no cluster has, besides the cycle's own reservations, both a ready node for one more replica and the GPUs for it, and no preemption plan makes any; none of its replicas is removed |
| PlacementOutcome.RestReachesTarget | internal/engine/placement/engine.go:83-130 | every application that is to shrink ends exactly at its target, by removing active replicas of its own, and every other one is left as it is |
| CycleVictims.SameApplicationSharesIff | internal/engine/placement/engine.go:144-168 | two placements of one application share a victim if and only if the earlier was by preemption and the application needs GPUs |
| CycleVictims.DifferentApplicationsShareIff | internal/engine/placement/engine.go:144-168 | two placements of different applications share a victim if and only if both were by preemption and the plans their snapshot gives them overlap |
| CycleVictims.VictimsNamedOnceIff | internal/engine/placement/engine.go:138-196 | a cycle names no victim twice if and only if no two preemption placements are of one application that needs GPUs or of two with overlapping plans |
| CycleVictims.StarvedApplicationNamesVictimsTwice | internal/engine/placement/engine.go:144-168 | an application that needs GPUs, wants two or more replicas, fits nowhere and has a plan makes every outcome of the cycle name a victim twice |
| CycleVictims.DistinctBudget | internal/engine/placement/engine.go:138-196 | while a cluster's plans name nobody twice, its reservations are at most its spare GPUs plus those of its distinct victims |
| CycleVictims.OnePlanKeepsBudget | internal/engine/placement/engine.go:138-196 | the same bound with at most one preemption placement in the cluster |
| CycleVictims.BudgetHoldsIff | internal/engine/placement/engine.go:138-196 | whichever applications adopt plans in a cluster, its reservations fit in the spare GPUs plus those of its distinct victims if and only if its placements fit in them plus what the plans of the adopting applications free, each victim counted once |
| CycleVictims.VictimsArePlanned | internal/engine/placement/engine.go:149-155 | the victims named in a cluster are exactly those of the plans the snapshot gives the applications adopting there |
| CycleVictims.RepeatedPlanFitsIff | internal/engine/placement/engine.go:144-186 | when one application adopts its plan any number of times in a cluster, the bound holds if and only if that many replicas fit in the spare GPUs plus what the plan frees once |
| CycleVictims.FullNamesVictimTwice | internal/engine/placement/engine.go:144-186 | on one full one-GPU node a high-priority application wanting two replicas names the one victim twice and reserves two GPUs where one is freed |
| ScaleDownVictims.SelectScaleDownVictims | internal/engine/placement/scoring.go:84-161 | distinct active replicas of the application, as many as asked or all, none preferred over by one that stays |
| ScaleDownVictims.RemovedInOrder | internal/engine/placement/scoring.go:84-161 | no replica goes while one on a node with a larger share of its GPUs free stays; on equally used nodes none goes from where its model is cached while one stays where it is not; then none while one stays in a cluster with more of them |
| World.RemoveFirstEnumerates | internal/worldstate/worldstate.go:484-491 | removing a listed replica from a duplicate-free pod list leaves exactly the others |
| World.UpsertAccountsNode | internal/worldstate/worldstate.go:184-219 | an upsert keeps a node's counters and pods exact if and only if it does not resize a replica on it in place |
| World.UpsertKeepsAccountingIff | internal/worldstate/worldstate.go:184-219 | creating, moving or restating a replica keeps nodes, scores and gauges exact if and only if it does not resize one in place |
| World.DeleteKeepsAccounting | internal/worldstate/worldstate.go:223-240 | deleting any id, known or not, keeps nodes, scores and gauges exact |
| World.UpsertNodeKeepsAccountingIff | internal/worldstate/worldstate.go:128-146 | storing a node keeps the accounting if and only if the node given states the replicas tracked on it |
| World.EmptyNodeAccountedIff | internal/worldstate/worldstate.go:142-144 | an empty node states them if and only if none is tracked on it |
| World.RemoveNodeKeepsAccounting | internal/worldstate/worldstate.go:150-164 | removing a node keeps the accounting of all others and of its cluster's score |
| World.CreateKeepsReservationGauge | internal/worldstate/worldstate.go:258-270 | the gauge stays the number of active reservations |
| World.CloseKeepsReservationGauge | internal/worldstate/worldstate.go:274-308 | fulfilling or expiring, refused or not, keeps the gauge exact |
| World.ExpiryKeepsReservationGauge | internal/worldstate/worldstate.go:345-362 | the sweep keeps the gauge exact |
| WorldState.ComputeFragmentation | internal/worldstate/worldstate.go:470-481 | one less the free share of all GPUs; 0 with no capacity |
| WorldState.RemoveFromSlice | internal/worldstate/worldstate.go:484-491 | the list without the first occurrence of the value |
| WorldState.UpsertSteps | internal/worldstate/worldstate.go:184-219 | restoring the old node, allocating the new one and rescoring, in the code's order, is the node-by-node update whatever the move |
| WorldState.Store.constructor | internal/worldstate/worldstate.go:44-80 | starts empty, with every gauge exact |
| WorldState.Store.UpsertReplica | internal/worldstate/worldstate.go:184-219 | the new state is the upsert of the old, and nothing else changed |
| WorldState.Store.DeleteReplica | internal/worldstate/worldstate.go:223-240 | the new state is the deletion from the old; unchanged for an unknown id |
| WorldState.Store.UpsertNode | internal/worldstate/worldstate.go:128-146 | stores the node, creating its cluster if needed, and rescores |
| WorldState.Store.RemoveNode | internal/worldstate/worldstate.go:150-164 | removes the node and rescores; unchanged for an unknown cluster |
| WorldState.Store.CreateReservation | internal/worldstate/worldstate.go:258-270 | refused if and only if the id exists; otherwise stored, and counted if active |
| WorldState.Store.FulfillReservation | internal/worldstate/worldstate.go:274-289 | succeeds if and only if the reservation exists and is active; otherwise nothing changes |
| WorldState.Store.ExpireReservation | internal/worldstate/worldstate.go:293-308 | succeeds if and only if the reservation exists and is active; otherwise nothing changes |
| WorldState.Store.ExpireStaleReservations | internal/worldstate/worldstate.go:345-362 | in any order expires exactly the active reservations past their time to live, and returns how many |
| WorldState.Store.RecordScaleEvent | internal/worldstate/worldstate.go:313-328 | an up event restarts the signal count, a down event adds one, other directions leave the history |
| WorldState.Store.IncrementScaleDownSignal | internal/worldstate/worldstate.go:334-341 | one more signal, times unchanged |
| WorldState.Store.AvailableGPUs | internal/worldstate/worldstate.go:367-395 | ready free GPUs less active reservations, at least 0 |
| WorldState.Store.TakeSnapshot | internal/worldstate/worldstate.go:83-115 | the snapshot shows the state as it is, with a faithful index |
| ControlLoop.AvailabilityAgrees | internal/worldstate/worldstate.go:367-395 | the placement engine's figure for a fresh snapshot is the live one |
| World.FragmentationIsUtilization | internal/worldstate/worldstate.go:470-481 | where every node's GPUs are free or allocated, the score is the share of GPUs in use |
| Reservations.StoringNodeMoves | internal/worldstate/worldstate.go:367-395 | a node counts towards its cluster's room with its free GPUs, if it is ready, in place of the node stored before, and changes no other cluster's room |
| Reservations.PlacingTakes | internal/worldstate/worldstate.go:184-219 | a new replica on a ready node takes exactly its GPUs from its cluster's room |
| Reservations.DeletingGivesBack | internal/worldstate/worldstate.go:223-240 | deleting a replica gives exactly its GPUs back, if its node is ready |
| Reservations.ReservingTakes | internal/worldstate/worldstate.go:258-270 | a new reservation takes what it asks for in its cluster, if it is active |
| Reservations.ClosingGivesBack | internal/worldstate/worldstate.go:274-308 | fulfilling or expiring an active reservation gives that back |
| Reservations.FulfilmentKeepsRoom | internal/worldstate/worldstate.go:274-289 | a replica that lands on a ready node of the cluster its reservation was made in, with its size, and fulfils it leaves every cluster's room as it was |
| Reservations.SweepMeans | internal/worldstate/worldstate.go:345-362 | the sweep expires exactly the active reservations whose creation is their time to live ago, and changes no other |
| Reservations.SweepsCompose | internal/worldstate/worldstate.go:345-362 | a sweep leaves the same world, gauge included, whether or not an earlier one ran before it |
| Reservations.ReservationLapses | internal/engine/placement/engine.go:172-186 | a cycle's reservation holds what was placed where it was placed, and is stale from the configured multiple of the whole seconds of the cold start on, or from the default time where none is known |
| Reservations.OutlivesColdStartIff | internal/engine/placement/engine.go:326-333 | with a multiple of 2 or more a cycle's reservation is active throughout the cold start if and only if that is a second or longer |
| SnapshotIsolation.Append | internal/worldstate/worldstate.go:463 | appending writes to spare capacity in place or moves to a fresh array |
| SnapshotIsolation.RemoveFromSlice | internal/worldstate/worldstate.go:484-491 | the in-place shift, in the same backing array, removes the first occurrence |
| SnapshotIsolation.CloneSlice | internal/worldstate/snapshot.go:62-66 | the copy has the same elements in a fresh array |
| SnapshotIsolation.LiveNodes.TakeSnapshot | internal/worldstate/snapshot.go:38-66 | the snapshot shows the same nodes and shares no array |
| SnapshotIsolation.LiveNodes.AllocateNodeGPUs | internal/worldstate/worldstate.go:450-466 | the node gains the replica; only arrays of live nodes are written |
| SnapshotIsolation.LiveNodes.RestoreNodeGPUs | internal/worldstate/worldstate.go:430-446 | the node loses the replica; only arrays of live nodes are written |
| SnapshotIsolation.LiveNodes.UpsertNode | internal/worldstate/worldstate.go:128-146 | afterwards the nodes are isolated from a snapshot if and only if the node given does not bring one of its arrays and the other nodes were; the same node may be written back again |
| SnapshotIsolation.LiveNodes.SnapshotThenApply | internal/worldstate/worldstate.go:83-115 | no sequence of later removals, additions, announcements of nodes with pod lists of their own and removals of nodes changes what a snapshot shows |
| SnapshotIsolation.WriteBackThenRestore | test/simulator/core/simulator.go:219-225 | a node written back from a snapshot makes the next removal change that snapshot, unless the last replica is removed |
| Events.KeyIsInjective | internal/ingestion/event.go:36-41 | the textual merge key tells kind and application apart, whatever the application id |
| Events.RowDecidedByLast | internal/controlloop/loop.go:436-456 | whatever the events look like, an application's metrics or settings after a stream are what the last event that replaces them says, or what they were |
| Events.SameEffectIff | internal/controlloop/loop.go:436-489 | streams with the same cluster events in the same order do the same to every world if and only if they leave the same in every entry they replace |
| Events.RestDecidedByClusterEvents | internal/controlloop/loop.go:436-489 | everything else is decided by the cluster events in their order |
| Events.ClusterEventKeepsAccountingIff | internal/controlloop/loop.go:459-489 | a cluster event keeps the accounting if and only if it neither resizes a tracked pod in place nor announces a node with tracked pods |
| Events.StreamKeepsAccountingIff | internal/controlloop/loop.go:436-489 | the accounting holds after every prefix of a stream if and only if each cluster event is clean where it arrives |
| EventMeaning.PodDecidedByLast | internal/controlloop/loop.go:436-489 | for every stream and world a replica is tracked afterwards if and only if the last pod event naming it says it runs, or there is none and it was tracked; it runs with that event's application, place, GPUs and time, or its entry is what it was |
| EventMeaning.NodeDecidedByLast | internal/controlloop/loop.go:459-476 | a node is there afterwards if and only if the last node event for its place is NodeUp, or there is none and it was; it has the announced size or what it had, and is ready, or as it was |
| EventMeaning.NodeAfter | internal/controlloop/loop.go:459-476 | one NodeUp leaves an empty ready node of the announced size, one NodeDown none, and no other event changes whether a node is there, its size or its status |
| EventMeaning.FreeAfterStream | internal/controlloop/loop.go:436-489 | after a stream that kept the accounting, a node's free GPUs are its size less the GPUs of the replicas the stream left on it |
| Debounce.BufferKeepsLast | internal/ingestion/debounce.go:99-103 | for any events, the merge buffer holds per kind and application the last event of the window filed there |
| Debounce.BuildBatch | internal/ingestion/debounce.go:115-122 | the merged events once each in any order, then the cluster events in arrival order |
| Debounce.WindowPreservedIff | internal/ingestion/debounce.go:97-122 | for any window, the batch in every order does to every world what the raw events would have done, if and only if for every entry the window replaces some surviving event replaces it and every surviving one says what the last raw one says |
| Debounce.BatchPreservesMeaning | internal/ingestion/debounce.go:115-122 | every batch of such a window does to every world what the raw events would have done |
| Debounce.WellFormedIsKept | internal/ingestion/debounce.go:97-103 | windows of events that carry their payload under the right application meet the condition |
| Debounce.Loop | internal/ingestion/debounce.go:33-113 | for any stream, however windows fall: unless a batch is dropped, which takes a cancellation, the batches are those of consecutive windows of the events read, keep the cluster events in order, and do what the events would have done if every window meets the condition, as well-formed ones do; uncancelled, every event is read; cancelled only in a context that may be |
| Events.CoalescingIsHarmlessIff | internal/ingestion/debounce.go:99-100 | taken by themselves, keeping only the later of two events of a kind leaves every world the same if and only if the earlier replaces nothing or the same entry |
| Events.OrderIsHarmlessIff | internal/ingestion/debounce.go:115-122 | taken by themselves, two merged events may come out in either order, in every world, if and only if they do not replace one entry with different contents |
| Debounce.MissingPayloadErasesUpdate | internal/ingestion/debounce.go:99-101 | a window that fails the condition: a bare metrics event erases an earlier full one with the same key |
| ControlLoop.ApplyClusterEventTo | internal/controlloop/loop.go:459-489 | each kind of cluster event is the mutation it stands for, whose meaning is `EventMeaning.PodAfter` and `EventMeaning.NodeAfter`; pod events without a replica id do nothing |
| ControlLoop.ApplyEvents | internal/controlloop/loop.go:436-456 | a batch is applied in order, so that the last event naming a pod, node or table entry decides it (`EventMeaning.PodDecidedByLast`) |
| ControlLoop.ApplyScalingDecisions | internal/controlloop/loop.go:492-501 | in any order every history moves by exactly one step of the stability machine |
| Scaling.TargetReachesMinimumIff | internal/engine/scaling/engine.go:150-249 | the raw target reaches the minimum if and only if the minimum is within the up-cap of the current count |
| Scaling.TargetMovesWithinCaps | internal/engine/scaling/engine.go:150-249 | the raw target is never further from the current count than the two caps |
| Scaling.ComputeEffectiveTarget | internal/engine/scaling/engine.go:253-294 | the larger of the raw target and what is running or pending, plus, during an SLA breach, the replicas stuck pending for more than twice the cold start |
| Scaling.ComputeTarget | internal/engine/scaling/engine.go:99-146 | a scale-up to the raw target, with replacements for stuck replicas, is approved if and only if something is missing and latency is broken or the last scale-up is a cooldown ago; the signal names the pressure the count wanted is needed for; no scale-down is ever approved or signalled |
| Scaling.ScaleUpTargetRelieves | internal/engine/scaling/engine.go:156-195 | there is a scale-up target if and only if some metric is over its limit and the current count is not enough for it; it is then the least n with n times the target at least the current count times the load, for each such metric, and 1 from a count of 0 |
| Scaling.SignalIsFor | internal/engine/scaling/engine.go:215-225 | the signal names the first of queue, cache and latency for which one replica less would not do |
| Scaling.EfficiencyTargetSuffices | internal/engine/scaling/engine.go:197-207 | when everything is low and there is more than the minimum, the target is the least count from the minimum up that can take the whole batch, cache and queue load |
| Scaling.TargetIsWanted | internal/engine/scaling/engine.go:150-249 | the raw target is that count, raised to the minimum, as far as the caps of one cycle let it go |
| Scaling.CounterCountsSignals | internal/engine/scaling/engine.go:298-380 | in every run the stored counter is the number of down-signals since the last approved scale-up |
| Scaling.ScaleDownIsStabilized | internal/engine/scaling/engine.go:349-373 | an approved scale-down without SLA breach has at least the configured number of such signals, its own included |
| Scaling.ScaleDownsAreApart | internal/engine/scaling/engine.go:341-347 | on a clock that never runs back, approved scale-downs are at least the down-cooldown apart |
| Scaling.CloseScaleUpsNeedBreach | internal/engine/scaling/engine.go:320-335 | approved scale-ups closer than the up-cooldown happen only under SLA breach |
| Scaling.UpIsApprovedIff | internal/engine/scaling/engine.go:320-335 | over every run on a clock that never runs back, a scale-up is approved if and only if the target asks for it and latency is broken or the last approved scale-up is a cooldown ago |
| Scaling.DownIsApprovedIff | internal/engine/scaling/engine.go:337-374 | a signal is observed if and only if the target asks for it and the last approved scale-down is a cooldown ago, and acted on if and only if moreover latency is broken or enough signals were observed since the last approved scale-up, this one included |
| Scaling.SignalsNeedNotBeConsecutive | internal/worldstate/worldstate.go:330-341 | a run in which a cycle without a signal separates the two that approve a scale-down |
| Scaling.CounterIsStreakIff | internal/worldstate/worldstate.go:313-341 | over every run the stored counter is the length of the unbroken streak of signalling cycles at its end if and only if no cycle without a signal followed a counted one |
| Scaling.ConsecutiveIff | internal/engine/scaling/engine.go:320-380 | the same condition in terms of targets and cooldowns: the engine never stopped wanting to go down, or was cooling, before it next went up |
| Scaling.CooldownBreaksStreak | internal/engine/scaling/engine.go:341-347 | a cycle inside the cooldown of an approved scale-down makes the counter differ from the streak until the next approved scale-up |
| Scaling.StreakIff | internal/engine/scaling/engine.go:349-369 | the streak is at least n if and only if each of the last n cycles signalled |
| Scaling.ScaleDownIsConsecutive | internal/engine/scaling/engine.go:359-373 | without such a gap, an approved scale-down outside an SLA breach has the configured number of consecutive signals behind it |
| Rebalancing.TightestNode | internal/engine/rebalancing/scoring.go:32-47 | finds a node if and only if one has room, and then one wasting the least |
| Rebalancing.FindConsolidationTarget | internal/engine/rebalancing/scoring.go:19-71 | finds another cluster if and only if one has room, and then the node wasting the least over all of them |
| Rebalancing.EstimateFragmentationDelta | internal/engine/rebalancing/scoring.go:76-117 | the scores before less the scores with the replica's GPUs freed at the source and taken at the destination's tightest node |
| Rebalancing.EstimateIsShareDifference | internal/engine/rebalancing/scoring.go:76-155 | with current scores the estimate is the replica's share of the source cluster less its share of the destination |
| Rebalancing.ConsiderReplica | internal/engine/rebalancing/engine.go:82-126 | a migration is proposed only for a running surplus, to the tightest target, with the model cached there and a large enough improvement; none is proposed only if the replica or its application is unknown, there is no surplus or no target, or a tightest target is not cached or not improving enough |
| Rebalancing.FindRebalancingOpportunities | internal/engine/rebalancing/engine.go:55-160 | every migration passed every filter and no replica is moved twice; either the cap, or one if it is 0, was reached, or every pod of every fragmented node was moved or failed a filter and the list is in order of preference; the cap is exceeded exactly when it is 0 and something was proposed |
| Rebalancing.FiltersDecide | internal/engine/rebalancing/engine.go:82-126 | unless targets tie, a replica may be left where it is if and only if no migration of it passes every filter |
| Rebalancing.OutcomeIsEmptyIff | internal/engine/rebalancing/engine.go:55-160 | unless targets tie, a cycle proposes something if and only if some migration passes every filter |
| Rebalancing.CapRespectedIff | internal/engine/rebalancing/engine.go:129-153 | every outcome respects the cap if and only if it is positive or no migration passes every filter, ties or not |
| Rebalancing.CapExceededIff | internal/engine/rebalancing/engine.go:129-153 | unless targets tie, the cap is exceeded if and only if it is 0 and some migration passes every filter |
| Rebalancing.CapOfZeroIsExceeded | internal/engine/rebalancing/engine.go:129-135 | between two clusters of two and four GPUs every cycle with a cap of 0 proposes one migration |
| Rebalancing.ProposalMovesOff | internal/engine/rebalancing/engine.go:67-126 | every proposal moves a tracked replica of a known application off a ready, partly used node of a cluster whose score reaches the threshold, to a ready node of another cluster with room, which its constraints name |
| Rebalancing.OutcomeInOrder | internal/engine/rebalancing/engine.go:140-149 | below the cap, migrations of less important applications come first, and those of equally important ones in the order of their replica ids |
| Rebalancing.OutcomeCovers | internal/engine/rebalancing/engine.go:67-126 | below the cap, every pod of a ready, partly used node of such a cluster is moved, or fails a filter |
| Rebalancing.AccountedSnapshotIsFaithful | internal/engine/rebalancing/engine.go:55-160 | what the migration results assume of a snapshot follows from the world-state accounting |
| Rebalancing.ProposalsGrowCapacity | internal/engine/rebalancing/engine.go:100-126 | every proposed migration goes to a cluster of strictly larger total capacity |
| Rebalancing.NoPingPong | internal/engine/rebalancing/engine.go:55-160 | over any number of cycles a chain of migrations of one replica never returns to a cluster it has been in |
| Rebalancing.RoundTrip | internal/engine/rebalancing/engine.go:106-125 | with a threshold of 0 or less, between any two clusters of equal capacity, of at least two GPUs, a replica may be proposed over and then back |
| Rebalancing.NoReturnIff | internal/engine/rebalancing/engine.go:112-118 | over all capacities and chains of proposed migrations, no chain returns to a cluster it left if and only if the threshold is positive |
| SimulatedWorld.SafeMeansEverythingFits | test/simulator/core/simulator.go:178-202 | in a safe state the replicas on a node fit in it together and its counters add up |
| SimulatedWorld.PlacingIsSafe | test/simulator/core/simulator.go:246-264 | placing a new replica where there is room keeps the state safe |
| SimulatedWorld.PromotionStep | test/simulator/core/simulator.go:214-218 | marking a replica of the earlier snapshot as running changes its status and nothing else |
| SimulatedWorld.DownStep | test/simulator/core/simulator.go:219-225 | a node written back from the earlier snapshot still carries the current counters, so only its status changes |
| SimulatedWorld.EvolvesTransitive | test/simulator/core/simulator.go:168-176 | fixed capacity and the draining of lost nodes carry over from step to step |
| Simulator.ReplicaNameIsInjective | test/simulator/core/simulator.go:254 | no two scale-ups of a run share a replica name, whatever dashes and digits the application ids contain |
| Simulator.NextNameIsFresh | test/simulator/core/simulator.go:254 | the name of the next scale-up is not among the replicas created so far |
| Simulator.Simulator.constructor | test/simulator/core/simulator.go:50-145 | exactly the configured clusters, each with exactly its empty nodes, and exactly the configured applications exist, the last entry for an id deciding; the initial state is safe and has no replicas |
| Simulator.LaterMeans | test/simulator/core/simulator.go:204-232 | the queue keeps exactly the events after now, each as often as before |
| Simulator.FirstEntryDecides | test/simulator/core/simulator.go:270-286 | an application's cold start is what its first entry says, 60 seconds where it says nothing |
| Simulator.Simulator.ProcessEvents | test/simulator/core/simulator.go:204-232 | promotes exactly the replicas due and still there, marks exactly the nodes of lost clusters down, keeps exactly the later events |
| Simulator.Simulator.FindNodeWithCapacity | test/simulator/core/simulator.go:293-306 | returns a ready node with room if and only if there is one |
| Simulator.Simulator.EnactScaleUp | test/simulator/core/simulator.go:246-286 | placed, with the size its application asks for, on a ready node that has that room and then has that much less, and its start queued, if and only if its cluster has room for that size; otherwise dropped without trace |
| Simulator.Simulator.ApplyDecisions | test/simulator/core/simulator.go:234-291 | for arbitrary decisions: exactly the victims and the scaled-down go, only pending replicas of the scale-ups come, created now with the size their application asks for, each with exactly one start event, and each scale-up is placed if and only if its cluster has room for that size when its turn comes |
| Simulator.Simulator.Tick | test/simulator/core/simulator.go:178-202 | due events, then decisions as `ApplyDecisions` enacts them; safe before means safe after; capacities stay, the nodes of clusters lost by then are down, and down nodes only drain |
| Simulator.Simulator.Run | test/simulator/core/simulator.go:168-176 | over every run, on any load and any decisions, it ticks once per interval until the end time, each state comes from the one before by the tick of its time, every state is safe and evolved from every earlier one, and replicas that start with the size their application asks for keep it, as does every one added |
| Simulator.RunAllocatesWhatIsAsked | test/simulator/core/simulator.go:168-202 | at every moment of a run that starts with such replicas, the GPUs a node has allocated are the sum of what the applications of the replicas on it ask for, and at most what it has |
| StartTimes.ReplicasStartOnTime | test/simulator/core/simulator.go:168-289 | after every tick of a run that starts without replicas and with only cluster failures scheduled, a replica runs if and only if an earlier tick created it and its application's cold start has passed since; all others are pending |

## Left out

- Executor.Execute: requires distinct operation ids, which the plan generator guarantees; the metrics, spans and the event bus are not modelled.
- Execution timeouts and polling intervals: a list of answers that ends stands for the deadline passing.
- Operations.DispatchEnds: which cluster has a client is not modelled; a dispatched operation may always fail before its first call.
- InterleavedRuns.SourceIsBlueGreenIff: the executions meant are those in which no scale-up is given the source's own replica id, since an orphan is deleted by the id the cluster returned.
- Placement.ComputePlacement: takes decisions only for applications in the snapshot, as the scaling engine produces them, and a positive node size in its configuration.
- Reservation ids of one placement cycle are an arbitrary sequence; `Reason` texts, labels and node labels are dropped.
- Preemption.SortCandidates: sorts a list by insertion instead of Go's in-place sort; only the resulting order is modelled. The same holds for the sorts of scale-ups, migrations and scale-down victims, where ties may come out in any order.
- PlacementScoring.WarmerScoresHigher: over reals; rounding of 64-bit floats is not modelled.
- Scaling.TargetReachesMinimumIff: assumes a positive queue target and cache target, by which the code divides; so do the other statements about targets.
- Scaling.TargetIsWanted: says what the caps do where they are not negative.
- Rebalancing.FiltersDecide: assumes that no two clusters tie as the tightest target of a replica of the snapshot; on a tie map order decides which of them is looked at, and the contracts of the methods speak of some tightest target.
- Rebalancing.OutcomeIsEmptyIff: the same assumption.
- Rebalancing.CapExceededIff: the same assumption, for a given outcome; over all outcomes `Rebalancing.CapRespectedIff` needs none.
- Rebalancing.FindRebalancingOpportunities: no replica is moved twice as long as none is listed as a pod twice; assumes the cap is not negative, for which the code slices out of range, and node ids that are not empty.
- Rebalancing.NoPingPong: assumes scores are current and cluster capacities fixed along the chain.
- `validatePlan`, `HasContiguousGPUs`, `UpdateCacheLocations` and performance-profile updates: each is one filter or one assignment.
- ControlLoop.RunPlan: the validation of the plan between generating and executing it, which may end the cycle without executing anything, is not modelled.
- The write lock: every mutator is one atomic step.
- SnapshotIsolation.LiveNodes.UpsertNode: assumes that no other live node uses the array given, without which the live nodes would share a pod list among themselves.
- SnapshotIsolation.LiveNodes: copies of the nested node maps are by value; only the pod lists, which are shifted in place, live in shared memory.
- Simulator.Simulator.Run: the engines' decisions and the traffic's metrics are arbitrary inputs, which covers every engine; requires a positive tick, without which the program does not end. The scorecard is not modelled.
- The simulator's topology: sizes and durations in the scenario are taken as not negative.
- Kubernetes clients, configuration files, the event log, the HTTP server, leader election and telemetry.
