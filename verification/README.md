# lcnc-runtime: a verified model of its dependency graphs, executor, runnable groups and compiler

The runtime turns a controller configuration into dependency graphs, reduces them, runs one goroutine per
vertex in dependency order over a shared output map, and keeps its long-running parts in runnable groups. This
project models that path in Dafny and proves what it guarantees, and, where it falls short, exactly when.

`dafny verify dfyconfig.toml` checks the whole project.

| file | what it models |
|---|---|
| Graphs.dfy | walks, reachability, acyclic and redundant edges over finite graphs |
| DepthFirst.dfy | depth-first walks that follow every edge anew, in any order of the children: what the last visits record, and when a walk ends |
| Dag.dfy, Reduction.dfy | the dag store as a class with its two mirrored edge maps; the transitive reduction that deletes edges while it walks; what a pass and a whole run of passes keep |
| ReductionLimits.dfy | what the reduction loses, and exactly when |
| ExecInit.dfy | the channel matrix of the executor |
| Executor.dfy and ExecutorSafety, -Progress, -Runs, -Schedules, -Deadlocks, -Races, -Failures | the executor as a transition system over all interleavings of its traversals, workers and main walk |
| KeyValue.dfy, ExecHandler.dfy, ExecData.dfy, ExecDataSchedules.dfy | the shared output map, one vertex function, and all interleavings of their reads and merges |
| EndToEnd.dfy | the executor on the graph that the reduction leaves |
| RunnableGroup.dfy, RunnableGroupSafety.dfy, RunnableGroupRuns.dfy | the runnable group as a transition system: Add, Start, reconcile, the runnables and their checks, StopAndWait; what never happens, and what can always still happen |
| Manager.dfy, ManagerRuns.dfy | the order in which the manager starts and stops its three groups, and how far it can get |
| References.dfy | the `$name` scanner |
| Pipelines.dfy, Resolver.dfy, Connector.dfy, Compiler.dfy | populate, resolve, connect and reduce for the two pipelines of a For resource |
| Compilation.dfy | from configuration to execution |
| Configurations.dfy | what a configuration says, field by field, and what becomes of it |

## How the concurrent parts are modelled

`Executor.Enabled` and `Executor.Next` give one action per blocking or shared step of
pkg/ccutils/executor/executor.go:102-194 and pkg/ccutils/executor/exec_context.go:74-127. A traversal is a
token; looking at `visited` (line 120) and setting it (121-123) are two actions, and the flag `atomic` of a
configuration merges them for the theorems that need it. Every map iteration is a free choice. `owner` and
`log` are history that no action reads. `Stuck` means that nothing but an outside cancellation can happen.

`RunnableGroup.Enabled` and `Next` do the same for pkg/manager/runnable_group.go:129-301. The read lock of the
reconciler spans two actions (reading `stopped`, then `wg.Add`), so that the WaitGroup theorem is about the
lock and not about the model. `Manager.Enabled` and `Next` follow pkg/manager/internal.go:299-462.

## Where the code and its apparent intent differ

- The visited check is not atomic. The executor as it stands is free of deadlock exactly on trees
  (`RacyDeadlockFreeIff`). With an atomic check it can deadlock exactly where the graph holds a tangle of
  vertices that offer to, and vertices that wait for, one another (`DeadlockIff`): every redundant edge makes
  one (`RedundantDeadlocks`), so do two vertices with two common dependents (`CrossDeadlocks`), and with one
  fork only redundant edges do (`DeadlockFreeIff`).
- A dependency that failed still lets its dependents run: waitDependencies continues on any delivered value.
  For all u and w with a path from u to w some run begins w after u has returned false
  (`FailedDependencyRuns`), so the success of u is forced before w for no pair (`SuccessNeverForced`). "Ended"
  is therefore what is proved of ancestors.
- The reduction compares the depth of the last visit and can delete the only way between two vertices.
  `KeepsReachIff` says exactly on which graphs it can, `BypassLoses` gives five vertices on which it always
  does, and `ReductionReorders` shows the executor then running them out of order.
- The resolve phase sets no callback for the resource, and the walk visits a pipeline only inside that
  callback's branch. So resolve visits nothing and never finds an error; connect is the only check of
  references, and nothing checks `dependsOn` (`Resolve`, `ResolveMisses`, `StartExecutor`). Phase agreement in
  the sense "what resolve accepts, connect accepts" is false of the code; it holds of the phase with the
  callback set (the last clause of `Resolve`), and of the code what holds instead is the equivalence in
  `Parse`.
- A local variable may have the name of a variable of the table. The texts of the function then mean the local
  one, so connect adds no edge (pkg/ccsyntax/parser_connector.go:149-160), but the name is listed and the
  handler reads the output of the other (pkg/exec/exechandler/exec_handler.go:81-83) before resolveLocalVars
  overwrites it, which is after range and condition (pkg/exec/fnmap/functions/fn.go:43-118). Say that u
  declares the other variable and v reads it. In every run v finds what u outputs if u is a proper ancestor of
  v; in no run if u is v itself, or below v, or a function of the other pipeline; and only if u and v are
  otherwise not joined by a path does what v finds depend on the schedule (`ReadIff`, `CompiledReadIff`).
  Where no read is of that last kind, the outcome is determined (`ScheduleIndependent`, `CompiledIsProduced`,
  `CompiledIsDeterministic`).
- A reference from inside a block to a variable outside it connects "" to "" in the outer graph, because
  `VertexName` of a variable is never set. The block waits for the producer only if a path led there anyway,
  and the reduction of the graph, which now has a cycle, ends exactly if it did before and no vertex leads to
  "" (`ConnectFromBlock`).
- A `$` followed at once by a delimiter, or by the end, gives an empty name, on which the code indexes out of
  range. `Parse` says exactly when (`panics`).
- No phase rejects cyclic references: two functions that refer to each other are accepted
  (`CyclicIsAccepted`), and the walks of the reduction from a vertex end exactly where no cycle lies below it
  (`WalkEndsIff`). So `Parse` covers every configuration up to the reduction, and `Compile`, which reduces,
  asks that an accepted one is acyclic (`NoCycles`).
- A vertex that the root does not lead to is never run, and the main walk waits for it for ever
  (`SuccessNeedsRoot`).
- When the main walk returns after a failure or a cancellation, nobody receives the reports that are still to
  come: a worker can then come to its end if and only if it has reported; all others stay for ever
  (`FinishesIff`). After a success nobody who has begun is left (`SuccessLeavesNone`).
- A failed check of one initial runnable of the caches or the others keeps the manager from serving for ever
  (`ServesIff`), and one of any group keeps its stop procedure from coming to its end (`EndsIff`), which the
  manager itself leaves only when its shutdown context expires.
- Start of a runnable group returns only if no check of an initial runnable fails; after such a failure
  StopAndWait hangs in its call of Start (`StartReturnsIff`, `FailedCheckHangs`).
- An Add that overlaps StopAndWait can send on a closed channel (`AddRace`); it is the only panic
  (`PanicIsAdd`). Without a further call of Add it can still happen exactly when no initial check has failed
  and some Add under way has got past, or can still get past, its look at `stopped` (`AddRaceIff`).
- StopAndWait starts a group that was never started. When the cluster cannot be added, the stop procedure
  therefore starts the queued runnables before any cache has synced (`ClusterFailureStartsOthers`).

## Model

| member | source | states |
|---|---|---|
| DagStore.Dag.AddVertex | pkg/ccutils/dag/dag.go:58-69 | a vertex is added once; a second time is an error that changes nothing |
| DagStore.Dag.Connect | pkg/ccutils/dag/dag.go:95-99 | adds exactly the edge to the graph, and the up and down maps stay converses of each other |
| DagStore.Dag.Disconnect | pkg/ccutils/dag/dag.go:101-104 | removes exactly the edge, and the two maps stay converses |
| DagStore.Dag.GetDownVertexes | pkg/ccutils/dag/dag.go:134-145 | the targets of the edges from a vertex in the graph |
| DagStore.Dag.GetUpVertexes | pkg/ccutils/dag/dag.go:187-198 | the sources of the edges into a vertex in the same graph, although read off the other map |
| DagStore.Dag.GetBestVertexDepth | pkg/ccutils/dag/transitive_reduction.go:93-102 | the greatest recorded depth among the parents, 0 when none is recorded |
| DagStore.Dag.ProcessTransitiveReduction | pkg/ccutils/dag/transitive_reduction.go:53-70 | deletes exactly the edges into the vertex that come from a recorded parent which is not a deepest recorded one |
| DagStore.Dag.WalkDepths | pkg/ccutils/dag/transitive_reduction.go:31-51 | the first walk ends wherever no cycle lies below its start; its visits form a tree in which each visit goes through all children in some order, and the map is left with the depth of the last visit of every vertex in that one walk |
| DepthFirst.RecordsReach | pkg/ccutils/dag/transitive_reduction.go:31-51 | a walk records exactly the vertices that its start reaches |
| DepthFirst.ForkBehind | pkg/ccutils/dag/transitive_reduction.go:31-51 | if one walk leaves p less deep than q, then p leads to q, or below the start is a fork: two children of one vertex, a shorter way from one to p than from the other to q, and not both crossing ways |
| DepthFirst.ForkRecords | pkg/ccutils/dag/transitive_reduction.go:31-51 | wherever there is such a fork, some order of the children leaves p less deep than q |
| DepthFirst.WalkEndsIff | pkg/ccutils/dag/transitive_reduction.go:31-51 | the walk from a vertex ends if and only if the walks from it have bounded length, and if and only if no cycle lies below it |
| DagStore.Dag.WalkReduce | pkg/ccutils/dag/transitive_reduction.go:31-70 | the second walk, deleting as it goes, ends; it deletes no surviving edge, and every vertex that is still below its start has its final parents |
| DagStore.Dag.ReducePass | pkg/ccutils/dag/transitive_reduction.go:18-26 | in whatever order the walks go, one pass ends in exactly the filter `Survivors` of the graph and depth map it began with |
| DagStore.Dag.TransitiveReduction | pkg/ccutils/dag/transitive_reduction.go:12-29 | where no cycle lies below a vertex of the store, it ends, and the result is that of a run of passes; the edges below the vertices become an acyclic, irredundant graph that keeps every root a root and leaves every vertex with a parent at least one, and no other edge goes |
| Reduction.PassKeepsStart | pkg/ccutils/dag/transitive_reduction.go:18-26 | all that the start of a pass reached it still reaches |
| Reduction.PassKeepsAncestor | pkg/ccutils/dag/transitive_reduction.go:18-26 | whatever reaches the start of a pass keeps reaching all it reached |
| Reduction.ExactAtStart | pkg/ccutils/dag/transitive_reduction.go:53-69 | in the pass from u an edge u -> w goes if and only if another walk leads from u to w |
| Reduction.PassKeepsReachIff | pkg/ccutils/dag/transitive_reduction.go:53-69 | a pass keeps the reachability relation if and only if it removes only redundant edges |
| Reduction.RunIrredundant | pkg/ccutils/dag/transitive_reduction.go:12-29 | after a pass from the source of an edge, no later pass makes that edge redundant again |
| Reduction.RunKeepsRoot | pkg/ccutils/dag/transitive_reduction.go:12-29 | a vertex that reaches all vertices before the run does so after it |
| Reduction.RunKeepsSomeParent | pkg/ccutils/dag/transitive_reduction.go:12-29 | a vertex that had a parent has one after the run |
| Reduction.RunKeepsForeign | pkg/ccutils/dag/transitive_reduction.go:12-29 | an edge from a name that is no vertex and has no parent survives every run |
| Reduction.RunKeepsReachIff | pkg/ccutils/dag/transitive_reduction.go:12-29 | a run keeps the reachability relation if and only if each of its passes removes only redundant edges |
| Reduction.RunReduces | pkg/ccutils/dag/transitive_reduction.go:12-29 | every run, in every order, gives an acyclic irredundant subgraph with the same roots in which vertices with a parent keep one |
| Reduction.RunPart | pkg/ccutils/dag/transitive_reduction.go:12-29 | a run of passes from vertices of a set that no edge leaves is a run on the part below that set, and leaves all other edges alone |
| Reduction.RunReducesBelow | pkg/ccutils/dag/transitive_reduction.go:12-29 | so every run reduces the part below its vertices, also where a cycle lies elsewhere |
| ReductionLimits.KeepsReachIff | pkg/ccutils/dag/transitive_reduction.go:12-70 | all runs on a graph keep reachability if and only if, wherever a fork below some vertex can leave one parent of w less deep than another, the edge from the former is redundant |
| ReductionLimits.BypassLoses | pkg/ccutils/dag/transitive_reduction.go:53-69 | for r->a, r->b, a->c, b->d, d->c every run in every order removes a->c, so a no longer leads to c |
| ExecInit.Exec.Link | pkg/ccutils/executor/executor.go:89-94 | both ends of a dependency hold the same new channel, and no other map changes |
| ExecInit.LinkKeeps | pkg/ccutils/executor/executor.go:87-99 | linking one more edge keeps: exactly the edges have a channel, both ends agree on it, and nothing shares one |
| ExecInit.Exec.InitVertex | pkg/ccutils/executor/executor.go:87-99 | one vertex gets a channel per dependency and one to the main walk; it fails if and only if a dependency is no vertex |
| ExecInit.Exec.Init | pkg/ccutils/executor/executor.go:61-100 | succeeds if and only if every edge into a vertex starts at a vertex; then the channel matrix is that of the graph: one channel per edge held by both ends, one per vertex held by the main walk, all different |
| ExecutorSafety.InvStep | pkg/ccutils/executor/executor.go:114-194 | every action of every goroutine keeps the invariant that ties workers, channels, main walk and log together |
| ExecutorSafety.NoPanic | pkg/ccutils/executor/exec_context.go:74-93 | in every interleaving, also with the racy visited check, nothing is sent on or closed after its close |
| ExecutorSafety.AtMostOnce | pkg/ccutils/executor/executor.go:119-139 | in every interleaving, also with the racy visited check, no vertex function begins twice |
| ExecutorSafety.StartAfterAncestors | pkg/ccutils/executor/exec_context.go:95-127 | when a vertex function begins, that of every vertex with a path to it has returned |
| ExecutorSafety.ResultSound | pkg/ccutils/executor/executor.go:167-193 | success is reported only if every vertex ran and returned true; failure only if some vertex returned false or the context was cancelled |
| ExecutorSafety.SuccessNeedsRoot | pkg/ccutils/executor/executor.go:140-150 | success is possible only if the start vertex reaches every vertex |
| ExecutorSafety.NeverHearsClose | pkg/ccutils/executor/executor.go:171-180 | the main walk never receives from a closed channel, so no close is taken for a failure |
| ExecutorProgress.StuckHasRing | pkg/ccutils/executor/exec_context.go:74-127 | with an atomic check on an acyclic irredundant rooted graph, a stuck state in which the main walk still waits holds a cycle of at least two distinct blocked senders, each waiting behind the next |
| ExecutorProgress.NoDeadlockFanOut | pkg/ccutils/executor/exec_context.go:74-127 | then no deadlock where at most one vertex has two dependents |
| ExecutorProgress.NoDeadlockFanIn | pkg/ccutils/executor/exec_context.go:74-127 | nor where at most one vertex has two dependencies |
| ExecutorRuns.StepWeighs | pkg/ccutils/executor/executor.go:114-194 | every action decreases a measure, so no schedule runs for ever |
| ExecutorRuns.EveryRunCompletes | pkg/ccutils/executor/executor.go:114-194 | with an atomic check, one fork and an irredundant rooted graph: runs are bounded, end only with the main walk returned, and can be continued to that from everywhere |
| ExecutorRuns.CancelledReturns | pkg/ccutils/executor/executor.go:182-184 | a cancelled run ends only with the main walk returned, with either check and on every graph, also where workers have deadlocked |
| ExecutorRuns.CancelReturns | pkg/ccutils/executor/executor.go:182-184 | whenever the main walk waits for a vertex, a cancellation lets it return false at once, with no function begun or ended in between |
| ExecutorRuns.CancelledRunReturns | pkg/ccutils/executor/executor.go:167-193 | and on an acyclic graph every cancelled run has a bound on its length |
| ExecutorSchedules.NotForced | pkg/ccutils/executor/executor.go:114-150 | without a path from u to w some run begins w and has not begun u |
| ExecutorSchedules.OrderIff | pkg/ccutils/executor/exec_context.go:95-127 | in all runs w begins after u has ended if and only if the graph has a path from u to w |
| ExecutorDeadlocks.StuckIsTangle | pkg/ccutils/executor/exec_context.go:74-127 | the offering and the waiting workers of a deadlock form a tangle |
| ExecutorDeadlocks.TangleDeadlocks | pkg/ccutils/executor/exec_context.go:74-127 | every tangle of the graph is reached by a run that deadlocks |
| ExecutorDeadlocks.DeadlockIff | pkg/ccutils/executor/exec_context.go:74-127 | with an atomic check, on every acyclic rooted graph: a deadlock can be reached if and only if the graph holds a tangle |
| ExecutorDeadlocks.RedundantDeadlocks | pkg/ccutils/executor/exec_context.go:81-86 | a single redundant edge suffices for a deadlock |
| ExecutorDeadlocks.CrossDeadlocks | pkg/ccutils/executor/exec_context.go:81-86 | two vertices with two common dependents can deadlock, with an atomic check and also on an irredundant graph |
| ExecutorDeadlocks.DeadlockFreeIff | pkg/ccutils/executor/exec_context.go:74-127 | with an atomic check and at most one fork: free of deadlock if and only if the graph is irredundant |
| ExecutorFailures.FailedDependencyRuns | pkg/ccutils/executor/exec_context.go:110-116 | wherever a path leads from u to w, some run begins w after u has returned false |
| ExecutorFailures.SuccessNeverForced | pkg/ccutils/executor/exec_context.go:110-116 | that u has succeeded before w begins is forced for no two vertices |
| ExecutorFailures.FinishesIff | pkg/ccutils/executor/exec_context.go:89-93 | once the main walk has returned, a worker can still come to its end if and only if it has reported |
| ExecutorFailures.SuccessLeavesNone | pkg/ccutils/executor/executor.go:167-193 | after a success every worker that has begun its function can come to its end |
| ExecutorRaces.TreeReturns | pkg/ccutils/executor/executor.go:119-145 | with the check of the code and no vertex with two dependencies, a stuck state has the main walk returned |
| ExecutorRaces.FanInDeadlocks | pkg/ccutils/executor/executor.go:119-123 | with the check of the code, a vertex with two dependencies can get two workers that share out its values, so that neither runs it and the main walk waits for ever |
| ExecutorRaces.RacyDeadlockFreeIff | pkg/ccutils/executor/executor.go:114-150 | with the check of the code: free of deadlock if and only if no vertex has two dependencies |
| ExecutorRaces.EveryTreeRunCompletes | pkg/ccutils/executor/executor.go:114-194 | with the check of the code, on a rooted tree: runs are bounded, end only with the main walk returned, and can be continued to that from everywhere |
| ExecutorRaces.RaceMatters | pkg/ccutils/executor/executor.go:120-123 | on an irredundant graph with one fork and some fan-in, the atomic check excludes deadlock and the check of the code does not |
| KeyValue.Copy | pkg/ccutils/kv/kv.go:53-71 | the copy built entry by entry equals the original, however deep |
| KeyValue.Kv.Get | pkg/ccutils/kv/kv.go:43-51 | all entries |
| KeyValue.Kv.Add | pkg/ccutils/kv/kv.go:35-41 | all entries of the other map override those of the same name, in whatever order they are visited |
| ExecHandler.Handler.Gather | pkg/exec/exechandler/exec_handler.go:68-84 | nothing for the root function; the resource and the references for an image; the references for any other; each name with its current value, or nothing |
| ExecHandler.Handler.FunctionRun | pkg/exec/exechandler/exec_handler.go:45-111 | the function is applied to that input, its outputs are merged also when it fails, and its success is reported |
| ExecHandler.GatheredIff | pkg/exec/exechandler/exec_handler.go:68-84 | the names that the interleaved model reads for a vertex are those that Gather reads for its kind and references |
| ExecHandler.RunsAlone | pkg/exec/exechandler/exec_handler.go:68-97 | the interleaved reads and merge of a worker, undisturbed, have the effect of FunctionRun on the input that Gather gives |
| ExecData.EvalSettled | pkg/exec/exechandler/exec_handler.go:68-97 | the value that the dependency order gives a vertex is its function applied to what its proper ancestors output, and to nothing for every other name |
| ExecData.DInvSteps | pkg/exec/exechandler/exec_handler.go:68-110 | every interleaving keeps: the shared map holds the initial data and the settled outputs of those that have merged, and every input read so far is settled |
| ExecData.DataRunIsRun | pkg/exec/exechandler/exec_handler.go:45-111 | forgetting the data, a run is a run of the executor |
| ExecData.ReadsSeeProducers | pkg/exec/exechandler/exec_handler.go:74-83 | whenever a function reads, it finds what its producer merges if that is a proper ancestor, which then has returned, and nothing if it is the reader itself, below it, or no vertex |
| ExecData.OutIsFinal | pkg/ccutils/kv/kv.go:35-41 | an entry of the shared map never changes once there, and a complete run has all of them |
| ExecData.ScheduleIndependent | pkg/exec/exechandler/exec_handler.go:68-110 | if every producer is joined to its readers by a path in either direction, or is no vertex: any two complete runs end with the same shared map and the same result of each vertex |
| ExecData.OutcomeDetermined | pkg/ccutils/executor/executor.go:167-193 | a run that is not cancelled succeeds if and only if every function succeeds on its settled input |
| ExecDataSchedules.Lift | pkg/exec/exechandler/exec_handler.go:45-111 | every run of the executor without failures is the run of any program with data whose functions succeed |
| ExecDataSchedules.ReadLimits | pkg/exec/exechandler/exec_handler.go:81-83 | what only u outputs, v finds in no run if u is v, below v, or no vertex; and if u always outputs it and is a proper ancestor, v misses it in no run |
| ExecDataSchedules.ReadIff | pkg/exec/exechandler/exec_handler.go:81-83 | in programs whose functions succeed and where u alone always outputs n: some run lets v find n if and only if u is a vertex and v does not lead to u; some run lets v miss n if and only if u is no proper ancestor; so it depends on the schedule if and only if u is a vertex that no path joins to v |
| ExecDataSchedules.SuccessfulRunExists | pkg/exec/exechandler/exec_handler.go:45-111 | complete, successful runs exist: a program whose functions succeed can run to success on every reduced graph with one fork |
| EndToEnd.ReducedIsFit | pkg/ccsyntax/parser.go:62-64 | reduction leaves a rooted graph that the executor can run, without redundant edges |
| EndToEnd.ReducedDeadlockFree | pkg/ccsyntax/parser.go:62-64 | after it there is no deadlock with an atomic check if one fork is left, whatever was redundant before |
| EndToEnd.ReducedRaces | pkg/ccutils/executor/executor.go:114-150 | after the reduction, with the check of the code, a deadlock can be reached if and only if some vertex has two dependencies |
| EndToEnd.ReduceToRun | pkg/ccutils/dag/transitive_reduction.go:12-29 | the same about the store, reduced in place |
| EndToEnd.OrderKeptIff | pkg/ccutils/dag/transitive_reduction.go:12-70 | the reduction keeps every order the executor enforced if and only if the edges that a fork can make less deep are redundant |
| EndToEnd.ReductionReorders | pkg/ccutils/dag/transitive_reduction.go:53-69 | on the five vertices c waited for a before, and after every reduction some run begins c while a has not begun |
| RunnableGroup.InvStep | pkg/manager/runnable_group.go:129-301 | every step of Add, Start, reconcile, the runnables and StopAndWait keeps the invariant |
| RunnableGroupSafety.Accounted | pkg/manager/runnable_group.go:182-268 | the runnable of every Add call is in exactly one place (call in progress, queue, reconciler, live, dropped, rejected) and is started at most once |
| RunnableGroupSafety.WaitGroupSafe | pkg/manager/runnable_group.go:188-204 | wg.Add never happens once stopped is set, and the counter is the number of runnables that have not returned |
| RunnableGroupSafety.StaysQuiet | pkg/manager/runnable_group.go:272-300 | after StopAndWait has left through done, every runnable has returned, and nothing is started in any continuation |
| RunnableGroupSafety.StartBarrier | pkg/manager/runnable_group.go:126-174 | when Start returns, every runnable queued before it is live and has passed its check; none was dropped |
| RunnableGroupSafety.NoLateSignal | pkg/manager/runnable_group.go:207-214 | no runnable signals on startReadyCh after its close |
| RunnableGroupSafety.FailedCheckHangs | pkg/manager/runnable_group.go:153-173 | once an initial check has failed, no continuation lets Start return or StopAndWait set stopped |
| RunnableGroupSafety.StartReturnsIff | pkg/manager/runnable_group.go:129-177 | Start can still return if and only if no initial check has failed |
| RunnableGroupSafety.PanicIsAdd | pkg/manager/runnable_group.go:232-301 | a panic is near if and only if ch is closed and some Add still sends |
| RunnableGroupSafety.LateAddIsHarmless | pkg/manager/runnable_group.go:232-238 | an Add that looks at stopped after it was set never sends |
| RunnableGroupSafety.AddRace | pkg/manager/runnable_group.go:238-275 | an Add that looked before can be caught sending on the closed channel |
| RunnableGroupSafety.AddRaceIff | pkg/manager/runnable_group.go:232-301 | without a further call of Add a panic can still be reached if and only if no initial check has failed and some Add under way has passed, or can still pass, its look at stopped |
| RunnableGroupRuns.RunsIff | pkg/manager/runnable_group.go:181-268 | what Add was called with can still be started if and only if it is live or stopped is not set, whether it was added before Start or after, and also if a check has failed |
| RunnableGroupRuns.CheckCanFail | pkg/manager/runnable_group.go:207-214 | a check that has not answered can fail |
| RunnableGroupRuns.WaitCanEnd | pkg/manager/runnable_group.go:284-299 | from its wait StopAndWait can always leave because all runnables have returned |
| RunnableGroupRuns.StopsIff | pkg/manager/runnable_group.go:272-300 | the group can still be stopped with all runnables returned if and only if no initial check has failed and no wait has been given up |
| RunnableGroupRuns.ReconcilerEnds | pkg/manager/runnable_group.go:182-196 | once ch is closed, the reconciler can come to its end |
| Manager.CachesSyncFirst | pkg/manager/internal.go:336-371 | no runnable of the other groups is started before every queued cache has synced, unless the cluster could not be added |
| Manager.CachesStopLast | pkg/manager/internal.go:429-447 | the caches are told to stop only after StopAndWait of both other groups has returned |
| Manager.OthersStopFirst | pkg/manager/internal.go:429-447 | when the caches are told to stop, both other groups are through with their waits, and the runnables of a group whose wait was not cut short have all returned |
| Manager.ClusterFailureStartsOthers | pkg/manager/internal.go:322-339 | when the cluster cannot be added, the stop procedure can start a queued runnable although no cache has begun |
| ManagerRuns.ServesIff | pkg/manager/internal.go:322-372 | before it serves, the manager can still come to serve if and only if no initial check of the caches or of the others has failed |
| ManagerRuns.ElectsIff | pkg/manager/internal.go:357-371 | while it serves, Start of the elected group can return if and only if no initial check of them has failed |
| ManagerRuns.AddedRuns | pkg/manager/internal.go:357-381 | while it serves, every runnable that has been added to any group, the elected one too, can be started |
| ManagerRuns.EndsIff | pkg/manager/internal.go:385-447 | from every state the stop procedure can come to its end if and only if no initial check of any group has failed |
| References.Scanner.AddReference | pkg/ccsyntax/reference.go:60-72 | VALUE, KEY and INDEX are range references, all other names regular ones |
| References.Scanner.GetReferences | pkg/ccsyntax/reference.go:38-58 | appends the names of the text, in order, to those found before |
| References.RefsIff | pkg/ccsyntax/reference.go:38-58 | found are exactly the segments after a `$` that hold no further `$` and run to the first delimiter or the end |
| References.RefsApart | pkg/ccsyntax/reference.go:47-50 | two texts with a delimiter between them give the references of the one, then those of the other |
| References.NameEnds | pkg/ccsyntax/reference.go:47-50 | a name ends at `.`, at a blank, at `)` and at `[`, and what follows is scanned on its own |
| References.NameGoesOn | pkg/ccsyntax/reference.go:47-50 | at any other character it goes on |
| References.PrintedIsRead | pkg/ccsyntax/reference.go:38-58 | any list of names, written as `$name` with blanks between, is read back |
| Connector.RuntimeDag.AddReference | pkg/exec/rtdag/rtdag.go:94-106 | a name is listed once, in order of first use |
| Connector.ConnectPhase.ConnectName | pkg/ccsyntax/parser_connector.go:162-191 | one edge from the declaring vertex, from its block, or from the own block, and an error for an unknown name; for an outer name the outer graph gets only an edge from the unset vertex name to "" |
| Connector.ConnectPhase.ConnectRefs | pkg/ccsyntax/parser_connector.go:126-194 | outside blocks a text adds exactly the edges from the declaring vertices of its names, and an error if and only if one is unknown |
| Connector.ConnectPhase.ConnectBlock | pkg/ccsyntax/parser_connector.go:109-124 | the same for all texts of nested ranges and conditions |
| Connector.ConnectPhase.ConnectFunction | pkg/ccsyntax/parser_connector.go:54-107 | the graph gets exactly the edges that the references, the resource input and dependsOn of the function ask for; there is a new error if and only if it looks up an undeclared name; its references are listed |
| Compiler.PopulatePhase.AddVariable | pkg/ccsyntax/vardag/vardag.go:35-38 | a variable is entered once; a second declaration is an error that changes nothing |
| Compiler.PopulatePhase.AddGvk | pkg/ccsyntax/parser_populate.go:47-120 | the resource becomes a variable and the root vertex of both graphs |
| Compiler.PopulatePhase.AddFunction | pkg/ccsyntax/parser_populate.go:122-233 | no error if and only if its variables and its vertex are new; then exactly these are added |
| Compiler.PopulatePhase.AddPipeline | pkg/ccsyntax/parser_walker_config.go:119-174 | whatever the order of the maps: no error if and only if no name is declared twice and no vertex added twice; then the table is that of the pipeline |
| Compiler.Populate | pkg/ccsyntax/parser_populate.go:14-32 | no error if and only if the names of both pipelines and the resource are distinct |
| Resolver.ResolvePhase.ResolveRefs | pkg/ccsyntax/parser_resolver.go:94-122 | a text adds an error if and only if it has a regular name that is neither local nor declared |
| Resolver.ResolvePhase.ResolveDependsOn | pkg/ccsyntax/parser_resolver.go:124-133 | an error if and only if some vertex depended on is not in the graph |
| Resolver.ResolvePhase.ResolveFunction | pkg/ccsyntax/parser_resolver.go:41-73 | given an input, which the code takes for granted, an error if and only if the function looks up an undeclared name or depends on a missing vertex |
| Compiler.Resolve | pkg/ccsyntax/parser_walker_config.go:93-117 | without a resource callback, as the code calls the walk, never an error; with one the phase would find exactly the undeclared names and missing vertices, and connect could find no more |
| Compiler.Connect | pkg/ccsyntax/parser_connector.go:12-28 | both graphs get exactly the edges their pipelines ask for, and there is an error if and only if some name that is looked up is undeclared |
| Compiler.Parse | pkg/ccsyntax/parser.go:35-61 | on every configuration, cyclic or not: an index error if and only if names are distinct and some name is empty; otherwise no error if and only if names are distinct and all that is looked up is declared in one of the two pipelines; then both graphs are those the pipelines ask for |
| Compiler.Compile | pkg/ccsyntax/parser.go:35-68 | the same with the reduction, which ends if what is accepted has no cycle; then both graphs are the results of runs of passes |
| Compilation.DependencyComplete | pkg/ccsyntax/parser_connector.go:164-191 | every name that a function of either pipeline looks up has exactly one producer, and the graph of its pipeline has the edge from it |
| Configurations.VerticesIff | pkg/ccsyntax/parser_walker_config.go:119-174 | the vertices of a graph are the resource, as its root, and the functions of both sections of the pipeline |
| Configurations.TableIff | pkg/ccsyntax/parser_populate.go:122-215 | the table has the resource, and every variable under the one function, of either pipeline, that has it in its output section or, without such a section, has its name |
| Configurations.DistinctIff | pkg/ccsyntax/parser_populate.go:47-215 | populate accepts a configuration if and only if no function stands in both sections of its pipeline, none has the name of the resource, and no variable is that name or is given twice |
| Configurations.AcceptedIff | pkg/ccsyntax/parser_connector.go:126-194 | with distinct names, a configuration is accepted if and only if every variable that a function asks for is the resource or is given by a function of either pipeline |
| Configurations.AsksIff | pkg/ccsyntax/parser_connector.go:54-124 | a function asks for x if and only if `$x` stands in a local variable, a range or condition however nested, a key, value, expression, generic input, or label key or value, and x is not its own, not VALUE, KEY or INDEX, and does not begin with an underscore |
| Configurations.ResolvesIff | pkg/ccsyntax/parser_resolver.go:41-133 | the resolve phase would find exactly a variable that is asked for and not known, and a dependsOn that is no vertex |
| Configurations.EdgeIff | pkg/ccsyntax/parser_connector.go:54-107 | an edge leads from u to v if and only if v takes the resource and u is its vertex, v names u under dependsOn, or v asks for a variable that u gives |
| Configurations.ListedIff | pkg/ccsyntax/parser_connector.go:151-162 | a vertex lists exactly the variables that its function mentions, local ones among them |
| Configurations.ReadsIff | pkg/exec/exechandler/exec_handler.go:81-83 | and these are what a program of the pipeline reads |
| Configurations.OutputsConnect | pkg/ccsyntax/parser_populate.go:127-156 | two functions, of which one outputs x in its section and the other refers to it, are accepted and connected |
| Configurations.OutputsWellConnected | pkg/ccsyntax/parser_connector.go:83-107 | with the resource as input of the first, their graph has exactly the two edges and meets the conditions of the theorems about compiled pipelines |
| Compilation.ResolveMisses | pkg/ccsyntax/parser_resolver.go:17-20 | a pipeline that populate and resolve accept and connect rejects |
| Compilation.CyclicIsAccepted | pkg/ccsyntax/parser.go:35-64 | two functions that refer to each other are accepted by all phases up to the reduction, whose first walk from either has no end |
| Compilation.ConnectFromBlock | pkg/ccsyntax/parser_connector.go:175-184 | connecting a name declared outside the block records no error and leaves the reachability of the outer graph, and the orders that the executor enforces on it, as they were; so the block waits for the producer only if a path led there before; the reduction still ends if and only if no vertex leads to the empty name |
| Compilation.StartExecutor | pkg/ccutils/executor/executor.go:87-99 | the executor can set up a compiled and reduced graph if and only if no reference or dependsOn leads out of the pipeline |
| Compilation.CompiledRuns | pkg/ccsyntax/parser.go:35-68 | a well-connected pipeline, compiled and reduced, can deadlock under an atomic check if and only if a tangle is left, and cannot with at most one fork |
| Compilation.CompiledRaces | pkg/ccsyntax/parser.go:35-68 | as the executor stands, the compiled and reduced pipeline can deadlock if and only if two dependencies are left to some function |
| Compilation.CompiledIsProduced | pkg/ccsyntax/parser_connector.go:156-191 | in the compiled graph, and in any that reaches the same, every producer is joined to its readers if and only if those of the shadowed names are |
| Compilation.CompiledReadIff | pkg/exec/fnmap/functions/fn.go:94-118 | for every recorded name, shadowed or not, of a compiled and reduced pipeline whose functions succeed and where the declaring vertex u alone always outputs the name: found in some run if and only if u is in this pipeline and the reader does not lead to it; missed in some run if and only if u is no proper ancestor; both if and only if the two are not joined |
| Compilation.CompiledIsDeterministic | pkg/ccsyntax/parser.go:35-68 | where the reduction cannot lose an order and shadowed names are joined to their readers, all complete runs of the compiled pipeline leave the same outputs |

## Left out

- KeyValue.Copy: values, so that the copy shares nothing with the original is not said.
- ExecData.ScheduleIndependent: vertex functions are deterministic functions of their input (local variables
  that refer to one another are not: a map is iterated), outputs have one producer each, and nested block
  runs, which write to the shared outputs from inside a function, are not part of it.
- Compiler.Parse: one For resource with two pipelines of plain functions; function blocks appear only in
  ConnectName and ConnectFromBlock, and Own, Watch and services, several For resources and group-version-kind
  parsing do not appear; nor does the nil input that populate dereferences for a go-template function without
  an output section (pkg/ccsyntax/parser_populate.go:159).
- Connector.RuntimeDag.AddReference: the reference list is a map beside the graph rather than a field of a
  shared vertex context, so aliasing between vertex contexts is not modelled.
- ExecInit.Exec.Init: channels are numbers; a missing context, on which the code would dereference nil, is an
  error result.
- The locks of the dag, the contexts and the key-value map: each critical section is one step. The write lock
  taken to set `visited` can make a second traversal wait while the vertex sends, and the read lock of
  `isFinished` (pkg/ccutils/executor/exec_context.go:62-66) then waits behind that pending writer, so that a
  dependent does not come to receive. That needs two traversals between look and write, which trees and an
  atomic check exclude; so these locks add no deadlock where one is excluded here, and the schedules used for
  the deadlocks never get there.
- Timeouts of five seconds, which only log, and the cancellation of workers, which do not look at the context.
- The start lock and the two Once values of a runnable group are part of the state machine; the error channel
  is not: a reader is assumed, and so is one for the manager.
- The context of a runnable group: a check or a runnable may answer and return at any time.
- Kubernetes clients, reconcilers, container and template runners, syntax validation, result records, logging
  and printing.
