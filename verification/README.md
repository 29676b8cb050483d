# Verified model of the hermes cluster task engine

This project models the in-process core of the hermes agent cluster: the task store in its two
versions (in memory and SQL), dependency resolution, scheduling, leases, recovery after node loss,
the heartbeat watchdog and the sync counter. It proves what these promise over whole runs.

`dafny verify dfyconfig.toml` checks everything.

## How it is modelled

- A Python dictionary and an SQL table read without ORDER BY are both a `Dict`: keys in insertion
  order plus a map. First-fit placement and promotion order depend on that order.
- Each store is a class whose methods are the source's locked sections or transactions, with the
  source's loops and branches. A method's contract equates the new table with a function of the old
  one (`Triggered`, `Scheduled`, `Propagated`, ...); the theorems are about those functions and
  about runs of them. Runs are sequences of operations, folded from the left.
- What an operation does is also stated field by field, on the tables before and after, without those
  functions and without the model's constants: `TaskEffects`, `CoreEffects`, `DecisionEffects`,
  `LeaseEffects`, `SyncEffects`, `RecoveryEffects` and the first half of `WatchdogRules` hold these
  `...Effect` predicates. The methods promise them, and a lemma `...Means` derives each from the
  function the method is proved against.
- Helper methods split a source loop where the proof needs it: `Scheduling.FindFit` is the
  "for node in online_nodes ... break" loop that both schedulers and the rescheduler contain,
  `ResolvePending` and `ResolveBlocked` are the first two loops of the propagation, and `PlaceReady`,
  `RevokeListed`, `RescheduleTask` and `CheckNode` are loops or loop bodies of the method they serve.
- The source has one resolver and one core for both stores. Here each is written twice:
  `WorkflowCore` over the in-memory store, whose task list holds live references, and
  `PersistentCore` over the SQL store, whose task list is a snapshot of copies. Both compute the
  same functions, so the theorems about those functions and their runs hold of both.
- "Halted" means blocked, failed, or carrying the status `assigned`, which no modelled step sets or
  leaves except by failing the task.
- Time is an integer parameter. Ids are strings given as parameters; freshness is a precondition
  only where a theorem needs it. Python's `sorted` is the stable insertion sort `SortByKey`, proved
  sorted, a permutation and stable; for SQL's ORDER BY ties it is one allowed order, and
  `PlacementIgnoresOrder` shows that the resulting tasks do not depend on it.
- The expiry callback of a lease scan is the returned list `fired`: the leases reported to the
  callback, in order. `RecoveryDetector.NotifyExpiries` is what the wired callback does with them.

## Main results

1. **Propagation** (`WorkflowResolver.Propagate`): the recursion that extends the list it iterates
   terminates on every graph and has a closed form; inner cascades promote nothing.
2. **Incremental equals full scan** (`IncrementalIsFullScan`, `ClosedOverRuns`): closedness ("a full
   scan would promote nothing") survives every run of the entry points and of recoveries.
3. **Completion paths** (`CompletionPathsAgree`): propagate-then-schedule and scan-then-schedule
   give the same statuses and assignees exactly when there is nothing for the former to block.
   `CompletionPathsCanPart` is a run after which they do not.
4. **Drain** (`DrainTheorem`): an acyclic, covered, closed and scheduled workflow never gets stuck
   and is finished after exactly as many completions as it had tasks left, in any order.
5. **Containment, exactly** (`FailureAndCyclesAreContained`, `StartsOnFixedNodes`,
   `StartsUnlessDoomed`): with the tasks and nodes at hand, a pending task can be brought to running
   in some later run if and only if no chain of pending tasks leads from it to a blocked or failed
   task, to a missing id, to a task that no online node covers, or into a cycle. If the missing ids
   may still be submitted and nodes may join, only halted tasks and cycles stop it for good.
6. **Drop-in replacement** (`DropInReplacement`, `EntryPointsAgree`): over every run of store
   operations that satisfies `DropInOps` the two stores stay related, and each full scan makes them
   equal; behind the entry points (submit with fresh ids, scan, schedule, both completions, fail)
   their tables are equal over every run. `CreatingStaysRelated`, `LinkingStaysRelated` and
   `SchedulingStaysRelated` say exactly when a single store operation would part them;
   `LinkingCanPart` and `SchedulingCanPart` are runs after which one does.
7. **Safe starts** (`StoreStartsSafely`, `MemoryStartsSafely`): over every run that satisfies
   `SafeOps`, or `SafeMemOps` in memory, a ready or running task has its dependencies completed.
   `StoreLinkingIsSafe`, `MemoryLinkingIsSafe` and `RecoveryKeepsSafe` are the exact conditions for
   the steps that can break it, and `MemoryLinkingCanBeUnsafe` is a run in which one does.
8. **How far a failure blocks** (`BlocksDownstreamWhenDirect`): it blocks everything downstream if
   and only if each pending task two steps down also depends on the failed one itself.
9. **Trigger chain**, **scheduler and decision log**, **sync**, **leases and their index**,
   **recovery**, **watchdog**: see the table.

## Where the code differs from its comments

- `_propagate` says it also checks blocked tasks "that might become unblocked"
  (hermes_cluster/core/cluster_core.py:199); resolution rejects every task that is not pending, so
  that loop never changes anything (`ResolveBlocked`).
- `on_dependency_failed` says it blocks all downstream tasks
  (hermes_cluster/core/cluster_core.py:158); it blocks the direct pending dependents.
  `BlocksDownstreamWhenDirect` is the exact condition under which that is all of them, and
  `FailureCanMissDownstream` a run with two hops in which it is not. The others stay pending but can
  never start (`AfterFailure`).
- `schedule_pending` calls itself round-robin (hermes_cluster/state/__init__.py:467); it is first-fit.
- The SQL `create_task` says its promotion matches the in-memory store
  (hermes_cluster/state/cluster_store.py:376); the in-memory store leaves the new task pending until
  the next scan. That is the drift in `Related`.

## Model

| member | source | states |
|---|---|---|
| WorkflowCore.WorkflowResolver.ResolveDependencies | hermes_cluster/core/cluster_core.py:118-151 | a pending task is blocked if some dependency failed, else promoted if all exist and are completed, else left; true exactly when promoted |
| WorkflowCore.WorkflowResolver.Propagate | hermes_cluster/core/cluster_core.py:184-213 | terminates on every graph; returns, in store order, exactly the eligible pending dependents of the completed id; blocks exactly the pending tasks with a failed dependency that depend on it or on a promoted task |
| WorkflowCore.WorkflowResolver.OnDependencyComplete | hermes_cluster/core/cluster_core.py:153-155 | a pending task with the completed id among its dependencies, all completed, is ready, and these are returned in store order; a pending task is blocked if and only if it has a failed dependency and one that is the completed id or a task this call promoted; no other task changes |
| CoreEffects.PropagatedMeans | hermes_cluster/core/cluster_core.py:184-213 | the same for a propagation entered at any depth below 10; at depth 9 it does not cascade, from 10 on it changes nothing |
| Propagation.CascadeStep | hermes_cluster/core/cluster_core.py:208-211 | a cascade from a just promoted task promotes nothing and only adds its blockable dependents |
| WorkflowCore.WorkflowResolver.ResolveBlocked | hermes_cluster/core/cluster_core.py:199-206 | the loop over blocked dependents changes nothing and reports nothing |
| WorkflowCore.WorkflowResolver.OnDependencyFailed | hermes_cluster/core/cluster_core.py:157-170 | exactly the direct pending dependents become blocked, with the failed id in the reason, and are returned in store order |
| WorkflowCore.ClusterCore.SubmitTask | hermes_cluster/core/cluster_core.py:460-469 | the new task has the given title, requirements, priority and time, no dependencies, version 1, and is ready; every other pending task with completed dependencies is ready too; the task returned is the stored one |
| WorkflowCore.ClusterCore.CompleteTask | hermes_cluster/core/cluster_core.py:471-481 | an unknown id changes nothing; otherwise the task is completed, a dependent freed by it starts on the first able node of the registry or is ready, one with a failed dependency that depends on it or on a freed task is blocked, waiting ready tasks start, and the log gains their decisions |
| WorkflowCore.ClusterCore.FailTask | hermes_cluster/core/cluster_core.py:483-490 | an unknown id changes nothing; otherwise the task is failed with the reason given, its pending dependents are blocked with a reason naming it, and nothing else changes |
| PersistentCore.StoreResolver.ResolveDependencies | hermes_cluster/core/cluster_core.py:118-151 | the same resolution of one task over SQL rows |
| PersistentCore.StoreResolver.Propagate | hermes_cluster/core/cluster_core.py:184-213 | over SQL copies, whose statuses go stale during the loops, the propagation computes the same table and list |
| PersistentCore.StoreResolver.OnDependencyComplete | hermes_cluster/core/cluster_core.py:153-155 | over SQL copies, the same promotions, blocks and list, task by task |
| PersistentCore.StoreResolver.ResolveBlocked | hermes_cluster/core/cluster_core.py:199-206 | the second loop, over the copies made before the first, changes nothing and reports nothing |
| PersistentCore.StoreResolver.OnDependencyFailed | hermes_cluster/core/cluster_core.py:157-170 | over SQL copies, the same tasks become blocked and are returned |
| PersistentCore.StoreCore.SubmitTask | hermes_cluster/core/cluster_core.py:460-469 | over the SQL store the same fields of the stored row and of the copy returned; an id in use adds no row |
| PersistentCore.StoreCore.CompleteTask | hermes_cluster/core/cluster_core.py:471-481 | the same, task by task, over the SQL store, with the decision rows |
| PersistentCore.StoreCore.FailTask | hermes_cluster/core/cluster_core.py:483-490 | the same, task by task, over the SQL store |
| CoreRuns.IncrementalIsFullScan | hermes_cluster/core/cluster_core.py:471-481 | from a closed state, propagation after a completion promotes exactly what a full scan would, in the same order, and leaves the state closed |
| CoreRuns.TriggerCloses | hermes_cluster/state/__init__.py:427-448 | after a full scan nothing is eligible |
| CoreRuns.ClosedOverRuns | hermes_cluster/core/cluster_core.py:460-490 | closedness is kept over every run of submit, scan, schedule, complete by either path, fail, and recovery |
| CoreRuns.LinkingKeepsClosed | hermes_cluster/state/__init__.py:207-214 | editing dependencies keeps a closed state closed if and only if the task is not pending or a new dependency is unmet |
| CoreRuns.CompletionPathsAgree | hermes_cluster/__init__.py:449-454 | from a closed state the handler's path and the core's path agree on every status and assignee if and only if no pending task with a failed dependency depends on the completed task or on a promoted one |
| CoreRuns.PathsPointwise | hermes_cluster/core/cluster_core.py:471-481 | task by task, where the two paths agree, the incremental one counts one version more for each promotion |
| CoreRuns.PathsPart | hermes_cluster/__init__.py:449-454 | a task that only the incremental path blocks ends blocked by it and pending by the full scan |
| Counterexamples.CompletionPathsCanPart | hermes_cluster/core/cluster_core.py:471-481 | a run of store operations, ending in a direct status write that fails a task, after which one completion leaves a task blocked by one path and pending by the other |
| Counterexamples.AnyGraph | hermes_cluster/state/__init__.py:159-214 | every dependency graph is reached by creating the tasks and linking them |
| CoreRuns.NoFailuresNoDifference | hermes_cluster/__init__.py:449-454 | with no failed dependency of a pending task the two paths agree |
| Drain.NoSourceMeansCycle | hermes_cluster/core/cluster_core.py:118-151 | a non-empty set of tasks that each depend on a member contains a dependency cycle |
| Drain.SomeTaskRuns | hermes_cluster/state/__init__.py:450-486 | in a drainable workflow some task is running whenever any is uncompleted |
| Drain.ScanAndScheduleOpenTheDrain | hermes_cluster/__init__.py:344-346 | scan-then-schedule makes any acyclic, live, covered workflow drainable |
| Drain.CompletionHasEffect | hermes_cluster/core/cluster_core.py:471-481 | one completion, by either path, finishes its task, starts exactly the freed tasks on their first fitting node, and touches nothing else |
| Drain.DrainTheorem | hermes_cluster/core/cluster_core.py:471-481 | completing running tasks in any order takes exactly as many completions as uncompleted tasks, never stalls, and places every task independently of the order |
| Containment.StuckForEver | hermes_cluster/core/cluster_core.py:118-170 | a set of unstarted tasks whose pending members each depend on a member stays unstarted over every legal run, recoveries of running tasks included |
| Containment.StuckHasChain | hermes_cluster/core/cluster_core.py:118-170 | every member of a stuck set starts a chain of pending tasks to a stop or into a cycle |
| Containment.FailureAndCyclesAreContained | hermes_cluster/core/cluster_core.py:157-170 | no task on such a chain becomes ready, running or completed in any later run |
| Containment.AfterFailure | hermes_cluster/core/cluster_core.py:483-490 | after a task fails, whatever depends on it through pending or blocked tasks never starts, although only direct dependents are blocked |
| Containment.BlocksDownstreamWhenDirect | hermes_cluster/core/cluster_core.py:157-170 | a failure blocks every pending task that leads to the failed one through pending tasks if and only if each pending task that depends on a pending direct dependent also depends on the failed one |
| Counterexamples.FailureCanMissDownstream | hermes_cluster/core/cluster_core.py:157-170 | a run with a two-hop chain in which a failure leaves the far end pending |
| Containment.RecoveryKeepsStuck | hermes_cluster/core/recovery.py:82-127 | a recovery keeps a stuck set stuck if and only if it moves none of its members to a node |
| FixedCluster.IdleForEver | hermes_cluster/core/cluster_core.py:118-170 | with fixed online nodes and no submissions, a set whose members are halted, missing, uncovered or held back by another member never runs |
| FixedCluster.StopsAreContained | hermes_cluster/state/__init__.py:427-486 | then no task on a chain of pending tasks to a halted, missing or uncovered one, or into a cycle, ever runs or completes |
| Liveness.BringToRunningOn | hermes_cluster/core/cluster_core.py:471-481 | on the given nodes and without submissions, builds a run that starts any task no such chain dooms |
| Liveness.StartsOnFixedNodes | hermes_cluster/state/__init__.py:427-486 | on the given nodes and without submissions, a pending task can be started if and only if no such chain dooms it |
| Liveness.BringToRunning | hermes_cluster/core/cluster_core.py:460-481 | builds a legal run that starts any task no chain dooms, once missing ids are submitted and a node covers everything |
| Liveness.StartsUnlessDoomed | hermes_cluster/core/cluster_core.py:118-170 | when missing ids may be submitted and nodes may join, a pending task can be started in some later run if and only if no chain leads to a halted task or into a cycle |
| Scheduling.FindFit | hermes_cluster/state/__init__.py:468-485 | the inner loop returns the first fit |
| Scheduling.FirstFitIsFirst | hermes_cluster/state/__init__.py:466-485 | the chosen node is the first in the list of online nodes that covers all of the requirements |
| TaskEffects.FitMeans | hermes_cluster/state/__init__.py:455-486 | it is the first node of the registry, in registry order, that is online and has every required capability; none is chosen if and only if there is no such node |
| Scheduling.NoFitMeansNoCover | hermes_cluster/state/__init__.py:466-485 | no node is chosen if and only if no online node covers the requirements |
| Scheduling.PlacementIgnoresOrder | hermes_cluster/state/__init__.py:461-485 | visiting the ready tasks in any order gives the same table |
| Scheduling.SchedulingIsExhaustive | hermes_cluster/state/__init__.py:450-486 | the tasks left ready are exactly those no online node covers; a second call changes nothing |
| Scheduling.SortIsStable | hermes_cluster/state/__init__.py:462-465 | the visiting order is a permutation, sorted by (priority, created_at), with ties in table order |
| Scheduling.DecisionsAreOrdered | hermes_cluster/state/__init__.py:466-485 | one decision a placed task, naming its node, without repetition and in key order |
| Scheduling.LogKeepsNewest | hermes_cluster/state/__init__.py:405-409 | over any interleaving of recording and scheduling the log is the last min(max, total) entries of the history |
| DecisionTable.TrimIsSuffix | hermes_cluster/state/cluster_store.py:738-747 | deleting the ids not among the top ones is taking the suffix of the log |
| InMemory.ClusterState.CreateTask | hermes_cluster/state/__init__.py:159-173 | the row and the task returned have the given title, requirements, priority and time, no dependencies, assignee or reason, version 1, and are pending; it replaces what was there |
| InMemory.ClusterState.SetTaskStatus | hermes_cluster/state/__init__.py:183-193 | status and version change, the reason only when it is not empty; false for an unknown id |
| InMemory.ClusterState.UnblockTask | hermes_cluster/state/__init__.py:195-205 | only a blocked task goes back to pending |
| InMemory.ClusterState.SetDependencies | hermes_cluster/state/__init__.py:207-214 | dependencies and version change and no other field |
| InMemory.ClusterState.GetDependents | hermes_cluster/state/__init__.py:216-222 | exactly the ids whose tasks depend on the given one, in store order |
| InMemory.ClusterState.Traverse | hermes_cluster/state/__init__.py:229-236 | one traversal terminates on cyclic graphs and equals the recursive function of the same shape; it lists exactly the edges leaving the ids it newly visits, and visits their targets when the depth bound cannot bite |
| InMemory.ClusterState.GetTriggerChain | hermes_cluster/state/__init__.py:224-239 | every entry is reachable in at most max_depth hops; each (task, dependent) pair gives at most one entry; with as many levels as distinct ids the entries are exactly what is reachable; where each task is met at one level only they are exactly what lies within max_depth hops |
| TriggerGraph.LevelledIsExact | hermes_cluster/state/__init__.py:224-239 | when any two dependent paths of at most max_depth ids from the root to the same task are equally long, the chain is exactly what lies within max_depth hops |
| Counterexamples.TriggerChainCanMiss | hermes_cluster/state/__init__.py:224-239 | a graph with a shortcut, and depth 3, for which a task three hops away is not listed |
| InMemory.ClusterState.TriggerPendingTasks | hermes_cluster/state/__init__.py:427-448 | a task becomes ready if and only if it is pending and each dependency is there and completed; nothing else changes; the number of such tasks is returned |
| InMemory.ClusterState.SchedulePending | hermes_cluster/state/__init__.py:450-486 | a ready task runs on the first node of the registry that is online and has all its requirements, and stays ready if there is none; the count is that of the tasks started; the log gains one decision each, by priority, creation time and table order, and keeps its last 200 |
| DecisionEffects.LogMeans | hermes_cluster/state/__init__.py:460-485 | that log, derived from recording and trimming decision by decision |
| InMemory.ClusterState.RecordDecision | hermes_cluster/state/__init__.py:405-409 | append, then keep the last 200 |
| Persistent.ClusterStore.CreateTask | hermes_cluster/state/cluster_store.py:364-391 | a new row has the given title, requirements, priority and time, no dependencies, version 1, and is ready; an existing row is kept and only goes from pending to ready |
| Persistent.ClusterStore.SetDependencies | hermes_cluster/state/cluster_store.py:436-450 | as in memory, and a ready task given dependencies goes back to pending |
| Persistent.ClusterStore.TriggerPendingTasks | hermes_cluster/state/cluster_store.py:775-811 | the same promotion and count as in memory, task by task |
| Persistent.ClusterStore.SchedulePending | hermes_cluster/state/cluster_store.py:813-877 | the same placement, count and log as in memory, task by task |
| Persistent.ClusterStore.RecordDecision | hermes_cluster/state/cluster_store.py:728-747 | the rows in id order are the suffix of the old rows and the new one |
| Persistent.ClusterStore.UnblockTask | hermes_cluster/state/cluster_store.py:426-434 | only a blocked task goes back to pending |
| Persistent.ClusterStore.SetTaskStatus | hermes_cluster/state/cluster_store.py:407-424 | the same update as in memory |
| DropIn.TriggerMakesEqual | hermes_cluster/state/cluster_store.py:775-811 | a full scan makes related stores equal; it promotes the drifted tasks only in memory |
| DropIn.ResolutionAgrees | hermes_cluster/core/cluster_core.py:118-213 | dependency resolution decides, returns and blocks the same over both stores, and their dependency graphs agree |
| DropIn.DropInReplacement | hermes_cluster/state/cluster_store.py:364-450 | over every run of creates with fresh ids, links of tasks not ready in memory, status writes, unblocks, resolution, scans and schedulings that place no drifted task, the stores stay related, and are equal after each full scan |
| DropIn.CreatingStaysRelated | hermes_cluster/state/cluster_store.py:364-391 | creating a task keeps the relation if and only if its id is new or the row is that very task, not yet started |
| DropIn.LinkingStaysRelated | hermes_cluster/state/cluster_store.py:436-450 | setting dependencies keeps the relation if and only if it does not give some to a task that is ready in memory |
| Counterexamples.LinkingCanPart | hermes_cluster/state/cluster_store.py:436-450 | a run of related stores after which setting dependencies parts them |
| DropIn.SchedulingStaysRelated | hermes_cluster/state/cluster_store.py:813-877 | scheduling without a scan keeps the relation if and only if no drifted task can be placed |
| Counterexamples.SchedulingCanPart | hermes_cluster/state/cluster_store.py:813-877 | a run of related stores after which scheduling without a scan parts them |
| DropIn.EntryPointsAgree | hermes_cluster/core/cluster_core.py:460-490 | over every run of submissions with fresh ids, scans, schedulings, completions by either path and failures, the tables of the two stores are equal |
| SafeStarts.StoreStartsSafely | hermes_cluster/state/cluster_store.py:364-450 | over every run of creates with fresh ids, links that give a running task only completed dependencies, scans, schedulings, unblocks, resolution, completions, and failures of tasks not completed, a ready or running task has its dependencies present and completed |
| SafeStarts.StoreLinkingIsSafe | hermes_cluster/state/cluster_store.py:436-450 | in the SQL store an edit of dependencies keeps that if and only if the task is not running or the new ones are completed |
| SafeStarts.MemoryLinkingIsSafe | hermes_cluster/state/__init__.py:207-214 | in memory an edit of dependencies keeps that if and only if the task is neither ready nor running or the new ones are completed |
| SafeStarts.RecoveryKeepsSafe | hermes_cluster/core/recovery.py:82-127 | a recovery leaves the started tasks safe if and only if no task started afterwards depends on an unfinished task or on an orphan |
| SafeStarts.RunningOrphansAreSafe | hermes_cluster/core/recovery.py:82-127 | which holds whenever the orphans found are running |
| SafeStarts.MemoryStartsSafely | hermes_cluster/state/__init__.py:159-214 | over every in-memory run of the same operations and of recoveries under those conditions, a ready or running task has its dependencies present and completed |
| Counterexamples.MemoryLinkingCanBeUnsafe | hermes_cluster/state/__init__.py:207-214 | a run after which the same edit leaves memory unsafe and the SQL store safe |
| Handlers.HandleClusterSubmit | hermes_cluster/__init__.py:321-358 | an empty title is refused and neither tasks nor decisions change; otherwise the stored task has the given fields and runs on the first able node or is ready, and so does every task that was ready or due; the reply shows the task before scheduling and whether anything was placed |
| Handlers.HandleClusterComplete | hermes_cluster/__init__.py:436-467 | an empty or unknown id is refused and neither tasks nor decisions change; otherwise the task is completed, every pending task with nothing left to wait for starts on the first able node or is ready, and no task is blocked; with the promoted and scheduled counts |
| InMemory.ClusterState.CreateLease | hermes_cluster/state/__init__.py:275-289 | the lease is stored active for the given task and node until now + ttl, and is the index entry of its task |
| InMemory.ClusterState.RevokeLease | hermes_cluster/state/__init__.py:291-300 | the lease becomes revoked and its task's index entry is dropped; false for an unknown id |
| InMemory.ClusterState.GetActiveLeases | hermes_cluster/state/__init__.py:302-317 | due leases expire and are reported in order; afterwards the active leases are exactly those returned |
| LeaseRules.NeverReactivated | hermes_cluster/state/__init__.py:275-317 | over all runs a lease that has left active never becomes active again, and revoked is final |
| LeaseRules.FiresWhenDue | hermes_cluster/state/__init__.py:309-316 | the expiry callback fires only at or after expires_at, for a lease that has left active |
| LeaseRules.FiresOnce | hermes_cluster/state/__init__.py:309-316 | the callback fires at most once for a lease |
| LeaseRules.ExpiryIsReported | hermes_cluster/state/__init__.py:309-316 | every expired lease has had its callback |
| LeaseRules.SilentOnceInactive | hermes_cluster/state/__init__.py:291-317 | once a lease is revoked or expired no later step fires for it |
| LeaseRules.IndexIsNewestUnrevoked | hermes_cluster/state/__init__.py:287-299 | the index entry of a task is the lease of the last creation, unless a lease of the task was revoked since |
| LeaseRules.IndexEntryIsSound | hermes_cluster/state/__init__.py:287-299 | each entry names an existing, never-revoked lease of that task |
| LeaseRules.IndexEntryIsNewest | hermes_cluster/state/__init__.py:287-299 | that lease is the most recently created one for the task |
| InMemory.ClusterState.HandleSyncMessage | hermes_cluster/state/__init__.py:326-353 | an old version changes nothing; a newer one is taken, a known task gets its valid status, its named assignee and its version, an unknown one is created with the message's fields and priority 3 |
| InMemory.ClusterState.HandleBatchSync | hermes_cluster/state/__init__.py:355-361 | folds the messages and counts those applied |
| Persistent.ClusterStore.HandleSyncMessage | hermes_cluster/state/cluster_store.py:622-636 | a version above the logged maximum is appended to the log |
| SyncRules.BatchAppliesRecords | hermes_cluster/state/__init__.py:355-361 | exactly the messages above the start version and all earlier ones are applied and counted; the final version is the maximum |
| SyncRules.BatchesCompose | hermes_cluster/state/__init__.py:355-361 | a batch of a concatenation equals two batches in sequence |
| SyncRules.ReplayIsIdempotent | hermes_cluster/state/__init__.py:326-331 | replaying a batch applies zero messages and changes nothing |
| SyncRules.StoreVersionAgrees | hermes_cluster/state/cluster_store.py:612-668 | the maximum of the store's strictly rising log always equals the in-memory counter, with the same count applied |
| Recovery.Revoker.RevokeAllForNode | hermes_cluster/core/recovery.py:41-65 | exactly the node's active unexpired leases are revoked, their tasks returned and logged in lease order, their index entries dropped |
| Recovery.Rescheduler.RescheduleTask | hermes_cluster/core/recovery.py:83-127 | one orphan runs on the first node of the registry that is online and has all its requirements, or fails with the reason that there is none; one log entry says which and where |
| Recovery.Rescheduler.RescheduleOrphaned | hermes_cluster/core/recovery.py:78-129 | the orphans are rescheduled in turn; missing ones are skipped; the moved ones are counted |
| Recovery.RecoveryDetector.RecoverNode | hermes_cluster/core/recovery.py:200-226 | leases, index, tasks, event log and queue after a whole recovery, field by field |
| Recovery.RecoveryDetector.RecoverNext | hermes_cluster/core/recovery.py:188-198 | the oldest queued node is recovered, with the whole state and queue of a recovery; an empty id is only dropped |
| RecoveryRules.RescheduledPointwise | hermes_cluster/core/recovery.py:82-127 | each found orphan ends running on its first fitting node or failed, one version for each lease; every other task is unchanged |
| RecoveryEffects.RescheduledMeans | hermes_cluster/core/recovery.py:82-127 | the same on the registry: the first online node with all requirements, or the failure reason |
| RecoveryEffects.RescheduleEventsMean | hermes_cluster/core/recovery.py:102-127 | one log entry for each orphan found, in turn, naming its node or its failure |
| RecoveryEffects.RecoveredMeans | hermes_cluster/core/recovery.py:200-219 | the tasks logged and relocated are those of the leases the node held, in table order |
| RecoveryRules.RecoveryConserves | hermes_cluster/core/recovery.py:78-129 | revoked = moved + failed + missing, and each move or failure is logged |
| RecoveryRules.RecoveryLogGrowth | hermes_cluster/core/recovery.py:208-219 | the log grows by revoked + moved + failed and one summary if anything was revoked; the summary says completed if and only if every orphan was moved |
| RecoveryRules.NodeLosesItsLeases | hermes_cluster/core/recovery.py:41-65 | afterwards the node holds no active unexpired lease and other nodes keep theirs |
| RecoveryRules.NeverBackToOffline | hermes_cluster/core/recovery.py:87-100 | a node that is not online gets no orphan back |
| Watchdogs.Watchdog.Check | hermes_cluster/core/watchdog.py:130-154 | a node ends offline, degraded or online if and only if its silence is at least offline_after, less than that but at least degraded_after, or less than both; exactly the changed nodes are reported with their new status, in registry order; the newly offline ones are queued for recovery |
| Watchdogs.Watchdog.CheckNode | hermes_cluster/core/watchdog.py:135-152 | the turn of one node, with the same three conditions |
| WatchdogRules.NodesAreIndependent | hermes_cluster/core/watchdog.py:135-152 | in a run of registrations, heartbeats and checks each node fares as if there were only its own and the checks |
| WatchdogRules.StatusOnlyWorsens | hermes_cluster/core/watchdog.py:136-142 | until a registered node is heard of again its status never improves |
| WatchdogRules.NeverOfflineEarly | hermes_cluster/core/watchdog.py:136-138 | a check leaves a silent node offline if and only if offline_after has passed since it was last heard of |
| WatchdogRules.StatusAfterCheck | hermes_cluster/core/watchdog.py:135-142 | in a run of the registry each check leaves a silent node with the status that the time since it was last heard of calls for |
| WatchdogRules.HeardWhenSent | hermes_cluster/core/watchdog.py:130-134 | last heard of means the last heartbeat, or the time it registered with |
| WatchdogRules.ReportedWhenChanged | hermes_cluster/core/watchdog.py:144-147 | a check returns an event for a node if and only if the level its silence calls for is not its status |
| WatchdogRules.ReportsOnlyWorsen | hermes_cluster/core/watchdog.py:144-147 | until a node is heard of again, each event the checks return for it is strictly worse than the one before, so at most one degraded and one offline |
| WatchdogRules.NeverReportedEarly | hermes_cluster/core/watchdog.py:136-138 | no check reports a node offline before offline_after of silence |
| WatchdogRules.OfflineByDeadline | hermes_cluster/core/watchdog.py:125-154 | when each check before the deadline is followed by one within `gap`, a check reports the silent node offline by the time it was last heard of + offline_after + gap, and it stays offline until it is heard of again |
| WatchdogRules.LostNodeGetsNothingBack | hermes_cluster/core/cluster_core.py:326-330 | after the check that finds a node offline its recovery assigns nothing to it |

## Left out

- Object identity: `get_task` hands out references in memory; the model re-reads the table, and the assignee written through a reference in hermes_cluster/core/recovery.py:99 is the store method `AssignTask`. Over the SQL store that write changes a copy, so recovery is modelled over the in-memory store only.
- `updated_at`, node load, event ids, messages and timestamps: written but never read by the modelled code.
- SQLite connections, JSON and date conversion, rollback, locks and threads: each locked section or transaction is one atomic step, and `created_at` is compared as a number.
- Persistent.ClusterStore.HandleSyncMessage: keeps the version log only, because the source writes the message's status text into the row unchecked, which the status type here cannot hold.
- Liveness.BringToRunning: the run it builds submits missing ids and schedules on a node that covers everything; `Liveness.BringToRunningOn` needs neither.
- InMemory.ClusterState.GetTriggerChain: that each task is met at one level only is sufficient, not necessary, for the chain to hold everything within max_depth hops; whether it does without that depends on the order in which dependents are visited.
- Liveness.StartsUnlessDoomed: the later run may submit tasks under ids that pending tasks already name as dependencies, and bring nodes online; the source draws task ids at random. `Liveness.StartsOnFixedNodes` needs neither.
- The node-online and capability-change callbacks (hermes_cluster/core/cluster_core.py:368-381): they take the length of a count and the exception is swallowed.
- `ClusterScheduler.reschedule_task` (hermes_cluster/core/cluster_core.py:78-100): it leaves the task pending with its old assignee, so what its name promises does not hold.
- `register_node` of the SQL store, which moves a re-registered node to the end of the row order: `DropInReplacement` takes the same online nodes for both stores.
- Start and stop of background loops, condition waits and log output; a loop body is one step.
- Federation, hooks, summaries, counts, configuration, HTTP and the dashboard: only easy members.
