# Verified model of Empy Studio's core

This project models the parts of Empy Studio in which much can go wrong and
proves, for all inputs and all runs, what they keep. Check it with
`dafny verify dfyconfig.toml` (Dafny 4.11).

- **Multi-agent runtime** (`MultiAgentRuntime.dfy`, `RuntimeModel.dfy`,
  `RunOutcome.dfy`, `RunProperties.dfy`, `RunRecords.dfy`, `RunSchedule.dfy`, over
  `ExecutionGraph.dfy`, `Orchestrator.dfy`, `CapabilityGraph.dfy`,
  `CapabilityChains.dfy`, `AgentScheduler.dfy`, `AgentRegistry.dfy`,
  `AgentMemory.dfy`, `AgentContracts.dfy`). A run peels the dependency graph into
  waves and dispatches each wave in batches bounded by workers and capacity.
  Adapters are arbitrary functions of payload and attempt number, and the
  workers of a batch make their attempts in any order. The run is a
  method with loops; ghost values carry which tasks are settled and which batch
  ran what. `Ended` says what a finished run keeps, and `IsOutcome` that its
  states, memory, schedule and results are those of a function of the run and
  the memory it starts from, whatever the interleaving was.
- **Plugin store** (`StoreModel.dfy`, `PluginStore.dfy`, `StoreProperties.dfy`,
  `PluginRemoval.dfy`, `InstallRaces.dfy`, `PluginPackage.dfy`,
  `PackageRules.dfy`). The store is a class whose methods make the writes in the
  order of the source, with a fault possible before each; recovery writes
  succeed. `InstallRaces.dfy` lets any number of installing processes interleave
  step by step.
- **Releases** (`ReleaseVersion.dfy`, `Changelog.dfy`, `Calendar.dfy`). Versions
  follow Semantic Versioning 2.0.0, sections 2, 9, 10 and 11.
- **Change-only delivery** (`ProjectDelivery.dfy`, `DeliveryRules.dfy`, `Paths.dfy`).
- **Token accounting** (`TokenUsage.dfy`, `UsageReading.dfy`, `UsageTotals.dfy`,
  `Json.dfy`).
- **Review workspace** (`ReviewWorkspace.dfy`).
- `Ordering.dfy`, `Sorting.dfy`, `Text.dfy` and `Wrappers.dfy` hold what Python
  and its library provide: string order, stable sorting, decimal numbers, split,
  join, strip, `None` and exceptions.

Where code and expectation part, the code is followed, a lemma names the case,
and another says exactly when it arises:

| case | exactly when |
|---|---|
| `ClosureOfAliasChain` | `IdempotentIfNamesReturn`, `IdempotentIffChainsClose` |
| `AgentsMayShareAFile` | `MemoryIsOwnUpdates`, `PathsMeet` |
| `SecondTaskFails` | `FailsForTheMoment` |
| `FailedInstall`, `FailedRollback`, `FailedRemoval`, `UpgradeMayGoBack` | the lemmas themselves |
| `LateRecoveryLosesACommit` | `RecoveryKeepsEarlierCommits` |
| `ParseOfPrint`, `LeadingZeroesAreIncomparable` | `ParseOfPrint`, `VersionTrichotomy` |
| `ReleaseWithoutSection`, `UnreleasedLendsItsSections` | `OwnSectionsExactly` |
| `ProviderDependsOnOrder` | `OrderMattersOnlyForNames`, `EventOrderMattersOnlyForNames` |
| `ForgottenClash` | `ProviderIsThatOfAllRecords` |
| `DuplicatePathsLoseData` | `DecidingKeepsCaptures` |

What the environment provides is a parameter: adapters, today's date, the JSON
codec of packages, SHA-256 (with no collision assumed among the bytes at hand,
only where a result needs it), the policy for sensitive paths, and how Python
prints a JSON value.

## Model

| member | source | states |
|---|---|---|
| ExecutionGraph.ValidateGraph | src/empy_studio/execution_graph.py:6-28 | a task list is accepted exactly when ids are unique, all dependencies are known, no task depends on itself and the dependency relation has no cycle; duplicate ids are reported exactly when there are any, and every error names a violation that is there |
| ExecutionGraph.StuckGivesCycle | src/empy_studio/execution_graph.py:20-28 | a round in which every pending task still has a pending dependency yields an actual cycle of dependencies |
| ExecutionGraph.CycleNeverDone | src/empy_studio/execution_graph.py:20-28 | no task of a cycle is ever peeled |
| ExecutionGraph.PeelingDecides | src/empy_studio/execution_graph.py:20-28 | once a round takes no task, every task has been taken exactly when all dependencies are known and there is no cycle |
| ExecutionGraph.Peel | src/empy_studio/execution_graph.py:20-28 | the peeling loop terminates and reports a cycle exactly when there is one |
| ExecutionGraph.WaveIsLongestChain | src/empy_studio/execution_graph.py:31-48 | a task lies in wave k exactly when its longest dependency chain has k steps |
| ExecutionGraph.WavesAre | src/empy_studio/execution_graph.py:31-48 | every listed wave is the sorted non-empty set of its tasks, and the waves hold every task exactly when all dependencies are known and there is no cycle |
| ExecutionGraph.PeelWaves | src/empy_studio/execution_graph.py:33-48 | on an acyclic graph the loop always makes progress, so its second error is never raised, and it yields the waves |
| ExecutionGraph.ExecutionWaves | src/empy_studio/execution_graph.py:31-48 | the waves are returned exactly for the task lists that validate, with the validation error otherwise |
| Orchestrator.Schedule | src/empy_studio/orchestrator.py:135-159 | indegree counting, with repeated dependencies and even repeated ids allowed, returns the same waves as peeling, or raises exactly when peeling does not succeed |
| Orchestrator.BuildChildren | src/empy_studio/orchestrator.py:137-140 | the children lists count every dependency as often as it is listed |
| Orchestrator.VisitNode | src/empy_studio/orchestrator.py:149-154 | visiting a node lowers each count by the number of its occurrences among the children and collects exactly those whose count reaches zero, each once |
| CapabilityGraph.CapabilityGraph.Register | src/empy_studio/capability_graph.py:36-43 | a capability is added with its aliases exactly when its id is no capability and its aliases, one after the other, name neither a capability nor an alias; otherwise it is rejected, and the aliases read before a taken one stay registered |
| CapabilityGraph.CapabilityGraph.Validate | src/empy_studio/capability_graph.py:71-82 | validation succeeds exactly when every implied and required name resolves to a registered capability |
| CapabilityGraph.CapabilityGraph.Expand | src/empy_studio/capability_graph.py:55-66 | the worklist terminates and returns the least set that holds the canonical inputs and is closed under implies and requires, failing exactly when an unknown name is reached |
| CapabilityGraph.ClosureMonotone | src/empy_studio/capability_graph.py:55-66 | a larger request expands to a larger set |
| CapabilityGraph.ClosureIdempotent | src/empy_studio/capability_graph.py:45-66 | expanding an expansion gives it back in every catalog whose chains of aliases close: with an alias of an alias comes the end of the chain, and the middle comes back from its own expansion |
| CapabilityGraph.IdempotentIffChainsClose | src/empy_studio/capability_graph.py:45-66 | in catalogs without an alias of an alias of an alias, all expansions are idempotent if and only if every chain closes |
| CapabilityGraph.ClosureOfAliasChain | src/empy_studio/capability_graph.py:36-66 | a catalog that passes registration and validation expands one name to a set whose expansion is another |
| CapabilityGraph.ValidatedExpands | src/empy_studio/capability_graph.py:71-82 | in a validated catalog a request can be expanded exactly when its names are known |
| CapabilityGraph.Load | src/empy_studio/capability_graph.py:29-34 | a graph is built from a list exactly when each capability finds its id and aliases new after those before it and all references are known in the end; it then holds every listed capability |
| CapabilityGraph.FitsIfNew | src/empy_studio/capability_graph.py:36-43 | what registration checks against the graph is that the names are new among those listed before |
| CapabilityChains.ClosureIsReached | src/empy_studio/capability_graph.py:55-66 | an expansion holds exactly the names that chains reach from the requested ones, each link an implied or a required capability, aliases resolved |
| CapabilityChains.ExpandableIfReachedIsKnown | src/empy_studio/capability_graph.py:48-66 | a request can be expanded exactly when every name so reached is registered |
| CapabilityChains.IdempotentIfNamesReturn | src/empy_studio/capability_graph.py:45-66 | in every catalog expansion is idempotent on all requests if and only if it is on every single name and alias |
| CapabilityChains.LastUnknownIsReported | src/empy_studio/capability_graph.py:55-66 | of the unknown names of a request to a validated catalog the last one is reported |
| CapabilityChains.RegisteredAliases | src/empy_studio/capability_graph.py:40-43 | registration makes every alias of the capability stand for its id and leaves the other aliases |
| AgentRegistry.AgentRegistry.Register | src/empy_studio/agent_registry.py:15-18 | an agent is added under its id unless the id is taken |
| AgentRegistry.AgentRegistry.Select | src/empy_studio/agent_registry.py:26-53 | the preferred agent if it covers the task, else the covering agent with fewest surplus capabilities and then the smallest id; an error exactly when there is none |
| AgentRegistry.SelectionUnique | src/empy_studio/agent_registry.py:47-53 | the order of selection leaves one agent only |
| AgentRegistry.SelectedFitsBest | src/empy_studio/agent_registry.py:26-53 | the selected agent has all the task asks for; without a preference no other such agent has fewer capabilities unasked for, and with as many it has a greater id |
| AgentRegistry.RefusalTells | src/empy_studio/agent_registry.py:20-45 | which error means an unknown preferred agent, an unfit one, or that no agent has all the task asks for |
| AgentScheduler.AgentScheduler.Rank | src/empy_studio/agent_scheduler.py:54-106 | the ranking holds one decision for each listed agent that is below capacity and whose expansion covers the task, best rounded score first, then by id; it fails exactly at the first unknown capability met; what the score weighs is stated by `TradeOff`, `WithoutProfile` and `WeightsAddUp` |
| AgentScheduler.AgentScheduler.Select | src/empy_studio/agent_scheduler.py:108-120 | the best-scored agent below capacity whose expansion covers the task, the smaller id at equal scores; an error exactly when there is none; for the choice this means `ChosenIsNotWorse` and `NobodyIsClearlyBetter` |
| AgentScheduler.BestUnique | src/empy_studio/agent_scheduler.py:105-120 | two best decisions name the same agent |
| AgentScheduler.UnloadedStaysBest | src/empy_studio/agent_scheduler.py:54-120 | assigning tasks to other agents leaves the best agent the best |
| AgentScheduler.RoundedMonotone | src/empy_studio/agent_scheduler.py:99 | rounding the score to four digits never reverses an order |
| AgentScheduler.RankingIsOrder | src/empy_studio/agent_scheduler.py:105 | the sort key is a strict weak order on decisions |
| AgentScheduler.ChosenIsNotWorse | src/empy_studio/agent_scheduler.py:54-120 | the chosen agent has room and covers the task, and of an eligible agent that differs from it in cost only, it is not the dearer one by more than the rounding step; likewise it is not the less reliable, the one of lower priority, of more surplus weight, or of higher load |
| AgentScheduler.NobodyIsClearlyBetter | src/empy_studio/agent_scheduler.py:80-106 | no eligible agent outscores the chosen one by more than a ten-thousandth before rounding, and at equal scores the smaller id is chosen |
| AgentScheduler.TradeOff | src/empy_studio/agent_scheduler.py:80-87 | the exact exchange rates before rounding: 10 per unit of priority and of reliability, minus 1 per unit of cost and of surplus weight, minus 20 per unit of load ratio |
| AgentScheduler.WithoutProfile | src/empy_studio/agent_scheduler.py:51-87 | an agent without a profile takes one task at a time, and its score is 100 per unit of weight the task needs, minus its surplus, plus 9 |
| AgentScheduler.WeightsAddUp | src/empy_studio/agent_scheduler.py:74-78 | a set of capabilities weighs the sum of their weights, aliases resolved |
| AgentScheduler.RoundedIsNearest | src/empy_studio/agent_scheduler.py:99 | the rounded score is the nearest multiple of a ten-thousandth, the even one of two as near |
| AgentMemory.AgentMemoryStore.Update | src/empy_studio/agent_memory.py:25-51 | the file of the agent, and no other, gets the merged data, the next revision and the last hundred entries |
| AgentMemory.MemoryIsOwnUpdates | src/empy_studio/agent_memory.py:25-51 | after any run of updates an agent finds the initial data folded with its own updates, their count and the last hundred if and only if no other agent of the run shares its file |
| AgentMemory.MemoryIsWritten | src/empy_studio/agent_memory.py:16-51 | an agent finds the initial data folded with all that was written to its file, in order and counted; of its history and what was written at most the last hundred entries are kept, in order, the newest last |
| AgentMemory.PathsMeet | src/empy_studio/agent_memory.py:12-14 | two agents share a file exactly when their ids differ at most where both have an unsafe character or an underscore |
| AgentMemory.PathIsSafe | src/empy_studio/agent_memory.py:12-14 | the file name is the id with an underscore for every character that is no ASCII letter, digit, hyphen or underscore |
| AgentMemory.AgentsMayShareAFile | src/empy_studio/agent_memory.py:12-14 | such a pair of ids: the second agent finds what only the first has written |
| RuntimeModel.ExecutionUnique | src/empy_studio/multi_agent_runtime.py:78-115 | what comes of a prepared task is determined by its adapter |
| RuntimeModel.PassesIffSomeAttemptPasses | src/empy_studio/multi_agent_runtime.py:82-106 | a task passes exactly when one of its allowed attempts does |
| MultiAgentRuntime.MultiAgentRuntime.SelectAgent | src/empy_studio/multi_agent_runtime.py:63-75 | the registry chooses when there is no scheduler, the scheduler otherwise, and then only agents below capacity |
| MultiAgentRuntime.MultiAgentRuntime.ExecutePrepared | src/empy_studio/multi_agent_runtime.py:78-115 | attempts run until one passes or they are used up; exceptions count as failed attempts |
| MultiAgentRuntime.MultiAgentRuntime.BlockTask | src/empy_studio/multi_agent_runtime.py:160-168 | a task with a dependency that did not pass is blocked by exactly those dependencies, whatever its policy |
| MultiAgentRuntime.MultiAgentRuntime.FailTask | src/empy_studio/multi_agent_runtime.py:187-210 | a task that cannot be given to any agent fails, and stops the run under the stop policy |
| MultiAgentRuntime.MultiAgentRuntime.PrepareTask | src/empy_studio/multi_agent_runtime.py:178-232 | a task is prepared for its proper agent with the merged context, memory and handoffs exactly when an agent can be chosen now and has an adapter, deferred exactly when none can be chosen now but could be with nothing assigned, and otherwise fails with the error of the first try |
| MultiAgentRuntime.MultiAgentRuntime.PrepareBatch | src/empy_studio/multi_agent_runtime.py:174-236 | one pass over the remaining tasks fills the batch greedily in their order and divides them into prepared, deferred and failed ones without losing any |
| RunOutcome.DeferredIsExplained | src/empy_studio/multi_agent_runtime.py:184-197 | a deferred task found the batch full, or no agent with room among those that could take it, after the beginning of the batch |
| MultiAgentRuntime.MultiAgentRuntime.ExecuteBatch | src/empy_studio/multi_agent_runtime.py:262-266 | the workers of a batch make their attempts in any order; the results are those of the tasks run alone, in batch order |
| RunOutcome.ExecutionOfIs | src/empy_studio/multi_agent_runtime.py:78-115 | the execution of a task is the one that ends with the first passing attempt or the last allowed one |
| MultiAgentRuntime.MultiAgentRuntime.RecordBatch | src/empy_studio/multi_agent_runtime.py:269-291 | results and memory updates are recorded in batch order, and a failure under the stop policy stops the run; which part of a reply is recorded where is stated by `ResultsComeFromReplies` and `MemoryComesFromReplies` |
| MultiAgentRuntime.MultiAgentRuntime.RunBatch | src/empy_studio/multi_agent_runtime.py:173-293 | every round of the dispatch loop leaves strictly fewer tasks, keeps what is settled, and logs at most one batch |
| MultiAgentRuntime.MultiAgentRuntime.RunWave | src/empy_studio/multi_agent_runtime.py:152-293 | a wave ends with all its tasks settled, or with the run stopped by one of them |
| MultiAgentRuntime.MultiAgentRuntime.RunTasks | src/empy_studio/multi_agent_runtime.py:117-319 | for every task list, every adapter and every interleaving of workers: the run is rejected exactly for invalid graphs, and otherwise ends in a justified final state with a faithful history; final states, memory, schedule and results are a function of the run and its initial memory; it is passed exactly when there is a task and all passed; what states, payloads and memory hold in terms of the adapters' replies is stated in `RunRecords`, how tasks are dispatched in `RunSchedule` |
| RunProperties.PassedNeedsAll | src/empy_studio/multi_agent_runtime.py:156-170 | a passed task has all its dependencies, direct and transitive, passed |
| RunProperties.BlockedIffDependencyFailed | src/empy_studio/multi_agent_runtime.py:156-168 | a task the run got to is blocked exactly when a direct or transitive dependency failed |
| RunProperties.StatusesAreFinal | src/empy_studio/multi_agent_runtime.py:147-300 | every task ends passed, failed, blocked or skipped; a skipped one was never touched, and needs a task that failed under the stop policy |
| RunProperties.LaterWavesAreSkipped | src/empy_studio/multi_agent_runtime.py:152-154 | after a failure under the stop policy every task of a later wave is skipped |
| RunProperties.AllPassIffNoneFailed | src/empy_studio/multi_agent_runtime.py:311-312 | all tasks pass exactly when none failed |
| RunProperties.FailedIsExplained | src/empy_studio/multi_agent_runtime.py:178-274 | a failed task used up its attempts, or failed undispatched with the assignments of the beginning of a batch of the run: its agent then had no adapter, or no agent could be chosen then nor with nothing assigned; its recorded error says which |
| RunOutcome.OutcomeExplains | src/empy_studio/multi_agent_runtime.py:147-300 | the same of every task in the outcome of every run |
| RunProperties.FailsForTheMoment | src/empy_studio/multi_agent_runtime.py:180-210 | a task fails for good although it would be served with nothing assigned exactly when the agent chosen now has no adapter and the one chosen with nothing assigned has; that one then has tasks of the batch already |
| RunProperties.SecondTaskFails | src/empy_studio/multi_agent_runtime.py:180-210 | two agents and two tasks for which this happens |
| RunProperties.DispatchedOnce | src/empy_studio/multi_agent_runtime.py:172-293 | no task is dispatched twice |
| RunProperties.BatchIsBounded | src/empy_studio/multi_agent_runtime.py:174-252 | every batch has one to max_workers tasks of one wave and, with a scheduler, no agent above its capacity |
| RunProperties.PayloadIsSnapshot | src/empy_studio/multi_agent_runtime.py:212-231 | a payload holds the recorded results of the passed dependencies, which are what their adapters returned (`PayloadComesFromReplies`), and the initial memory folded with all that earlier batches wrote to the agent's file, which are its own updates when it owns the file |
| RunProperties.InterleavingDoesNotMatter | src/empy_studio/multi_agent_runtime.py:262-266 | however worker attempts interleave, a task that finishes has the execution it has alone |
| RunProperties.BatchesAgree | src/empy_studio/multi_agent_runtime.py:262-291 | two interleavings that finish a batch leave its workers alike |
| RunProperties.InterleavingGivesTheLog | src/empy_studio/multi_agent_runtime.py:262-291 | every batch of a finished run has the results that any interleaving of its workers would have given |
| RunProperties.RunsAgree | src/empy_studio/multi_agent_runtime.py:117-319 | two finished runs of the same tasks, agents, adapters and initial memory agree in the tasks they got to, the final states, the memory, the schedule and the results |
| RunOutcome.OutcomeEnds | src/empy_studio/multi_agent_runtime.py:117-319 | for all tasks, agents, adapters and memory, what a run comes to has justified states, a faithful history, and nothing after a stop |
| RunRecords.ResultsComeFromReplies | src/empy_studio/multi_agent_runtime.py:78-115 | of every dispatched task of every run: agent and wave are those of its batch, the attempts are its adapter's replies up to the first that passes or the last allowed, and status, result, evidence and error are those of the last reply |
| RunRecords.PayloadComesFromReplies | src/empy_studio/multi_agent_runtime.py:212-231 | every payload names the run, the task and the agent, merges the contexts key by key with the task's own winning, and hands over for each dependency the result its adapter returned in an earlier batch |
| RunRecords.MemoryComesFromReplies | src/empy_studio/multi_agent_runtime.py:269-288 | key by key, the memory after a run holds what the last reply that updates the key wrote, in the order of dispatch, or what it held before |
| RunRecords.PayloadMemoryComesFromReplies | src/empy_studio/multi_agent_runtime.py:216-230 | the memory in a payload is, key by key, what the replies of earlier batches left |
| RunRecords.OneChange | src/empy_studio/multi_agent_runtime.py:281-288 | a task writes one entry with its run, its id and its updates to its agent's file, and none without updates |
| RunRecords.BlockedListsWhatDidNotPass | src/empy_studio/multi_agent_runtime.py:160-168 | a blocked task lists, in the order of its dependencies, exactly those that did not pass |
| RunRecords.BatchesFollowWaves | src/empy_studio/multi_agent_runtime.py:152-293 | the batches of a run follow its waves |
| RunSchedule.ScheduleTellsTheLog | src/empy_studio/multi_agent_runtime.py:242-253 | the schedule lists the batches as dispatched, numbered from one, each with its tasks in the order of their ids, its size, and whether it ran in parallel |
| RunSchedule.NothingIsHeldBack | src/empy_studio/multi_agent_runtime.py:172-240 | over whole runs no task waits without reason: an earlier batch of its wave was full, or with the assignments of a beginning of it no agent had room although one could take the task alone |
| RunSchedule.NothingFollowsAStop | src/empy_studio/multi_agent_runtime.py:172-291 | a batch in which a task failed under the stop policy is the last one |
| RunSchedule.FailureTells | src/empy_studio/multi_agent_runtime.py:180-210 | the error of an undispatched failure names the chosen agent's missing adapter, or is that of the registry or of the scheduler |
| StoreModel.SavedInventoriesAreValid | src/empy_studio/plugin_store.py:207-235 | the inventory an operation is about to save is never rejected by validation |
| PluginStore.PluginStore.SaveInventory | src/empy_studio/plugin_store.py:177-205 | an inventory is saved exactly when it validates, and otherwise nothing changes |
| PluginStore.PluginStore.InstallPlugin | src/empy_studio/plugin_installer.py:119-327 | with a fault possible before each write, an installation commits exactly when it meets none and the store allows it; a failure gives back the inventory, removes the directory once it was named and the pointer once it was named, and never keeps the lock; over an invalid inventory it fails before its first record and changes nothing; every error says what was wrong with the call |
| PluginStore.PluginStore.InstallUnderLock | src/empy_studio/plugin_installer.py:189-282 | the critical section commits, or tells recovery what it named and saved |
| PluginStore.PluginStore.RollbackPlugin | src/empy_studio/plugin_lifecycle.py:100-237 | a rollback commits and then the target is the active version, or it restores the whole store if it got as far as reading the pointer; a failure between its first record and that takes the pointer away; over an invalid inventory it fails before its first record and changes nothing; every error says what was wrong with the call |
| PluginStore.PluginStore.RemoveVersion | src/empy_studio/plugin_management.py:201-394 | a removal commits, or restores the whole store, moved directory included, if it got as far as reading the pointer; a failure between its first record and that takes the pointer away; over an invalid inventory it fails before its first record and changes nothing |
| PluginStore.PluginStore.RecoverSwitch | src/empy_studio/plugin_lifecycle.py:204-237 | recovery restores inventory, directory and pointer exactly when the pointer had been read |
| PluginStore.ReplacementError | src/empy_studio/plugin_management.py:251-273 | an active version may be removed exactly when it is the last or a different installed version replaces it |
| StoreProperties.StoreStatus | src/empy_studio/plugin_management.py:93-198 | every issue that is there is reported, for the plugin or the version that has it, and no other; "healthy" is reported exactly of healthy stores |
| StoreProperties.InstalledIs | src/empy_studio/plugin_installer.py:189-282 | after a committed installation the version is active, recorded with digest, source and path, unpacked at its path and pointed at; nothing of it was there before, all other versions, plugins, directories and pointers are as before, and the revision is one higher |
| StoreProperties.RolledBackIs | src/empy_studio/plugin_lifecycle.py:127-190 | after a committed rollback the target is active and pointed at by its recorded path; versions, packages, other entries and other pointers are as before, and the revision is one higher |
| StoreProperties.RemovedIs | src/empy_studio/plugin_management.py:238-340 | after a committed removal the version and its directory are gone, the plugin with its last version; the replacement is active and pointed at if the active version went, and all else is as before |
| StoreProperties.RollbackThereAndBack | src/empy_studio/plugin_lifecycle.py:127-190 | rolling back to a version and then to the formerly active one gives the store back except for the revision, exactly if the pointer had been that of the active version, as in a consistent store |
| StoreProperties.WhenPossible | src/empy_studio/plugin_management.py:238-290 | in a consistent store an installation, a rollback and a removal are possible exactly when these arguments fit what is installed |
| StoreProperties.CommitsKeepTheStoreHealthy | src/empy_studio/plugin_management.py:93-198 | every store reached from an initialized one by committed installs, rollbacks and removals is healthy, corresponds one to one with its directories, and has counted its commits in the revision |
| StoreProperties.ConsistentIsHealthy | src/empy_studio/plugin_management.py:100-189 | one-to-one correspondence implies health |
| StoreProperties.InstalledIsConsistent | src/empy_studio/plugin_installer.py:189-282 | a committed install keeps directories, records and pointers in correspondence |
| StoreProperties.RolledBackIsConsistent | src/empy_studio/plugin_lifecycle.py:126-193 | so does a committed rollback |
| StoreProperties.RemovedIsConsistent | src/empy_studio/plugin_management.py:233-329 | so does a committed removal |
| StoreProperties.FailedInstall | src/empy_studio/plugin_installer.py:294-323 | in a store without orphans a failed install gives back inventory and directories, and leaves the store as it was, and healthy, exactly when it failed before the pointer write or the plugin had no earlier version |
| StoreProperties.FailedInstallIsLocal | src/empy_studio/plugin_installer.py:284-327 | of any store a failed installation changes at most the directory and the pointer it had named; a stray directory in the place of the package is lost |
| StoreProperties.FailedRollback | src/empy_studio/plugin_lifecycle.py:204-237 | a failed rollback changes nothing, and leaves the store healthy, exactly when it got as far as reading the pointer or there was none |
| StoreProperties.FailedRemoval | src/empy_studio/plugin_management.py:345-394 | a failed removal changes nothing, and leaves the store healthy, exactly when it got as far as reading the pointer or there was none |
| StoreProperties.RollbackRepairs | src/empy_studio/plugin_lifecycle.py:126-193 | rolling back to the active version brings a lost pointer back and changes nothing else but the revision |
| StoreProperties.RemovalUndoesInstall | src/empy_studio/plugin_management.py:233-329 | removing what was just installed, the former version taking over, gives the store back except for the revision |
| StoreProperties.UpgradeMayGoBack | src/empy_studio/plugin_lifecycle.py:53-97 | whatever is installed, a package of lower precedence than the active version is accepted unless that very version is installed, and becomes the active one beside the newer |
| PluginRemoval.RemovePlugin | src/empy_studio/plugin_management.py:397-441 | unless the store is locked or a fault strikes, every version is removed through healthy states only; other plugins are untouched in every case |
| PluginRemoval.NextCanBeRemoved | src/empy_studio/plugin_management.py:416-434 | with the chosen replacement the next removal is never refused |
| PluginRemoval.ReplacementFor | src/empy_studio/plugin_management.py:420-427 | the greatest of the other versions replaces an active one that is about to go |
| InstallRaces.RunIsSerial | src/empy_studio/plugin_installer.py:189-282 | every interleaving of installing processes leaves what installing the committed packages one after the other leaves |
| InstallRaces.InstallsAreSafe | src/empy_studio/plugin_store.py:237-268 | in every interleaving at most one process holds the lock, no directory collides, no committed or earlier version is lost, and while the lock is free the store is healthy and the revision has grown by the number of commits |
| InstallRaces.InstallsEnd | src/empy_studio/plugin_installer.py:119-327 | whatever the others do, six steps of its own bring every installing process to its end |
| InstallRaces.SoloCommits | src/empy_studio/plugin_installer.py:189-282 | a process that finds the lock free and its version installable commits in six steps, with the store of an installation |
| InstallRaces.SoloGivesUp | src/empy_studio/plugin_store.py:237-268 | a process that finds the lock taken or its version installed gives up and leaves all else as it is |
| InstallRaces.PromptRecovery | src/empy_studio/plugin_installer.py:284-327 | recovery right after the fault leaves the store as the process found it, but for the pointer of its plugin |
| InstallRaces.RecoveryKeepsEarlierCommits | src/empy_studio/plugin_installer.py:189-311 | for any number of processes, any schedule before the fault and any after it, recovery keeps a commit exactly when it had happened at the fault; the others leave their directory behind |
| InstallRaces.LateRecoveryLosesACommit | src/empy_studio/plugin_installer.py:294-311 | two processes are enough: recovery runs after the lock is let go and erases from the inventory what the other committed meanwhile |
| PluginPackage.InspectPackage | src/empy_studio/plugin_package.py:70-181 | a package is accepted exactly when names are safe, manifest and records decode, every record holds, payload and records agree, and the entrypoint module is there; manifest, records and signed flag are those of the archive |
| PluginPackage.CheckRecords | src/empy_studio/plugin_package.py:100-134 | records are accepted exactly when they are safe, distinct, present, and agree in size and digest |
| PluginPackage.BuildPackage | src/empy_studio/plugin_package.py:184-285 | a source with a valid manifest and a payload becomes an archive of records, signature, payload and manifest in sorted order |
| PluginPackage.BuiltPackagesAreAccepted | src/empy_studio/plugin_package.py:70-285 | a package built from a valid source is accepted exactly when its requirement admits the version and the entrypoint module is in the payload; its records are the paths, digests and sizes of the payload |
| PluginPackage.ExtractPackage | src/empy_studio/plugin_installer.py:72-116 | unpacking succeeds exactly for safe names under the allowed top levels and leaves the members at their canonical paths, later ones over earlier ones |
| PluginPackage.ExtractionRoundTrip | src/empy_studio/plugin_installer.py:72-116 | unpacking a built package gives back manifest, payload and signature byte for byte, and nothing else but the records |
| PluginPackage.AcceptedIsSound | src/empy_studio/plugin_package.py:136-173 | whatever inspection accepts unpacks to a manifest and a payload, which is what the health check looks for |
| PackageRules.WhatPackagesAreAccepted | src/empy_studio/plugin_package.py:70-181 | a package is accepted exactly when every member stays below the root, manifest, records and any signature decode, the requirement admits the version, the records are true and tell of exactly the payload, and the entrypoint is there; the file names are spelled out |
| PackageRules.EntrypointPath | src/empy_studio/plugin_package.py:158-173 | the entrypoint of a dotted module is in the payload exactly when there is a `.py` file or an `__init__.py` at the path its parts make |
| PackageRules.WhatIsPacked | src/empy_studio/plugin_package.py:210-260 | a built package holds records, any signature, the payload in order and the manifest under these names; each record tells path, digest and size |
| PackageRules.WhatMayBeUnpacked | src/empy_studio/plugin_installer.py:72-116 | a member may be unpacked exactly when it stays below the root and begins with one of four names |
| PackageRules.LastMemberStays | src/empy_studio/plugin_installer.py:72-116 | at every path lies what the last member that goes there holds |
| Paths.PartsBetweenSlashes | src/empy_studio/plugin_package.py:50-55 | the parts of a path lie between its slashes; only empty ones and single dots are dropped |
| ReleaseVersion.FullMatchIsPattern | src/empy_studio/release_version.py:10-21 | the groups found are exactly those the version pattern allows |
| ReleaseVersion.PrintOfParse | src/empy_studio/release_version.py:33-58 | every text that parses yields a constructible version that prints as the stripped text |
| ReleaseVersion.ParseOfPrint | src/empy_studio/release_version.py:148-154 | parsing the print of a constructible version gives it back exactly when no prerelease identifier starts with a digit and goes on with something else |
| ReleaseVersion.TextReadsAsItsParts | src/empy_studio/release_version.py:34-58 | a text put together from major, minor, patch, prerelease and build reads as these, in this order |
| ReleaseVersion.IdentifierText | src/empy_studio/release_version.py:10-20 | what numerals and identifiers are made of |
| ReleaseVersion.VersionLessIsPrecedence | src/empy_studio/release_version.py:156-191 | the comparison is the precedence of section 11 of Semantic Versioning 2.0.0 |
| ReleaseVersion.PrecedenceExamples | src/empy_studio/release_version.py:156-191 | the examples of sections 11.2 and 11.4.4 of Semantic Versioning 2.0.0 |
| Text.NumeralsOrder | src/empy_studio/release_version.py:178-184 | numerals stand for numbers that are ordered by length and, at one length, as texts |
| ReleaseVersion.TailLessIsLower | src/empy_studio/release_version.py:171-191 | the loop over prerelease identifiers decides by the first difference, then by length |
| ReleaseVersion.VersionLessTransitive | src/empy_studio/release_version.py:156-191 | the comparison is transitive |
| ReleaseVersion.VersionTrichotomy | src/empy_studio/release_version.py:156-191 | two constructible versions are incomparable exactly when core and prerelease are equal |
| ReleaseVersion.NotLessTransitive | src/empy_studio/release_version.py:156-191 | not preceding is transitive on constructible versions: a strict weak order |
| ReleaseVersion.LeadingZeroesAreIncomparable | src/empy_studio/release_version.py:79-87 | without the rule against leading zeroes two different prereleases would be incomparable |
| ReleaseVersion.AtMostIsTotalUpToBuild | src/empy_studio/release_version.py:24 | the derived comparison is total exactly up to build metadata |
| ReleaseVersion.PrecedenceShowsInText | src/empy_studio/release_version.py:148-154 | printable versions of different precedence have different texts |
| Changelog.HeadingGroupsIsPattern | src/empy_studio/changelog_validator.py:12-15 | the groups found in a heading are exactly those the heading pattern allows |
| Changelog.ReadHeading | src/empy_studio/changelog_validator.py:185-272 | a heading gives a row exactly when it has a new version and a calendar date that is not in the future; otherwise the first thing wrong with it is reported, as `FaultsOfHeadings`, `FormedHeadings` and `FormlessHeadings` tell |
| Changelog.FaultsOfHeadings | src/empy_studio/changelog_validator.py:185-272 | of a heading with version and date the fault is told by what the texts parse to: no version, one seen before, no calendar date, or a day after today |
| Changelog.FormedHeadings | src/empy_studio/changelog_validator.py:185-210 | a heading of the form has no fault of form, and lacks a date only if it has none |
| Changelog.FormlessHeadings | src/empy_studio/changelog_validator.py:185-200 | a heading without a fault of form has the form |
| Changelog.KindsOfLines | src/empy_studio/changelog_validator.py:111-183 | which lines are release headings, the Unreleased heading, and sections |
| Changelog.HeadingReads | src/empy_studio/changelog_validator.py:12-15 | a heading written for a version and a date reads as these |
| Text.StripTakesBlanks | src/empy_studio/changelog_validator.py:186 | stripping takes the blanks at both ends and nothing else |
| Changelog.ScanHeadings | src/empy_studio/changelog_validator.py:176-272 | no heading issue is reported exactly when every heading can be read and all versions are distinct, and then the rows are exactly the headings |
| Changelog.CheckUnreleased | src/empy_studio/changelog_validator.py:147-174 | a missing or repeated Unreleased heading is reported exactly when there is one |
| Changelog.SectionNames | src/empy_studio/changelog_validator.py:111-124 | the names of the sections between two lines, in order |
| Changelog.BuildReleases | src/empy_studio/changelog_validator.py:274-312 | every row becomes a release with the sections up to the next row, and a release without any is reported |
| Changelog.CheckOrder | src/empy_studio/changelog_validator.py:314-339 | version and date order are reported exactly when two neighbours violate them |
| Changelog.OrderedThroughout | src/empy_studio/changelog_validator.py:314-339 | neighbours in order are all in order |
| Changelog.OrderMeans | src/empy_studio/changelog_validator.py:314-339 | the check on neighbours holds exactly when no later release exceeds any earlier one in precedence or, by the calendar, in date |
| Calendar.DatesAreOrderedByDay | src/empy_studio/changelog_validator.py:328-339 | dates are compared as the days they are, counted by the rule of the Gregorian calendar |
| Calendar.EveryDayHasItsDate | src/empy_studio/changelog_validator.py:75-95 | every day from 1 January of year 1 to 31 December 9999 has a calendar date |
| Calendar.DatesAreDays | src/empy_studio/changelog_validator.py:75-95 | and every calendar date is one of these days |
| Calendar.YearEnds | src/empy_studio/changelog_validator.py:75-95 | a year has 366 days if it is a leap year and 365 otherwise |
| Calendar.DatesAreOrderedAsText | src/empy_studio/changelog_validator.py:328-339 | the texts of two dates are ordered as the dates are, and equal texts only are equal dates |
| Calendar.DateReads | src/empy_studio/changelog_validator.py:75-95 | the text of a date reads digit by digit as year, month and day, if there is such a day |
| Changelog.CheckExpected | src/empy_studio/changelog_validator.py:341-364 | an expected version is missed exactly when it is not the first release |
| Changelog.ValidateChangelog | src/empy_studio/changelog_validator.py:127-371 | no issue is reported exactly when the changelog is well formed: one Unreleased heading as required, readable headings, distinct versions, a section for each, newest first over all pairs, the expected version first; then the releases are the headings |
| Changelog.ExpectedIsNewest | src/empy_studio/changelog_validator.py:341-364 | in a well formed changelog no release exceeds the expected version in precedence |
| Changelog.SectionsBetweenReleases | src/empy_studio/changelog_validator.py:274-312 | between two releases of a well formed changelog there is a section |
| Changelog.UnreleasedLendsItsSections | src/empy_studio/changelog_validator.py:276-286 | below an Unreleased heading any dated release passes the validator with the section of Unreleased and none of its own |
| Changelog.ReleaseWithoutSection | src/empy_studio/changelog_validator.py:276-286 | a changelog of three lines that does |
| Changelog.OwnSectionsExactly | src/empy_studio/changelog_validator.py:111-124 | in a well formed changelog every release has a section before the next heading of either kind if and only if the last release above Unreleased, of which there is at most one, has; in particular when Unreleased comes first |
| ProjectDelivery.DeliverableNames | src/empy_studio/project_delivery.py:182-208 | a name is safe and canonical exactly when its parts are proper, none is a parent reference, it has no backslash, NUL or drive letter, and it is not excluded |
| DeliveryRules.WhatIsDelivered | src/empy_studio/project_delivery.py:26-77 | a name is deliverable exactly when its parts are proper, the policy does not call it sensitive, and no part is one of the excluded names, begins with `.env.` or ends, in either case, in one of the excluded suffixes, all spelled out |
| ProjectDelivery.ValidateManifest | src/empy_studio/project_delivery.py:742-858 | a manifest is accepted exactly when header, entries, changed list, deletions and trailer are in order |
| ProjectDelivery.VerifyArchive | src/empy_studio/project_delivery.py:1069-1133 | an archive is accepted exactly when the manifest is valid, every member is safe, canonical, distinct, within the limits and of the stated size, and the digests by name are those of the manifest |
| DeliveryRules.WhatManifestsAreAccepted | src/empy_studio/project_delivery.py:742-858 | what validation accepts, field by field, with its numbers and texts spelled out; among the deleted names it lets the project root through |
| DeliveryRules.WhatArchivesAreAccepted | src/empy_studio/project_delivery.py:1069-1133 | what verification accepts, member by member: safe canonical names, none twice, files that are no symbolic links and are listed with their size and digest, every listed file there, 64 MiB a file and 512 MiB in all |
| ProjectDelivery.CheckMembers | src/empy_studio/project_delivery.py:1101-1124 | the loop over the members accepts exactly those that fit, with distinct names and total size within the limit |
| ProjectDelivery.BaselineHashes | src/empy_studio/project_delivery.py:617-652 | a snapshot is read exactly when its files are safe, within the limits and not repeated, and gives the digests of its deliverable files |
| DeliveryRules.WhatIsInTheBaseline | src/empy_studio/project_delivery.py:617-652 | a member with a canonical name is in the baseline exactly if it is deliverable, and readable exactly if it is safe, may be imported, is no symbolic link and not too large |
| DeliveryRules.BaselineHolds | src/empy_studio/project_delivery.py:617-652 | a readable baseline holds the bytes of each of its deliverable files |
| ProjectDelivery.InspectDelta | src/empy_studio/project_delivery.py:655-677 | the delta lists the current files that are new or differ, in order, and the deliverable baseline files that are gone, sorted |
| ProjectDelivery.DeltaIsWhatChanged | src/empy_studio/project_delivery.py:667-671 | a current file is in the delta exactly if the baseline has none of its name or one of another digest |
| ProjectDelivery.DeltaKeepsOrder | src/empy_studio/project_delivery.py:667-671 | the delta keeps the order of the listing |
| ProjectDelivery.BuiltArchiveVerifies | src/empy_studio/project_delivery.py:571-614 | the archive built from a delta passes verification against its manifest exactly when there is a file, all names are deliverable, sizes are within the limits and the header texts are in order |
| ProjectDelivery.AcceptedArchiveIsTheDelta | src/empy_studio/project_delivery.py:1085-1133 | any archive accepted against that manifest holds exactly those bytes, unless SHA-256 collides on them |
| ProjectDelivery.OverlayIsCurrent | src/empy_studio/project_delivery.py:655-677 | with nothing deleted, the changed files over the deliverable baseline files give the current ones |
| ProjectDelivery.ExportProject | src/empy_studio/project_delivery.py:1136-1249 | an export succeeds exactly when the baseline reads, nothing is deleted and the delta can be shipped; archive and manifest then list the delta file by file under the given heading, the archive verifies, and extracting it over the baseline gives the current files; otherwise the error says which of these failed |
| TokenUsage.RecordsAreApart | src/empy_studio/token_usage.py:248-273 | on any JSON tree the records counted are genuine readings at pairwise non-nested positions |
| TokenUsage.EveryRecordIsCovered | src/empy_studio/token_usage.py:248-273 | every mapping that reads as a record is counted, lies inside a counted one, or beside a counted snapshot |
| UsageTotals.NothingBesideSnapshots | src/empy_studio/token_usage.py:254-266 | below a mapping with a readable cumulative snapshot, wherever it lies, nothing but that snapshot is counted |
| UsageTotals.FirstCarriedIsFound | src/empy_studio/token_usage.py:276-303 | the snapshot of an event is the first in reading order that any mapping in it carries |
| TokenUsage.Read | src/empy_studio/token_usage.py:330-384 | a record read from a mapping is non-negative with a total at least each component; under which names it is read is stated by `RecordsReadAsTheyAreNamed` |
| TokenUsage.FirstIntIsFirst | src/empy_studio/token_usage.py:401-408 | a number is read from the first of the accepted keys whose value parses |
| TokenUsage.PlainRecordReads | src/empy_studio/token_usage.py:330-384 | a record in its plain form reads as its own numbers with the total raised to the greatest component; it is nothing when all are zero and rejected when one is negative |
| UsageReading.RecordsReadAsTheyAreNamed | src/empy_studio/token_usage.py:330-384 | every record reads as the numbers it gives under whichever of the names, all spelled out, it gives them, cached ones perhaps in its details: a missing number is zero, a missing total the sum, the total is raised to the greatest number; nothing when all are zero, rejected when one is negative or the provider is blank |
| UsageReading.SourcesRead | src/empy_studio/token_usage.py:364-372 | the source is the text under the first of two names that is not blank, each of the four texts giving its own, and otherwise a record that names an estimate is an estimate |
| UsageReading.ProvidersRead | src/empy_studio/token_usage.py:373-378 | the provider is the first of three names that is given and not blank, whatever its value, or else the default |
| UsageReading.NumbersInText | src/empy_studio/token_usage.py:411-420 | texts of digits with single underscores, a sign and blanks around read as their numbers |
| UsageReading.OnlyNumbersInText | src/empy_studio/token_usage.py:411-420 | no other text does |
| UsageReading.DigitsRead | src/empy_studio/token_usage.py:411-420 | a text of digits reads as its number, and with a minus as its negative |
| UsageReading.WhatNumbersAre | src/empy_studio/token_usage.py:411-427 | which JSON values are numbers, and the four names under which an object holds one |
| TokenUsage.AggregateIsValid | src/empy_studio/token_usage.py:169-199 | the sum of valid records is a valid record |
| UsageTotals.RecordsAddUp | src/empy_studio/token_usage.py:176-183 | one more record adds each of its numbers to that number of the sum |
| UsageTotals.OneRecordIsItself | src/empy_studio/token_usage.py:169-199 | one record adds up to itself |
| UsageTotals.SourceOfAll | src/empy_studio/token_usage.py:184-190 | records of one source, but for unknown ones, have it in common |
| UsageTotals.SourcesMix | src/empy_studio/token_usage.py:184-190 | records of different known sources are mixed |
| UsageTotals.ProviderOfAll | src/empy_studio/token_usage.py:191-192 | records that name one provider, or none, have it in common |
| UsageTotals.ProvidersClash | src/empy_studio/token_usage.py:191-192 | records that name different providers have none in common |
| TokenUsage.FoldMaxIsMax | src/empy_studio/token_usage.py:306-327 | folding snapshots gives their greatest input, output, cached and total numbers |
| TokenUsage.ExtractFromEvent | src/empy_studio/token_usage.py:148-158 | the records of one event are aggregated, unless one is rejected |
| TokenUsage.AggregateEvents | src/empy_studio/token_usage.py:201-245 | the fold of the cumulative snapshots, the greatest number by number, when there is any, else the aggregate of what the events add up to, whose numbers are the sum of all records; the result is valid, and the call fails exactly when a record is rejected |
| UsageTotals.SourceIsThatOfAllRecords | src/empy_studio/token_usage.py:169-245 | adding up event by event keeps the source that all records have together |
| UsageTotals.ProviderIsThatOfAllRecords | src/empy_studio/token_usage.py:169-245 | it keeps the provider that all records have together if and only if no event names two, or none comes out |
| UsageTotals.ForgottenClash | src/empy_studio/token_usage.py:191-245 | an event that names two providers and one that names a single one: the second name is taken for both |
| TokenUsage.SnapshotsIgnoreOrder | src/empy_studio/token_usage.py:201-245 | reordering or repeating events changes neither the numbers nor the source taken from snapshots |
| TokenUsage.SumIgnoresOrder | src/empy_studio/token_usage.py:229-245 | reordering events does not change the sum of their records |
| TokenUsage.ProviderDependsOnOrder | src/empy_studio/token_usage.py:309-314 | after any snapshots, two more that name different providers leave one provider, and adding the first of them again leaves another |
| TokenUsage.OrderMattersOnlyForNames | src/empy_studio/token_usage.py:306-327 | folded snapshots give the same record for every order and repetition if and only if all that name a provider name the same one |
| TokenUsage.EventOrderMattersOnlyForNames | src/empy_studio/token_usage.py:201-245 | the same of the events the snapshots come from |
| TokenUsage.FoldMaxSource | src/empy_studio/token_usage.py:315-319 | the source is the common one, and mixed if there is none |
| ReviewWorkspace.ParseStatus | src/empy_studio/review_workspace.py:266-289 | the index loop reads the fields between NULs into entries sorted by path, or reports the first malformed one |
| ReviewWorkspace.StatusRoundTrip | src/empy_studio/review_workspace.py:266-289 | parsing the NUL-separated print of any list of entries gives that list sorted by path, the entries of one path in their order |
| ReviewWorkspace.OneChangeReads | src/empy_studio/review_workspace.py:266-289 | a rename or copy, as git prints it, reads with the path it came from, and any other change without |
| Sorting.StableSortIsStable | src/empy_studio/review_workspace.py:288 | sorting keeps the order of ties |
| Ordering.LessIsLexicographic | src/empy_studio/execution_graph.py:40-42 | strings are ordered by their first difference, and without one by length |
| ReviewWorkspace.CaptureIsPending | src/empy_studio/review_workspace.py:190-217 | a report captures exactly the reviewable entries, each with its path, code, source, digest and diff, has nothing decided, and is complete exactly when it lists no file |
| ReviewWorkspace.DecidesOne | src/empy_studio/review_workspace.py:329-368 | a decision settles one pending file and touches nothing else |
| ReviewWorkspace.CountsAddUp | src/empy_studio/review_workspace.py:160-170 | the three counts add up to the number of files |
| ReviewWorkspace.DecisionsAreFinal | src/empy_studio/review_workspace.py:219-257 | over any run of decisions on distinct paths no file is decided twice, every decision stands, nothing else captured changes, and the report is complete exactly when none is pending |
| ReviewWorkspace.DuplicatePathsLoseData | src/empy_studio/review_workspace.py:362-366 | git lists a file twice that was removed from the index only; parsed and captured, the first decision on it overwrites what was captured of the second entry |
| ReviewWorkspace.DecidingKeepsCaptures | src/empy_studio/review_workspace.py:362-368 | deciding a path keeps all that was captured if and only if every entry of the path captures the same as the first one |
| ReviewWorkspace.RevertTouchesItsPathsOnly | src/empy_studio/review_workspace.py:227-257 | reverting removes an untracked file, makes a changed file and the source of a rename as in HEAD, and leaves all other paths untouched |
| ReviewWorkspace.RevertingAllGivesHead | src/empy_studio/review_workspace.py:227-257 | reverting changes one after the other gives HEAD back if and only if each path no change touches is as in HEAD and each that an untracked file was last on is not in HEAD |
| ReviewWorkspace.Workspace.Accept | src/empy_studio/review_workspace.py:444-447 | a file is accepted and the report saved exactly when it is pending, HEAD and the file are as captured and the source of a rename is gone; otherwise the error names the first of these that fails and nothing changes |
| ReviewWorkspace.Workspace.Revert | src/empy_studio/review_workspace.py:449-452 | a file that may be decided is undone in the working tree and marked reverted unless git fails; otherwise the error names what failed and nothing changes |

## Left out

- Saving and loading state files, timestamps, elapsed times and generated ids; two states are equal when they agree on everything else.
- Summaries derived from a finished run (`schedule_summary`, `summary`, `memory_revision`, recorded scheduling decisions).
- Threads themselves: worker attempts interleave as atomic steps.
- An adapter whose answers depend on anything but its payload and the attempt number.
- Settings the constructors reject or clamp: `max_workers` and `max_attempts` below one.
- Floating point: scores are reals, rounded half to even at four digits.
- Text outside ASCII; case folding, digits and spaces are those of ASCII.
- `orchestrator.build_tasks`, `validate_ownership` and the planner, dispatcher and budget code, which would add only easy members.
- Store layout on disk: a package path is the pair of plugin id and version; pointer files are read as JSON objects or not at all; an inventory file that is no JSON object is not modelled.
- Recovery writes that fail in turn, and left-over trash or staging directories that cannot be deleted.
- Faults and removals among the interleaved processes of `InstallRaces`, except for one failing pointer write and its recovery; two processes initializing one store at once.
- `PluginStore.PluginStore.InstallPlugin`: resolving a source (files, network, size limits) is left to the parameter that holds the inspected package.
- Manifest validation inside `PluginPackage`: `from_dict`, `validate` and `is_compatible` are part of the codec that is a parameter; file and directory clashes while unpacking are not modelled.
- Messages and field values of changelog issues other than code and line; reading and splitting the file.
- Walking the project tree in delivery: the listing of deliverable files, its order and symbolic links are inputs; corrupt ZIP data, the legacy manifest, link validation, review drift, checksum and sidecar files are not modelled. A duplicate JSON field cannot occur in the manifest record.
- The explicit `provider` argument of token aggregation.
- The diff texts, change kinds and excluded names of a captured review, which are parameters; persistence of reports as JSON; paths that escape the project root.
- All subprocess, git, pip and HTTP calls, command lines, installers, desktop and web shells, and release evidence.
