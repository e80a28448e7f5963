# Verified models of the swarm coordination core

A swarm of hosts shares work through pipelines of stages, a board of task files, GPUs, leases, caches and checkpoints.
This project models the parts of that system which keep state and whose correctness depends on order, interleaving or
arithmetic, and proves what they promise. Each file models one component:

- `StageGraph.dfy`, `Pipeline.dfy`: the dependency graph of a pipeline, the depth-first cycle check, validation, and the
  layered execution order. The two algorithms are related to each other through paths in the graph.
- `Executor.dfy`: a pipeline run as a trace of starts and finishes, with the generator-verifier loop. The outcome of a
  dispatched stage and the interleaving inside a batch are arbitrary.
- `ClaimProtocol.dfy`: any number of processes claiming or decomposing one pending task, one file operation at a time,
  with lock inodes, failing operations, a share that is down and processes that die.
- `RequeueProtocol.dfy`: a requeue racing these claims and decompositions, one file operation at a time.
- `ParentCompletion.dfy`: the subtasks of a decomposed task completed by any number of processes at once, also locally
  while the share is down.
- `TaskBoard.dfy`: the operations on the board one after the other, each of which may fail or die between any two file
  operations.
- `TaskIndex.dfy`: the listing cache validated by directory modification time, against directories that change while
  lookups are under way.
- `GpuAllocator.dfy`: the inventory and allocation tables and the scheduler on top of them.
- `CircuitBreaker.dfy`: the breaker as lock sections in any interleaving, and its behaviour through an outage.
- `BreakerThreads.dfy`: calls of any number of threads through the breaker, and how many probes a half-open period has.
- `TtlCache.dfy`: the time-bounded, least-recently-used cache as lock sections in any interleaving, and the decorated
  function called by any number of threads.
- `TaskQueue.dfy`: the local SQLite task table, one transaction per operation.
- `StateStore.dfy`: the local store of slot leases and of task records with their index by state, with the select and the
  write of each call as separate steps.
- `RedisQueue.dfy`: the server-side task queue with its ageing score.
- `DrainRestore.dfy` (with `Ordering.dfy`): checkpoint, paginated stream read, restore and checksum of a keyspace.
- `SlotRecord.dfy`: the record in a GPU slot's lock file, its parser, and the operations on the file.

Objects that the program updates in place are classes whose methods are proved against functions on values (`Step`,
`Apply`, `Get`, `Put`, ...); the theorems about whole runs are lemmas about these functions. Clocks, random choices,
outcomes of foreign calls and answers of servers are parameters or arbitrary values.

`Wrappers.dfy` holds the shared option type.

Where the code does less than its documentation says, the model follows the code, and says exactly when it holds:

- Half-open is documented as a single probe (`src/prom_circuit_breaker.py:11-13`, `:43`). Among all runs with at most
  k calls under way at once, every half-open period has a single probe exactly when k is at most one
  (`BreakerThreads.SingleProbeIffCallsDoNotOverlap`); a run with overlapping calls may still have one. The state is
  read without the lock, so within one period what counts is whether another call reads it between the probe's gate
  and its report, not whether another call's gate falls there; the two agree when gate and read are one step
  (`BreakerThreads.OneProbeIffNobodyElseEnters`).
- A pipeline counts as completed although the last execution of a generator failed. This cannot happen exactly when no
  stage alone in its batch can loop back to an earlier batch (`Executor.CompletedEndsWellIffNoLoopBack`).
- A claim that comes between the two file operations of a requeue can lose the task, and does exactly when it wins and
  wrote its record before the remove (`RequeueProtocol.LostIffClaimWrittenBeforeRemove`).
- Completing all subtasks leaves the parent decomposed exactly when some move deserts it and nobody comes to look
  after that (`ParentCompletion.ParentFollowsSubtasksIff`). A move deserts it in one of these ways: the call of the
  last process that was going to look fails or dies, or loses its claimed file to a requeue; or the last subtask gets
  into completed/ while nobody is going to look, brought back from a local directory after the share was down,
  completed automatically as a parent itself, or written by a call whose claimed file is gone.
- The local store selects outside of its transactions. Leases stand exactly when no write comes after a grant that its
  select has not seen (`StateStore.AllStandIffNoneClobbered`, `StateStore.ClobbersIffGrantedMeanwhile`), and the index
  agrees with the tasks exactly when every write commits over a state that it saw or does not have to remove
  (`StateStore.IndexAgreesIffSettled`).
- The listing index is right exactly when a modification time that comes back means that nothing but the present
  content was there since (`TaskIndex.LookupsAreRealIffTimesTell`); two changes within one tick break that.
- The stale requeue updates rows by id only; split into its statements it keeps completed tasks exactly when none of
  the selected ones is completed in between (`TaskQueue.SplitRequeueKeepsCompletedIff`).
- Sorted sets and hashes of the server agree exactly when no pending task is completed and no claimed or completed
  task is created again (`RedisQueue.AlwaysAgreesIffExpected`).
- The paginated read fails exactly when a full page ends on the largest sequence number (`DrainRestore.ReadStream`),
  and restore gives the keyspace back exactly when what happened can be undone (`DrainRestore.RestoreGivesBackIff`).
- A new task id is one that exists already exactly when a directory that is not scanned holds it
  (`TaskBoard.NewIdTakenIffUnscanned`).
- While the share is down a failed remove of the pending file is ignored; the number of claims that succeed is then
  one more for each (`ClaimProtocol.SuccessesCounted`), and two can (`ClaimProtocol.DoubleClaimWhenDown`).
- The content check of a slot claim means to reclaim slots of dead processes. It can do so for the legacy format
  (`SlotRecord.LegacyIsTaken`), but no record in the current format lets it read the process id
  (`SlotRecord.RecordIsTaken`).

## Model

| member | source | states |
|---|---|---|
| StageGraph.LayerIffChainsBounded | src/pipeline.py:135-147 | a name is placed within k rounds exactly when every dependency chain below it is declared and has at most k names |
| StageGraph.LayeredIffGrounded | src/pipeline.py:135-149 | a name is ever placed exactly when everything below it is declared and acyclic, and then within as many rounds as there are names |
| StageGraph.AllLayeredIffSound | src/pipeline.py:124-149 | all names are placed exactly when no dependency is undeclared and there is no cycle |
| Pipeline.CycleSearch.constructor | src/pipeline.py:106-107 | both shared sets start empty |
| Pipeline.CycleSearch.HasCycle | src/pipeline.py:91-104 | true exactly when a cycle is at or below the name; terminates; on a negative answer restores the visiting set and leaves a closed, acyclic visited set |
| Pipeline.UnknownDependencyErrors | src/pipeline.py:82-89 | one error per dangling reference, in list order |
| Pipeline.AllUnknownDepsEmpty | src/pipeline.py:82-89 | no such error exactly when every dependency is declared |
| Pipeline.CycleErrors | src/pipeline.py:106-111 | an error exactly when the graph has a cycle, naming the first stage of the list that reaches one |
| Pipeline.ModelErrors | src/pipeline.py:113-120 | one error per invalid model name, in list order |
| Pipeline.InvalidModelsEmpty | src/pipeline.py:113-120 | none exactly when every model is opus, sonnet or haiku |
| Pipeline.LastStageCounts | src/pipeline.py:130-131 | of several stages with one name the dictionaries hold the last |
| Pipeline.KeysAppearInOrder | src/pipeline.py:137-141 | the dictionary order is the order in which names first appear in the list |
| Pipeline.Validate | src/pipeline.py:77-122 | the three reports one after the other |
| Pipeline.TopologicalOrder | src/pipeline.py:124-149 | the batches are the successive layers of the graph, non-empty, in dictionary order, until another round would add nothing |
| Pipeline.PlacedOnce | src/pipeline.py:135-147 | no stage is placed twice, in one batch or in two |
| Pipeline.PlacedIffGrounded | src/pipeline.py:142-149 | with or without validation, placed are exactly the stages with nothing undeclared and no cycle below them |
| Pipeline.BatchNumberIsLongestChain | src/pipeline.py:135-147 | the batch number is the length of the longest dependency chain from the stage |
| Pipeline.DependenciesPlacedEarlier | src/pipeline.py:137-141 | every dependency sits in a strictly earlier batch |
| Pipeline.ValidationMeetsOrdering | src/pipeline.py:77-149 | a clean depth-first validation means a complete layering; with distinct names also the converse |
| Executor.RunSingle | src/pipeline.py:399-451 | one execution, followed by the loop only if it failed and the loop target exists |
| Executor.RunRetries | src/pipeline.py:411-444 | generator and verifier re-runs until the verifier completes or the iterations are used up |
| Executor.RunParallel | src/pipeline.py:452-479 | every stage of the batch starts once and finishes once, in any interleaving; failed if any failed |
| Executor.RunBatches | src/pipeline.py:397-483 | the batches in order, up to the first that fails |
| Executor.Execute | src/pipeline.py:358-483 | nothing runs if validation reports an error; else a run over the layered order |
| Executor.RetriesOutcome | src/pipeline.py:411-444 | the result of the loop is that of the last verifier run; four events per further iteration at most |
| Executor.SingleRunOutcome | src/pipeline.py:399-451 | the stage's own last run decides, within the stage's budget |
| Executor.RetriesRounds | src/pipeline.py:411-444 | the rounds of the loop are the target as generator and then the stage as verifier; a verifier that completes is the last, and without one the rounds are as many as the iterations left |
| Executor.FailsAfterAllIterations | src/pipeline.py:407-444 | a stage whose loop target is declared and not the empty name fails only after all its iterations |
| Executor.NoLoopToUndeclared | src/pipeline.py:407-411 | a stage whose loop target is declared nowhere runs exactly once, whatever the outcome |
| Executor.OnlyDeclaredRun | src/pipeline.py:397-483 | whatever a run executes, in a batch or in a loop, is a stage of the list |
| Executor.CompletedIffEveryStageCompleted | src/pipeline.py:397-483 | a run ends as completed exactly when the last own run of every placed stage completed |
| Executor.StartsAfterDependencies | src/pipeline.py:397-483 | a stage starts in its batch only when the last own run of each dependency has completed |
| Executor.ExecutionsBounded | src/pipeline.py:397-483 | at most one execution per stage plus two per further iteration allowed |
| Executor.CompletedEndsWellIffNoLoopBack | src/pipeline.py:399-483 | every completed run leaves every placed stage with its last execution of any kind completed, if and only if no stage alone in its batch can loop back to a stage of an earlier batch |
| Executor.LoopBackCanEndBadly | src/pipeline.py:429-446 | wherever one can, there is a completed run after which the last execution of its target failed |
| Executor.CompletedDespiteFailedGenerator | src/pipeline.py:429-446 | a generator and its verifier are a valid pipeline with such a run |
| ClaimProtocol.SuccessesCounted | src/swarm_lib.py:663-728 | for any interleaving, faults and deaths: successes number one if the pending file is gone, plus one per ignored failed remove |
| ClaimProtocol.AtMostOneSucceeds | src/swarm_lib.py:663-728 | while the share is never down, at most one claim or decomposition succeeds |
| ClaimProtocol.DoubleClaimWhenDown | src/swarm_lib.py:691-704 | with the share down, two claimers can both succeed |
| ClaimProtocol.OnlyClaimsGoLocal | src/swarm_lib.py:691-704 | in every run, the share being down included, only claims go local, and a call that has taken the task has written its record into its new directory or is a claim that has it locally |
| ClaimProtocol.DecomposerHasWritten | src/swarm_lib.py:1109-1163 | a decomposition that has won has written the parent into decomposed/, in every run |
| ClaimProtocol.FailedStep | src/swarm_lib.py:663-728 | an operation that fails changes no file; the call then gives up, unless it is a claim that finds the share down, which goes local, or one that cannot remove the pending file after that, which has succeeded all the same |
| ClaimProtocol.WorkingStep | src/swarm_lib.py:676-727 | what each operation that works does to the files and the locks |
| ClaimProtocol.ErrorIsReported | src/swarm_lib.py:705-706 | in every run a call that met an error before it was decided, while the share was healthy, has failed |
| ClaimProtocol.MutualExclusion | src/swarm_lib.py:676-681 | while the pending file exists, one process at most is between lock and unlock, although winners unlink the lock file |
| ClaimProtocol.RunSafe | src/swarm_lib.py:663-728 | the invariant of all interleavings, with any failures and deaths while the share is not down: positions, locks, records and the winner agree |
| ClaimProtocol.WinnerTakesTask | src/swarm_lib.py:1109-1163 | with any failures and deaths while the share is not down: the pending file is gone exactly when somebody has won, and the winner's complete record is in its directory |
| ClaimProtocol.LosersWriteNothing | src/swarm_lib.py:663-728 | without faults, claim and decomposition never both take effect, and a call that failed has written nothing |
| ClaimProtocol.LoserHasWrittenIff | src/swarm_lib.py:686-706 | while the share is not down, a call that is over and has not won has left a record exactly if it failed or died between its write and its remove |
| ClaimProtocol.SomeoneSucceeds | src/swarm_lib.py:663-728 | when every caller has returned without faults, exactly one has the task |
| ClaimProtocol.SomeoneCanGoOn | src/swarm_lib.py:676-727 | no deadlock: whatever has failed before, as long as some call is not over, some process has a step that brings it further |
| ClaimProtocol.StepGoesOn | src/swarm_lib.py:663-728 | a step that changes anything brings its call further, so no call takes more than thirteen |
| RequeueProtocol.AlwaysInv | src/swarm_lib.py:490-505 | the invariant of a requeue racing any number of claims and decompositions, with any failures and deaths while the share is not down |
| RequeueProtocol.FailedRequeue | src/swarm_lib.py:490-505 | a requeue that meets an error, or finds the claimed file gone, changes no file and gives its lock back |
| RequeueProtocol.WorkingRequeue | src/swarm_lib.py:494-505 | what the operations of a requeue do to the files and the lock |
| RequeueProtocol.WinnerKeepsRecordIff | src/swarm_lib.py:502-504 | the winner of a claim has its record exactly if the requeue did not remove a claimed file after the claim had written it |
| RequeueProtocol.LostIffClaimWrittenBeforeRemove | src/swarm_lib.py:502-504 | at every moment of every interleaving the task is in no directory if and only if a claim has won it that wrote before the remove of the requeue, and no decomposition left a record |
| RequeueProtocol.NotLostIfNoClaimStartsBetween | src/swarm_lib.py:502-504 | the task is never lost if no claim starts between the requeue's write and its remove |
| RequeueProtocol.ClaimInBetweenCanLose | src/swarm_lib.py:502-504 | for every pool with a claim in it, some interleaving without any fault loses the task |
| RequeueProtocol.NeverLostIffNobodyClaims | src/swarm_lib.py:490-505 | no interleaving loses the task if and only if nobody in the pool claims |
| ParentCompletion.AlwaysInv | src/swarm_lib.py:1166-1208 | the invariant of all interleavings, with failing calls, local completions, reconciles and requeues |
| ParentCompletion.StepAttended | src/swarm_lib.py:731-793 | once all subtasks are in completed/ somebody is going to look at an unmoved parent, until a move deserts it; and exactly the listed moves do |
| ParentCompletion.ParentWaitsForSubtasks | src/swarm_lib.py:1181-1193 | the parent is completed only after all its subtasks, is never in neither directory, and at most one call reports having moved it |
| ParentCompletion.CompletesOnlyClaimed | src/swarm_lib.py:741-753 | in every run a call that is past its read has read the claimed file of its subtask while it was there |
| ParentCompletion.GoneEndsCall | src/swarm_lib.py:749-762 | what an operation finds gone ends the call: in an error, or with no, if it is the parent before it is read |
| ParentCompletion.LocalIsNotLost | src/swarm_lib.py:643-650 | in every run a subtask completed locally stays there or is in completed/ on the share |
| ParentCompletion.ParentFollowsSubtasksIff | src/swarm_lib.py:1200-1208 | when all subtasks are in completed/ and all calls are over, the parent is completed and no longer decomposed if and only if no move deserted it with nobody coming to look after that |
| ParentCompletion.ParentFollowsSubtasks | src/swarm_lib.py:1200-1208 | in particular if no move deserts it |
| ParentCompletion.DeathStrandsParent | src/swarm_lib.py:1200-1208 | for every list of subtasks, one process for each and a single death at the wrong moment leave the parent decomposed |
| ParentCompletion.ReconcileStrandsParent | src/swarm_lib.py:643-650 | for every list of subtasks, one process for each and no failing call: a local completion that is brought back later leaves the parent decomposed |
| TaskBoard.Board.NextTaskId | src/swarm_lib.py:521-532 | one more than the highest number in the three scanned directories |
| TaskBoard.Board.Create | src/swarm_lib.py:590-613 | adds one pending task whose id no scanned directory had; if nothing fails it always does |
| TaskBoard.Board.Claim | src/swarm_lib.py:663-728 | no id is lost and no other task touched; after a success the record, with its claimer, is in claimed/ and the pending file gone, or the share was down and the record is local; a pending task is claimed whenever nothing fails, and also with the share down whenever the local directory works |
| TaskBoard.Board.WriteThenRemove | src/swarm_lib.py:687-690 | moves a file; at no point of failure is the task in neither directory; without failures the file has moved |
| TaskBoard.Board.Complete | src/swarm_lib.py:731-793 | no id is lost; only this task and its parent are touched; after a success the record, with its completer and result, is in completed/ and the claimed file gone, or the share was down and it is local; if nothing fails every claimed task is completed, and its decomposed parent then is in completed/ as "auto" and no longer in decomposed/ exactly when it has subtasks and this was the last of them |
| TaskBoard.Board.CheckParent | src/swarm_lib.py:1166-1193 | touches anything only if the parent is decomposed and every subtask completed, and then the completed record is there; answers true exactly if the decomposed file is gone; if nothing fails that is exactly when there are subtasks and all are completed |
| TaskBoard.Board.Decompose | src/swarm_lib.py:1109-1163 | no id is lost and only the subtasks' ids are new; a success leaves all subtasks pending and the parent, listing them, in decomposed/; if nothing fails every pending task is decomposed |
| TaskBoard.Board.RequeueOrphans | src/swarm_lib.py:490-505 | only tasks of cleaned hosts with retries left leave claimed/, and each of them is pending again with one retry more and no claimer; if nothing fails all of these do; nothing else changes |
| TaskBoard.Board.ReconcileOne | src/swarm_lib.py:643-657 | a local file goes only when the share has the task; what the share had is kept as it was; if nothing fails the file goes, and the share has what it held unless it had the task before |
| TaskBoard.Board.Reconcile | src/swarm_lib.py:623-660 | the same for a whole local directory |
| TaskBoard.Board.Operate | src/swarm_lib.py:490-793 | over any sequence of operations that may fail or die half way, every id ever created, those of subtasks included, stays on the board, and no others are there |
| TaskBoard.MoveKeepsIds | src/swarm_lib.py:687-690 | a file removed after another of the same task was written loses no id |
| TaskBoard.NewIdTakenIffUnscanned | src/swarm_lib.py:521-532 | a new id is taken already exactly when a directory that is not scanned holds it |
| TaskBoard.NewIdCanBeTaken | src/swarm_lib.py:521-532 | and such a board exists |
| TaskBoard.NewIdHasNoScannedParts | src/swarm_lib.py:521-532 | no scanned directory holds a subtask, at any depth, of a new id either |
| TaskIndex.TaskIndex.ListTasks | src/swarm_lib.py:543-565 | the locked section: the cached list on an equal time, else the scan, filed under the time read before |
| TaskIndex.TaskIndex.InvalidateStage | src/swarm_lib.py:567-572 | forgets one directory and no other |
| TaskIndex.TaskIndex.InvalidateAll | src/swarm_lib.py:573-575 | forgets all |
| TaskIndex.ForgottenIsScanned | src/swarm_lib.py:553-575 | whatever the times tell, the first lookup to finish after an invalidation returns what the directory holds at that moment |
| TaskIndex.HitIsRecent | src/swarm_lib.py:548-551 | if times tell, a hit on the time of a version returns what some version no older than it held |
| TaskIndex.LookupsAreReal | src/swarm_lib.py:543-575 | if times tell, in any interleaving each lookup returns the content at some moment between its stat and its return |
| TaskIndex.LookupsAreRealIffTimesTell | src/swarm_lib.py:543-575 | for every history of a directory: all lookups are real in all interleavings if and only if, whenever a time comes back, everything since it was first there was what is there now |
| TaskIndex.SameTickServesStale | src/swarm_lib.py:548-564 | two changes within one tick are a history in which a lookup returns what was gone before it started |
| GpuAllocator.Store.SaveInventory | src/gpu_discovery.py:220-248 | replaces the GPUs of usable answers and never drops one |
| GpuAllocator.Store.GetAvailable | src/gpu_discovery.py:251-293 | exactly the unallocated, non-excluded GPUs with enough free memory, each once, most free first |
| GpuAllocator.Store.Allocate | src/gpu_discovery.py:296-329 | succeeds exactly if the GPU has no active allocation, and appends one |
| GpuAllocator.Store.Release | src/gpu_discovery.py:332-345 | frees that GPU and changes no other |
| GpuAllocator.ReleasedFrees | src/gpu_discovery.py:336-342 | the same for the table, which stays valid |
| GpuAllocator.SaveProbesKeeps | src/gpu_discovery.py:224-245 | allocations keep pointing into the inventory through every refresh |
| GpuAllocator.SavedIsLastReported | src/gpu_discovery.py:224-245 | after a refresh the inventory has of every reported GPU what the last usable answer said at last |
| GpuAllocator.UnreportedIsKept | src/gpu_discovery.py:224-245 | and of a GPU that no usable answer reports what it had |
| GpuAllocator.Store.Status | src/gpu_scheduler_v2.py:219-234 | reported available is never negative and equals the number a query without limits lists |
| GpuAllocator.StatusCounts | src/gpu_scheduler_v2.py:219-234 | the same, for any valid tables |
| GpuAllocator.Scheduler.RefreshInventory | src/gpu_scheduler_v2.py:69-80 | probes are saved exactly when forced or due |
| GpuAllocator.Need | src/gpu_scheduler_v2.py:105-110 | the given request if positive, else the model's entry in the table, else 8000; always positive |
| GpuAllocator.Scheduler.Schedule | src/gpu_scheduler_v2.py:82-160 | succeeds exactly if one GPU on offer fits, or the need is above 16000 and GPUs of one host suffice together; the choice is the tightest fit, or the roomiest on the preferred host, or all that the first large enough host has on offer; failure leaves the table unchanged; the inventory is refreshed before exactly when that is due |
| GpuAllocator.Scheduler.TryMultiGpu | src/gpu_scheduler_v2.py:162-211 | succeeds exactly if some host has two or more GPUs on offer that suffice together, and then takes all that the first such host has on offer |
| GpuAllocator.Scheduler.FindHost | src/gpu_scheduler_v2.py:170-178 | the first host in order of appearance whose whole offer suffices |
| GpuAllocator.HostsAppearInOrder | src/gpu_scheduler_v2.py:170-174 | hosts are listed once, in the order in which they first appear among the rows |
| GpuAllocator.UpperIff | src/gpu_discovery.py:258-277 | names count as the same exactly when they differ in the case of ASCII letters at most |
| GpuAllocator.Scheduler.GrantAll | src/gpu_scheduler_v2.py:179-201 | every GPU of the group gets an equal share of the need |
| GpuAllocator.GrantRecordsNeed | src/gpu_scheduler_v2.py:181-191 | the recorded memory sums to at most the need, and misses it by less than one unit per GPU; older allocations are unchanged |
| GpuAllocator.NoHostIsLargeEnough | src/gpu_scheduler_v2.py:176-178 | if no host's whole offer suffices, no selection on one host does |
| GpuAllocator.TwoCanShare | src/gpu_scheduler_v2.py:176-178 | two GPUs on offer on one host that suffice together can share |
| GpuAllocator.FreeSumOfSome | src/gpu_scheduler_v2.py:177 | distinct GPUs from a list have no more memory together than the list |
| GpuAllocator.Scheduler.Release | src/gpu_scheduler_v2.py:213-217 | frees exactly the listed GPUs of the host |
| GpuAllocator.Scheduler.Serve | src/gpu_scheduler_v2.py:55-217 | over any serial run no GPU has two active allocations and every allocation points into the inventory |
| CircuitBreaker.CircuitBreaker.constructor | src/prom_circuit_breaker.py:47-66 | closed, empty window, initial cooldown |
| CircuitBreaker.CircuitBreaker.MaybeTransitionToHalfOpen | src/prom_circuit_breaker.py:93-100 | one locked section |
| CircuitBreaker.CircuitBreaker.RecordSuccess | src/prom_circuit_breaker.py:102-110 | one locked section |
| CircuitBreaker.CircuitBreaker.CountFailures | src/prom_circuit_breaker.py:129 | the number of failures in the window |
| CircuitBreaker.CircuitBreaker.RecordFailure | src/prom_circuit_breaker.py:112-139 | one locked section |
| CircuitBreaker.CircuitBreaker.Reset | src/prom_circuit_breaker.py:146-152 | back to the fresh breaker |
| CircuitBreaker.CircuitBreaker.Invoke | src/prom_circuit_breaker.py:73-91 | a whole call with nothing interleaved |
| CircuitBreaker.AlwaysConsistent | src/prom_circuit_breaker.py:93-152 | in every interleaving: the window fits; closed means failures below the threshold and the initial cooldown; the cooldown is min(initial * 2^k, max) after k reopenings |
| CircuitBreaker.BackoffClosedForm | src/prom_circuit_breaker.py:117 | capping in every round is capping once |
| CircuitBreaker.WindowHoldsLatest | src/prom_circuit_breaker.py:62 | in every interleaving the window holds the latest outcomes since it was last cleared, in order, as many as fit |
| CircuitBreaker.FailureOpensIff | src/prom_circuit_breaker.py:128-139 | in every interleaving, a failure that is no probe's opens the breaker exactly when the latest outcomes, it included, hold at least as many failures as the threshold; otherwise it stays as it is |
| CircuitBreaker.ProbeDecides | src/prom_circuit_breaker.py:102-126 | a probe's success closes the breaker and forgets the past; its failure opens it again with twice the cooldown, up to the maximum |
| CircuitBreaker.FailingRowOpens | src/prom_circuit_breaker.py:128-132 | from any reachable closed breaker, at most `failure_threshold` failing calls in a row leave it open, if the threshold fits into the window |
| CircuitBreaker.SuccessAfterCooldownCloses | src/prom_circuit_breaker.py:93-110 | once the cooldown has passed, a call that succeeds closes it |
| CircuitBreaker.NeverLeftHalfOpen | src/prom_circuit_breaker.py:73-126 | whole calls one after the other never leave the breaker half-open: each probe decides before the next call |
| BreakerThreads.StaysHalfOpen | src/prom_circuit_breaker.py:93-139 | with any number of threads, only a report or a reset ends a half-open period |
| BreakerThreads.OpenTurnsAway | src/prom_circuit_breaker.py:75-79 | a call that reads open never invokes the function; any other does |
| BreakerThreads.BreakerIsOfSections | src/prom_circuit_breaker.py:73-152 | the breaker of any number of threads is that of its locked sections one after the other, so whatever holds of every sequence of sections holds with threads |
| BreakerThreads.OneProbeIffNobodyElseLooks | src/prom_circuit_breaker.py:73-91 | from the probe's gate to its report the probe is the only invocation if and only if no other call reads the state in between |
| BreakerThreads.OneProbeIffNobodyElseEnters | src/prom_circuit_breaker.py:73-91 | if nothing comes between gate and read: if and only if no other call's gate falls in between |
| BreakerThreads.ProbesBoundedByCalls | src/prom_circuit_breaker.py:73-139 | a half-open period has no more invocations than calls are under way at once |
| BreakerThreads.ManyProbesAtOnce | src/prom_circuit_breaker.py:73-139 | and for every k, some run with at most k calls at once has a half-open period with k invocations |
| BreakerThreads.SingleProbeIffCallsDoNotOverlap | src/prom_circuit_breaker.py:43-44 | every half-open period has at most one invocation if and only if no two calls are ever under way at once |
| CircuitBreaker.OpenedByLastInvocation | src/prom_circuit_breaker.py:112-139 | an open breaker was opened by the last invocation, which failed, at its end |
| CircuitBreaker.InvokedIffCooledDown | src/prom_circuit_breaker.py:73-100 | in every serial history a call to an open breaker reaches the function exactly when the cooldown has passed since the last invocation ended |
| CircuitBreaker.OpensAtThreshold | src/prom_circuit_breaker.py:128-132 | in an outage all calls below the threshold get through, and the one at the threshold opens the breaker |
| CircuitBreaker.ProbesTakeTime | src/prom_circuit_breaker.py:93-126 | from then on every probe pushes the opening time beyond the sum of the cooldowns so far |
| CircuitBreaker.OutageLoadBounded | src/prom_circuit_breaker.py:73-139 | an outage costs `failure_threshold` invocations, and k more only over at least the first k cooldowns |
| CircuitBreaker.BackoffSumGrows | src/prom_circuit_breaker.py:117 | and k cooldowns are at least k times the initial one, if that is within the maximum |
| CircuitBreaker.NeverOpensWhenWindowTooSmall | src/prom_circuit_breaker.py:128-132 | with a threshold above the window size every call of an outage gets through |
| TtlCache.CacheStore.GetEntry | src/ttl_cache.py:49-64 | the locked section of a get: miss, lazy expiry, or hit moved to the end |
| TtlCache.CacheStore.PutEntry | src/ttl_cache.py:66-72 | the locked section of a put: assign, move to the end, drop the oldest while too many |
| TtlCache.CacheStore.Clear | src/ttl_cache.py:74-76 | empties the store and keeps the counters |
| TtlCache.CacheStore.Wrapped | src/ttl_cache.py:103-115 | the function is called exactly on a miss, and its result stored unless it raises |
| TtlCache.HitsAreRecent | src/ttl_cache.py:49-72 | in every interleaving a hit returns the value last put for the key, stored no longer than the time to live ago |
| TtlCache.StoredIsAnsweredIff | src/ttl_cache.py:49-64 | after every run a get of a stored key is answered exactly when its last put is no older than the time to live |
| TtlCache.LiveIsStored | src/ttl_cache.py:49-76 | a key is stored if since its last put the store was not cleared, no get found it expired, and fewer than `max_size` other keys were touched since its last touch |
| TtlCache.StoredIsLive | src/ttl_cache.py:49-76 | and only a key is stored that has been put and since then neither cleared away nor found expired |
| TtlCache.HitsAreAnswers | src/ttl_cache.py:49-64 | the hit counter is the number of gets that were answered |
| TtlCache.CallsReturnFunctionValues | src/ttl_cache.py:103-115 | with any number of threads, interleaved between get, invocation and put, what a call returns is what some invocation for its key returned |
| TtlCache.HitsAreFresh | src/ttl_cache.py:103-115 | with any number of threads, what a call is answered from the store was returned for its key and stored no longer than the time to live ago |
| TtlCache.FinishedIsAnswered | src/ttl_cache.py:103-115 | what a call has just stored answers the next call for its key for as long as the time to live, if the size is positive |
| TtlCache.CallIsAnsweredOrInvokes | src/ttl_cache.py:103-110 | in every interleaving a call whose key the store answers returns that answer at once, and any other is about to invoke the function |
| TtlCache.MissRunsThrough | src/ttl_cache.py:110-115 | whatever others do meanwhile, a call that missed invokes the function, returns what it returned and stores it with the time of its end |
| TtlCache.ReturnedDoesNothing | src/ttl_cache.py:107-115 | a call that has returned invokes and stores nothing more |
| TtlCache.MissRaises | src/ttl_cache.py:110-115 | a call whose invocation raises stores nothing |
| TtlCache.RefinesPureFunction | src/ttl_cache.py:103-115 | for a function of its key, every call in every interleaving returns what the function returns |
| TtlCache.TrimKeeps | src/ttl_cache.py:71-72 | trimming keeps exactly the most recently touched entries that fit |
| TtlCache.PutEvictsLeastRecent | src/ttl_cache.py:66-72 | a put drops one key at most, the least recently touched, and only when the store is full and the key new; a store of size 0 keeps nothing |
| TtlCache.StoreAlwaysOrdered | src/ttl_cache.py:36-76 | after every run: size bound, order of last touch, hits plus misses equals gets |
| TaskQueue.TaskStore.CreateTask | src/sqlite_backend.py:88-130 | inserts a pending row unless the id exists |
| TaskQueue.TaskStore.SelectPending | src/sqlite_backend.py:194-197 | the pending rows, each once, sorted by priority and creation time |
| TaskQueue.TaskStore.ClaimTask | src/sqlite_backend.py:136-179 | claims the wanted task if it is pending, or a first pending one; answers nothing exactly when there is none |
| TaskQueue.TaskStore.ClaimMatching | src/sqlite_backend.py:181-218 | claims a first task among those whose needs the capabilities serve; answers nothing exactly when there is none |
| TaskQueue.TaskStore.StartTask | src/sqlite_backend.py:236-238 | claimed to running, and only that |
| TaskQueue.TaskStore.CompleteTask | src/sqlite_backend.py:224-228 | claimed or running to completed, with result and time |
| TaskQueue.TaskStore.FailTask | src/sqlite_backend.py:230-234 | claimed or running to failed, with error and time |
| TaskQueue.TaskStore.RequeueTask | src/sqlite_backend.py:240-252 | anything but completed back to pending, unheld |
| TaskQueue.TaskStore.RequeueStaleTasks | src/sqlite_backend.py:328-346 | exactly the rows claimed before the cutoff go back, and are listed |
| TaskQueue.Transitions | src/sqlite_backend.py:136-278 | every change of state a transaction can make; a completed row never changes, nor does anybody's priority or age |
| TaskQueue.MovesToTarget | src/sqlite_backend.py:136-278 | a transaction that finds the task in a state it can go on from brings it to the state it is for; any other leaves the row as it is |
| TaskQueue.StateIsOfLastMove | src/sqlite_backend.py:88-278 | in every run a row has the state, holder, times, result and error that the last transaction which moved it wrote |
| TaskQueue.PendingIsUnheld | src/sqlite_backend.py:240-252 | in every run a pending task has no claimer and no claim time |
| TaskQueue.CompletedIsFinal | src/sqlite_backend.py:224-278 | in every run a completed row stays as it is, result included |
| TaskQueue.ClaimsAreSeparated | src/sqlite_backend.py:136-179 | two successful claims of a task have a requeue of it between them |
| TaskQueue.HolderIsLastClaimer | src/sqlite_backend.py:162-167 | the recorded holder of a task at work made its last successful claim, at the recorded time, with no requeue since |
| TaskQueue.DrainInOrder | src/sqlite_backend.py:153-156 | successive claims take pending tasks in order, none twice, and leave the others pending |
| TaskQueue.DrainListsPending | src/sqlite_backend.py:153-160 | a drain lists the pending tasks, each exactly once, sorted by priority and age |
| TaskQueue.SplitRequeueKeepsCompletedIff | src/sqlite_backend.py:333-342 | in every run, with any transactions between its select and its updates, the stale requeue keeps completed tasks exactly when none of the selected was completed in between |
| TaskQueue.SplitRequeueRevivesCompleted | src/sqlite_backend.py:333-342 | a run in which one was |
| StateStore.Store.SlotClaim | src/state_store_cascade.py:116-131 | a claim that nothing interrupts is refused exactly when another holder's lease has not expired; else the lease is replaced |
| StateStore.Store.SlotRelease | src/state_store_cascade.py:136-143 | a release that nothing interrupts removes the lease only of its recorded holder |
| StateStore.Store.SlotHolder | src/state_store_cascade.py:148-159 | a question that nothing interrupts names the holder of an unexpired lease and drops an expired one |
| StateStore.LeaseStands | src/state_store_cascade.py:116-161 | in every run a granted lease is recorded as granted until it expires, its holder claims again or releases, or a write clobbers it |
| StateStore.AllStandIffNoneClobbered | src/state_store_cascade.py:116-161 | over a whole run all good leases stand at every moment if and only if no write clobbers one |
| StateStore.ClobbersIffGrantedMeanwhile | src/state_store_cascade.py:119-130 | a write clobbers a lease if and only if, between the select of its call and the write, the last thing written to the slot was a grant to somebody else that is still good |
| StateStore.UninterruptedNeverClobbers | src/state_store_cascade.py:116-161 | if every call writes right after its select, all leases stand |
| StateStore.AtMostOneHolder | src/state_store_cascade.py:116-161 | as long as nothing is clobbered, at any time at most one holder can rely on its last grant |
| StateStore.ClobberingClaimMakesTwo | src/state_store_cascade.py:127-130 | a claim that clobbers a lease with a good one makes two holders |
| StateStore.GrantNeedsExpiryOrRelease | src/state_store_cascade.py:121-130 | a grant to another holder finds the last granted expiry passed, unless its holder released it or it is clobbered |
| StateStore.RecordedLeaseWasGranted | src/state_store_cascade.py:127-130 | in every run every recorded lease is its holder's last grant |
| StateStore.GrantWasClaimed | src/state_store_cascade.py:116-131 | a grant was claimed by a select of the same call that found no good lease of another holder, and expires the time to live after the claim started |
| StateStore.RemovalWasDecided | src/state_store_cascade.py:136-159 | a lease is removed only by a call whose select found its caller to be the holder, or found it expired |
| StateStore.HolderAnswersTruly | src/state_store_cascade.py:148-159 | as long as nothing is clobbered, the store names a holder exactly when that holder's last grant is still good |
| StateStore.StaleHolderIsHarmless | src/state_store_cascade.py:121-143 | a former holder that selects afterwards can never release its successor's lease, and can take it back exactly when it has expired |
| StateStore.StaleReleaseClobbers | src/state_store_cascade.py:139-142 | one that selected before its successor's grant removes the new lease |
| StateStore.OverlappingClaimsClobber | src/state_store_cascade.py:120-130 | two claims that both select before either writes are both granted |
| StateStore.Store.WriteTask | src/state_store_cascade.py:176-200 | a task write that nothing interrupts replaces the row and moves its index entry |
| StateStore.Store.TaskListByState | src/state_store_cascade.py:217-234 | the data of the joined tasks, each once |
| StateStore.CommitKeepsAgreementIffSettled | src/state_store_cascade.py:183-200 | a commit keeps index and tasks in agreement exactly when the task is absent, or its current state is no name, the new one, or the one that was selected |
| StateStore.IndexAgreesIffSettled | src/state_store_cascade.py:176-200 | over a whole run the index agrees with the tasks at every moment if and only if every commit finds its task so |
| StateStore.UnsettledNeedsCommitBetween | src/state_store_cascade.py:183-193 | a commit finds it otherwise only if another write of the task committed while the call was pending, since its select |
| StateStore.UninterruptedWritesAgree | src/state_store_cascade.py:176-200 | if every task write commits right after its select, the index always agrees with the tasks |
| StateStore.OverlappingWritesDisagree | src/state_store_cascade.py:183-200 | two overlapping writes leave a task listed under a former state |
| StateStore.LastCommitWins | src/state_store_cascade.py:192-195 | each row is what the last write of its task said |
| StateStore.ListedIffLastWritten | src/state_store_cascade.py:217-234 | as long as every commit finds its task settled, a state lists exactly the tasks whose last write named it; tasks without a state are listed nowhere |
| RedisQueue.Queue.CreateTask | src/redis_client.py:91-108 | pending, with the ageing score |
| RedisQueue.Queue.ClaimTask | src/redis_client.py:78-88 | takes the least member by score and name, or nothing exactly when none is pending |
| RedisQueue.Queue.CompleteTask | src/redis_client.py:119-131 | claimed entry away, completed entry and state written |
| RedisQueue.KeepsAgreementIffExpected | src/redis_client.py:91-131 | an operation keeps each task in exactly the set its hash names exactly when it creates no claimed or completed task and completes no pending one |
| RedisQueue.AlwaysAgreesIffExpected | src/redis_client.py:91-131 | the same for whole runs |
| RedisQueue.CompletedTaskIsClaimed | src/redis_client.py:119-131 | completing an unclaimed task leaves it to be claimed |
| RedisQueue.PendingWasCreated | src/redis_client.py:94-106 | a pending task has the score of its last create and has not been claimed since |
| RedisQueue.StateIsOfLast | src/redis_client.py:78-131 | the state in the hash of a task is that of the last operation on it |
| RedisQueue.ClaimedWasClaimed | src/redis_client.py:78-88 | a claimed task has the score it was claimed with, and its last claimer is recorded |
| RedisQueue.CompletedWasCompleted | src/redis_client.py:119-131 | a completed task has the second of its last completion |
| RedisQueue.TwoClaimsNeedCreate | src/redis_client.py:78-88 | two claims of a task have a create of it between them |
| RedisQueue.OvertakingIsBounded | src/redis_client.py:94 | a waiting task of priority p and second t is passed only by tasks with t' <= t + 1000 * (p - p') |
| RedisQueue.WaitIsBounded | src/redis_client.py:78-106 | while a task waits, every claim is paid for by a task that was ahead of it or by an early create |
| RedisQueue.ClaimedWithinBound | src/redis_client.py:78-106 | with priorities of at least 0 a task is claimed within a number of successful claims that no create after t + 1000 * p adds to |
| RedisQueue.CreatesUntilCounts | src/redis_client.py:94 | the creates that count against a task are as many as there are positions of such creates |
| DrainRestore.ReadStream | scripts/phase1_drain_restore.py:120-133 | the whole stream, once and in order, for every length and page size; fails exactly when a full page ends on the largest sequence number |
| DrainRestore.NextPage | scripts/phase1_drain_restore.py:124-132 | a page continues where the last one ended |
| DrainRestore.ReadOn | scripts/phase1_drain_restore.py:130-132 | the start made from the last id read lies between it and the next id |
| DrainRestore.Harness.SerialiseKey | scripts/phase1_drain_restore.py:97-135 | a snapshot of the value, sets and sorted sets in order |
| DrainRestore.Harness.Drain | scripts/phase1_drain_restore.py:216-269 | a checkpoint of exactly the keyspace, unless the gate is shut, live tasks exist or a stream cannot be read; then the old checkpoint stays |
| DrainRestore.Harness.RestoreKey | scripts/phase1_drain_restore.py:138-162 | a stream is left alone; any other key holds the written value, or is gone |
| DrainRestore.Harness.DeleteOrphans | scripts/phase1_drain_restore.py:298-312 | deletes exactly the test keys that are not in the checkpoint |
| DrainRestore.Harness.Restore | scripts/phase1_drain_restore.py:272-325 | the restored keyspace, for every order of keys and repeats of the scan, and the number of keys written |
| DrainRestore.WrittenIsValue | scripts/phase1_drain_restore.py:138-162 | writing back a snapshot restores the value for every type but streams and unsupported ones |
| DrainRestore.RestoreGivesBackIff | scripts/phase1_drain_restore.py:272-325 | whatever happened in between, restore gives back the drained keyspace exactly when new keys are test keys, streams are unchanged and no drained type is unsupported |
| DrainRestore.RestoreIsIdempotent | scripts/phase1_drain_restore.py:272-277 | a second restore changes nothing |
| DrainRestore.PayloadsEqualIff | scripts/phase1_drain_restore.py:170-199 | what the checksum covers is equal exactly when the keyspaces are, but for contents of unsupported types |
| SlotRecord.IntegerOfText | src/gpu_slots.py:80-83 | reading the text of an integer gives the integer |
| SlotRecord.DecimalValue | src/gpu_slots.py:111 | reading the decimal digits of a number gives the number |
| SlotRecord.ParsePrintIff | src/gpu_slots.py:418-469 | reading a written record gives back its fields exactly when they hold no separator, the host starts with no space and the numbers are not negative |
| SlotRecord.ParseLegacy | src/gpu_slots.py:451-469 | a record of the legacy format is read as what it says |
| SlotRecord.BareFields | src/gpu_slots.py:451-469 | a record may end after the process id |
| SlotRecord.ShortFields | src/gpu_slots.py:436-449 | or anywhere among the extended fields; what is missing is empty or 0, what follows them is ignored |
| SlotRecord.ParsedIsPrintable | src/gpu_slots.py:418-469 | whatever is read from any file content can be written and read again |
| SlotRecord.SlotFile.ClaimSlot | src/gpu_slots.py:55-122 | refused exactly when the content check says taken, never without a file or a colon in it; else the new record is written |
| SlotRecord.SlotFile.HeartbeatSlot | src/gpu_slots.py:377-415 | renews the record exactly if it can be read and is this host's |
| SlotRecord.SlotFile.ReleaseSlot | src/gpu_slots.py:125-152 | clears the file unless there is none or another host holds it |
| SlotRecord.HeartbeatKeeps | src/gpu_slots.py:406-412 | from any readable content a heartbeat keeps host, process, claim time and deadline, filling in only what is missing |
| SlotRecord.RecordIsTaken | src/gpu_slots.py:70-94 | a record in the current format refuses every claim, whether or not its process is alive |
| SlotRecord.LegacyIsTaken | src/gpu_slots.py:70-94 | a record in the legacy format refuses a claim unless it is of this host, its process id is positive and the process is not seen alive |
| SlotRecord.WithoutColonIsFree | src/gpu_slots.py:70-94 | a file without a colon, an empty one above all, is free to claim |
| SlotRecord.ReleasedIsFree | src/gpu_slots.py:125-152 | a record is released by its own host, after which anybody's claim succeeds, and by no other |
| SlotRecord.HolderStays | src/gpu_slots.py:55-152 | through any claims, heartbeats and releases by other hosts, the holder's record changes in its heartbeat only |

## Left out

- Foreign effects: remote shells, subprocesses, version control, cluster and GPU probing tools, HTTP, the context bridge, the message broker. Probes, outcomes of dispatched stages and answers of process checks are inputs.
- User interface, reporting, metrics, configuration loading, routing by keyword, heartbeat threads, messages, artifacts and worktrees: they would add easy members only.
- Encodings (YAML, JSON) and the engines behind the stores: tables, sorted sets, hashes and directories are maps and sequences, and one transaction, script or pipeline is one step. The order of tied rows in a query is arbitrary.
- Pipeline: the source's recursion limit, stage prompts and outputs, saved results and their keys, timeouts, and exceptions of the dispatched work.
- Executor.CompletedIffEveryStageCompleted: looks at the runs of a stage on its own account only, because the code ignores how a re-run generator ended.
- ClaimProtocol.SuccessesCounted: a success is a task taken. An error of the agent database after the remove (src/swarm_lib.py:707-723) makes a call raise although it has taken the task; that the caller is told so is not modelled.
- ClaimProtocol.AtMostOneSucceeds: leaves out a share that is down, because the code does not exclude two claims then, and requeues of the same task, which are in RequeueProtocol. Locks are exclusive per inode, as the local file system gives them; how a network file system implements them is not part of this model.
- ParentCompletion.ParentFollowsSubtasks: one parent; that completing it does not look at its own parent (src/swarm_lib.py:1186-1193) appears as the automatic completion of a nested subtask.
- RequeueProtocol.LostIffClaimWrittenBeforeRemove: one requeue of a task at a time, and its claimer stays away: a host that was taken for gone and completes the task meanwhile is not modelled, nor is a share that is down.
- TaskBoard.Board.Operate: operations do not overlap; overlapping claims are in ClaimProtocol, overlapping requeues in RequeueProtocol. A record holds the fields that operations read; file contents torn by a crash in the middle of one write are not modelled, because writes are atomic renames.
- TaskIndex.LookupsAreReal: the scan of a directory is one step, and the sharing of the cached dictionaries with callers is not modelled.
- GpuAllocator.Scheduler.Serve: serial operations, because select-then-insert is not atomic in the code; so the rollback branch of the multi-GPU path, which a serial run cannot reach, is not modelled. A release does not check the owner, in the code and in the model. Host names are compared with upper case for ASCII letters only.
- CircuitBreaker.InvokedIffCooledDown: serial calls, because a thread that passed the gate earlier may still invoke the function later. Logging and the remaining-cooldown text are left out.
- TtlCache.HitsAreRecent: is stated per key, because a positional pair and a keyword argument can make the same key (src/ttl_cache.py:104). Unhashable arguments bypass the cache and are left out, as are negative sizes.
- TaskQueue.TaskStore.RequeueStaleTasks: one step; the two lemmas on its halves say what separate statements would do. Queries that only list are left out; so are descriptive columns.
- StateStore.Store.SlotClaim: database errors, which answer false, and the list of all slots are left out. Failover to the other backends of the cascade shares no lease state and is left out.
- RedisQueue.Queue.ClaimTask: scores are integers, which is exact below 2^53; times of claims and the data of tasks are left out.
- DrainRestore.Harness.Drain: one step with respect to other clients; the count of live claimed tasks is an input. Times to live, which a checkpoint does not hold, and the count of deleted orphans are left out, and so are the encoding and the hash of the checksum.
- SlotRecord.SlotFile.ClaimSlot: one step; the file opened before the lock is taken, the waiting queue and the scan for stale slots are left out. Digits and space are those of ASCII.
