# EncodeSwarmr: a verified model

EncodeSwarmr is a distributed video encoder: a controller expands jobs into task rows, agents claim
and report the rows, and the controller merges the results. This project models the parts of it
whose correctness is not visible from one function, and proves what they promise.

`dafny verify dfyconfig.toml` checks everything.

## The parts

| files | what they model |
|---|---|
| `Digraph`, `FlowGraph`, `FlowValidate`, `FlowExecute`, `FlowExpansion` | the flow graph: the three-colour validation, the walk over live edges, and the task rows a walk becomes |
| `JobRows`, `Store` | the job and task tables as values, with one function per statement, and the store object that updates them in place |
| `Protocol`, `ProtocolInvariant`, `ProtocolSteps`, `ProtocolTheorems`, `TurnRules`, `ChainRuns`, `RetryTheorems`, `RetryTiming`, `MergeTheorems`, `RunShapes` | every RPC, API call, engine tick and background goroutine as a thread that takes one store statement per turn; all interleavings, and threads may die at any point; the invariant, and what holds in every run |
| `RunBuilder`, `MergeRace`, `RetryRace` | concrete runs, built turn by turn, in which an expected property fails |
| `ResultHandling`, `Completion`, `SoloRuns`, `SoloCalls`, `JobsApi`, `Expansion`, `Reorder` | the same operations call by call on the store object, what each call means, and that the threads of the protocol, run alone, do what the calls do |
| `RetryPolicy`, `Chunks`, `Frames` | retry budgets and backoff, adaptive chunk boundaries, and the frames of the merged file |
| `LogHub`, `LogRotation`, `BackupOrder`, `Journal` | the log-stream hub, the rotating log writer and its clean-up order, and the offline journal with its replay |
| `EncodingStats`, `VmafSearch`, `PathMapping`, `Text`, `Basics` | the running statistics, the CRF search, UNC and Linux path mapping, and shared notions |

A table is a sequence whose positions are ids and creation times; a deleted row stays behind with
`live` false. Two columns are added for the proofs and are never read by an operation:
`Job.sawDependency` (the predecessor's status was read at creation) and `Task.parent` (the row an
automatic retry repeats). Clocks, jitter, which row a claim locks, and whether a fallible step
succeeds are parameters of a turn. Where a comment in the repository says something else than its
code, the model follows the code.

## What the code does not keep

Properties one would expect, where the model shows the exact limit:

- The recount looks at pending, running, completed and failed rows only, so a job is completed, and a
  merge is started, under a row that is still `assigned` (`CheckCompletesExactly`,
  `MergeListIsComplete`, `NothingOpenMeansCompleted`).
- A merge can start before all chunks exist: an agent may finish the first chunk while the expansion
  is still adding rows, and the completion check lists rows with counters from before
  (`MergeCanStartTooEarly`). The merge is given all chunk files exactly if every chunk row was
  completed when the rows were listed (`MergePathsAreAll`); if no row of the job changed between
  recount and listing, exactly if none was assigned or cancelled (`MergePathsInWindow`).
- A check that leaves nothing open settles the job, except exactly when it skips the last pending row,
  a merge or vmaf_target row, of a job with a failed row that is not failed itself: it goes on with
  the job row it read before (`ChecksLeftOpen`). A further check sets the job failed
  (`LaterCheckSettlesIt`).
- A cancellation survives a completion check exactly if a row of the job is still running; otherwise
  the check overwrites it (`CancelIsOverwritten`).
- A row whose recorded errors are all permanent is never retried automatically as long as no completion
  and no manual retry removes an error between a report's recording it and its reading it back
  (`PermanentErrorEndsLineage`, `ReadBackIsPermanent`). A manual retry at that moment does let it be
  retried (`PermanentErrorCanBeRetried`): whatever error is read back with budget left, the report goes
  on to retry the row (`ReadBackRetries`).
- No job is ever `assigned`, so a poll never sets a job running (`PollsLeaveJobsAlone`).
- Progress reopens finished rows (`ProgressSetsRunning`).
- The backoff overflows from retry count 59 on (`BackoffIsDocumentedUpTo58`).
- A failed expansion of an encode job is rolled back, except exactly when all chunk rows were added and
  then the merge row or its scripts failed (`FailedExpansionLeavesRows`).
- An expanded flow has no row exactly if no node reachable over live edges becomes one
  (`FlowHasNoRowExactly`). That happens on flows that validation accepts, when a later condition
  reuses the id of the input node, and the engine then expands the job again on every tick
  (`ReusedIdHasNoRow`).
- A chain step whose predecessor lookup fails is released at once (`ChainRequestsMakeChains`).
- Adaptive chunks tile a source exactly from 500 frames on, or with one agent
  (`AdaptiveChunksTileExactly`).
- Reordering more than 100 jobs keeps the list order exactly if the jobs that share the top priority
  are listed in creation order (`ListOrderKeptExactly`).
- An exhausted CRF search keeps its last encode. If no measurement fails or is close, and e is the lowest
  candidate that misses the target, that is e exactly if the bisection towards e reaches it with no lower
  candidate left, and the candidate below e otherwise; the bounds and e decide it before the search
  (`ExhaustedChoiceExactly`). For any scores, a choice that misses although an encode met the target lies
  just above an encode that met it (`ExhaustedChoiceMayMiss`).
- Path prefixes are not compared component by component: a share whose name extends a mapped base is
  matched exactly if the prefix has no trailing backslash (`PrefixCutsAComponent`). A UNC path comes
  back exactly if the first enabled mapping that matches its image leads back to it
  (`ComesBackExactly`); nested bases lose it exactly unless the Windows bases are nested in the same
  way (`NestedBasesLoseThePath`).
- Excess log backups are removed in name order, in which `.9` comes after `.10`. The clean-up of backups
  1 to k keeps the newest m exactly if k <= m, or m = 1, or m + 11 is at least the next power of ten
  after k (`CleanUpKeepsNewestExactly`).
- A journaled result is lost only if a close is acknowledged after a failed send, before the result was
  sent (`LossNeedsFailedSend`); any such result can be lost (`UnsentResultsGetMarked`), for good
  (`ResultsCanBeLost`, `GoneForever`).
- A journaled result can be handled twice (`ResultsCanBeHandledTwice`), but only if a replay started
  while it was pending although it had been handled or another replay could still handle it
  (`HandledOnce`); and whenever a handled result is pending, the run can go on to handle it again
  (`PendingIsHandledAgain`).

## Model

| member | source | states |
|---|---|---|
| `FlowValidate.ValidateFlow` | internal/controller/engine/flowengine.go:79-147 | accepts exactly the graphs with a node, an input node, only known edge endpoints and no directed cycle; a cycle rejection names an edge that closes one |
| `FlowValidate.FindBackEdge` | internal/controller/engine/flowengine.go:109-146 | the three-colour search finds a back edge exactly if a cycle exists, and otherwise leaves an order in which every edge points back |
| `FlowValidate.ColourSearch.Visit` | internal/controller/engine/flowengine.go:118-139 | one visit keeps the grey nodes a path and the black nodes a finish order, and stops only at a true back edge |
| `FlowValidate.CoveredGraphIsAcyclic` | internal/controller/engine/flowengine.go:109-146 | a finish order of all nodes excludes every cycle |
| `FlowExecute.ExecuteFlow` | internal/controller/engine/flowengine.go:171-354 | succeeds, without cancellation, exactly if no cycle and no missing node can be reached from the input over live edges, so always on a validated flow; the steps are the reachable nodes, each once, and follow the handles of the edges; every error has its true cause |
| `FlowExecute.WalkFrom` | internal/controller/engine/flowengine.go:230-354 | the walk from the input node over the live graph, with its exact outcome |
| `FlowExecute.Walker.Walk` | internal/controller/engine/flowengine.go:242-348 | the recursive visit keeps visited, inStack and steps in step with the path, and terminates on every graph |
| `FlowExecute.Walker.FollowEdges` | internal/controller/engine/flowengine.go:293-347 | the edges followed are those with no handle or the handle error, true or false of a condition, those with the handle error of another failing node, and all without it of any other node |
| `FlowExecute.StepTreeIsOrdered` | internal/controller/engine/flowengine.go:304-328 | every step is the image of its node, no node twice, the first without dependency, every other joined to one earlier step by a live edge, siblings in edge order |
| `FlowExecute.StepsAreRouted` | internal/controller/engine/flowengine.go:285-347 | the target of every edge that a condition with this outcome, a failing node or another node follows is a step, and every step after the first hangs off its one dependency by such an edge |
| `FlowExecute.StepsAreConfigured` | internal/controller/engine/flowengine.go:256-328 | every step is the image of a node of the flow: its kind and its configuration, for the input node with the source added |
| `FlowExecute.WalkIsComplete` | internal/controller/engine/flowengine.go:242-348 | a finished walk has visited exactly the live-reachable nodes, and no cycle is reachable |
| `FlowExecute.WellFormedRunsClear` | internal/controller/engine/flowengine.go:109-146 | on a validated flow no live cycle and no missing node can be reached, whatever the conditions and simulated errors |
| `FlowGraph.FirstInputSound` | internal/controller/engine/flowengine.go:217-228 | the input node is the first node of an input kind |
| `FlowGraph.InputKindExactly` | internal/controller/engine/flowengine.go:219-221 | the input kinds are exactly those that start with input_ |
| `FlowGraph.EdgesFromKeepsOrder` | internal/controller/engine/flowengine.go:211-215 | the edges leaving a node are kept in the order of the graph |
| `FlowGraph.LastNodeWins` | internal/controller/engine/flowengine.go:206-209 | of several nodes with one id the last one is looked up |
| `FlowExpansion.ExpandFlowJob` | internal/controller/engine/expand.go:64-321 | without cancellation the expansion fails with its flow exactly if the flow does not run clear, so never on a validated flow; otherwise it is expanded exactly if the source is found and every row of the plan can be added, and rolled back if not |
| `FlowExpansion.AddAllRows` | internal/controller/engine/expand.go:111-312 | the loop over the steps adds the rows of the plan in order, none for webhooks and conditions, two for two-pass encodes, up to the first that cannot be added, and to the end exactly if every one can |
| `FlowExpansion.StepsHaveRows` | internal/controller/engine/expand.go:114-312 | the chunk indices of the steps follow one another from 0 on: none for a webhook or condition, two agent rows for a two-pass encode, one controller row for a search by score, one encode row for every other kind |
| `FlowExpansion.RowsFollowDependencies` | internal/controller/engine/expand.go:111-312 | the rows of a step all come after the rows of the one step it depends on, to which a live edge joins it |
| `FlowExpansion.FlowHasNoRowExactly` | internal/controller/engine/expand.go:111-312 | an expanded flow has no row exactly if no node reachable over live edges becomes one |
| `FlowExpansion.FlowsHaveRows` | internal/controller/engine/expand.go:111-312 | an expanded flow without rows has a later node that reuses the id of the input node and becomes no row itself |
| `FlowExpansion.ReusedIdHasNoRow` | internal/controller/engine/flowengine.go:79-147 | every flow of an input node and a later condition with the same id is accepted by validation, is expanded into no row, and leaves its job asking for the same expansion again |
| `FlowExpansion.ExpandsAgainOnlyWithoutRows` | internal/db/queries.go:675-698 | after its expansion a job asks for another one exactly if it got no rows |
| `JobRows.CountStatusZero` | internal/db/queries.go:764-776 | a zero counter means exactly that no row of the job has the status |
| `JobRows.CountStatusOne` | internal/db/queries.go:764-776 | a counter of one pins the single row with that status |
| `JobRows.ListByJobSound` | internal/db/queries.go:897-920 | the listing holds exactly the rows of the job, each once, by ascending chunk index |
| `JobRows.RetryChunkIsFree` | internal/db/queries.go:2376-2380 | an automatic retry takes the chunk index after the highest one of the job, which no row of it holds |
| `JobRows.EligibleExactly` | internal/db/queries.go:931-947 | an agent may take exactly the pending rows that are not merge rows and are due, of a queued or running job without tags or with one of its tags |
| `Store.JobStore.UpdateJobStatus` | internal/db/queries.go:700-718 | sets one job status, and reports whether the job exists |
| `Store.JobStore.UpdateJobPriority` | internal/db/queries.go:721-731 | sets one priority, and reports whether the job exists |
| `Store.JobStore.UnblockDependentJobs` | internal/db/queries.go:812-820 | queues exactly the jobs that are waiting and depend on the given one; cancelled, failed and completed dependents stay |
| `Store.JobStore.UpdateJobTaskCounts` | internal/db/queries.go:764-776 | stores the counters of the rows as they are at that moment |
| `Store.JobStore.CreateTask` | internal/db/queries.go:864-883 | adds a pending row unless the job already has the chunk index |
| `Store.JobStore.ClaimNextTask` | internal/db/queries.go:928-968 | assigns a row the agent may take that no such row precedes; if it finds none, every pending, due row that is not a merge row, of a queued or running job, has tags the agent shares none of |
| `Store.JobStore.ClaimConcatTask` | internal/db/queries.go:973-984 | sets a pending row running, and reports whether it was pending |
| `Store.JobStore.SetRunning` | internal/db/queries.go:986-996 | sets an existing row running whatever its status |
| `Store.JobStore.Complete` | internal/db/queries.go:1010-1031 | sets an existing row completed whatever its status |
| `Store.JobStore.Fail` | internal/db/queries.go:1033-1039 | sets an existing row failed whatever its status |
| `Store.JobStore.CancelPendingTasksForJob` | internal/db/queries.go:1041-1046 | cancels the pending and assigned rows of a job |
| `Store.JobStore.DeleteTasksByJobID` | internal/db/queries.go:1048-1055 | deletes the rows of a job |
| `Store.JobStore.RetryFailedTasksForJob` | internal/db/queries.go:1652-1671 | puts the failed rows of a job back to pending |
| `Store.JobStore.PreemptTask` | internal/db/queries.go:2826-2844 | puts an assigned or running row back to pending |
| `Store.JobStore.ResetTask` | internal/db/queries.go:2851-2867 | puts any existing row back to pending |
| `Store.JobStore.RetryTask` | internal/db/queries.go:2364-2394 | adds the retry of an existing row |
| `ProtocolInvariant.ActionKeepsTables` | internal/db/queries.go:698-1055 | an action that its history justifies keeps the tables consistent with the history: released and completed jobs, lineages, counters |
| `ProtocolInvariant.ThreadOkIsStable` | internal/controller/grpc/result.go:39-432 | what a call in progress relies on stays true whatever other calls do in between |
| `ProtocolSteps.NextOk` | internal/controller/grpc/result.go:39-432 | every turn of every call takes a justified action |
| `ProtocolSteps.CheckTurnOk` | internal/controller/grpc/result.go:253-432 | the same for each statement of the completion check, including the stale job row |
| `ProtocolSteps.RunInvariant` | internal/controller/grpc/result.go:39-432 | the invariant holds in every state of every run |
| `ProtocolTheorems.RunGrows` | internal/db/queries.go:528-1055 | in every run a row keeps its job, kind, chunk, output and lineage, and nothing established is lost |
| `ProtocolTheorems.ReleaseWaitsForPredecessor` | internal/db/queries.go:544-554 | a job whose predecessor status was read at creation is released, or gets a row, only after the predecessor was completed |
| `ProtocolTheorems.ChainReleasesInOrder` | internal/controller/api/jobs.go:237-269 | the released jobs of a chain form a prefix of it: every job before a released one was completed by then |
| `ChainRuns.ChainRequestsChain` | internal/controller/api/jobs.go:237-269 | in every run the jobs that a chain request has created so far are a chain, if the database answered its lookups, whatever other calls do in between |
| `ProtocolTheorems.TakenTwiceOnlyAfterRequeue` | internal/db/queries.go:928-984 | between two takings of one row there is a preempt, a reset or a manual retry of it |
| `ProtocolTheorems.ConcatRowsStayOnController` | internal/db/queries.go:937-945 | agents only ever receive pending rows that are not merge rows |
| `TurnRules.HandOutsFollowTags` | internal/db/queries.go:931-947 | in every run a row is handed out only by a poll to its agent, and then it is pending, no merge row and due, and its job is queued or running and has no tags or one of the agent |
| `ProtocolTheorems.PollsLeaveJobsAlone` | internal/controller/grpc/poll.go:46-61 | no job is ever assigned, and no poll changes a job status |
| `ProtocolTheorems.RunnerStartsOncePerClaim` | internal/controller/grpc/result.go:281-324 | however many completion checks interleave, a runner starts twice on a row only after a preempt, reset or manual retry of it |
| `ProtocolTheorems.CompletionSawNoOpenRow` | internal/controller/grpc/result.go:378-391 | a completion check sets a job completed only if at a recount no older than its own the job had no pending, running or failed row |
| `TurnRules.ChecksLeaveOthersAlone` | internal/controller/grpc/result.go:378-402 | in every run a check changes no other job than those waiting for its own, and only to queued |
| `ProtocolTheorems.NothingOpenMeansCompleted` | internal/db/queries.go:764-776 | in every reachable state such a job has only completed rows exactly if none is assigned or cancelled |
| `ProtocolTheorems.LineageCountsUp` | internal/controller/grpc/result.go:190-247 | the rows of a retry lineage have retry counts 0, 1, 2, .. within one job and kind, never past the limit of the job |
| `ProtocolTheorems.LineagesAreShort` | internal/controller/grpc/result.go:190-247 | a lineage has at most max_retries + 1 rows |
| `RunShapes.ChunksAreUnique` | internal/db/queries.go:864-883 | in every state of every run no two rows of a job share a chunk index |
| `RunShapes.ExpansionRows` | internal/controller/engine/expand.go:539-590 | in every run the rows of a job that only one expansion adds to are exactly the first rows of its plan, in order, however other calls interfere |
| `RetryTheorems.RetriesAreReported` | internal/controller/grpc/result.go:122-145 | in every run a row has at most as many retries, made or under way, as failures were recorded for it |
| `RetryTheorems.OneLineagePerRow` | internal/controller/grpc/result.go:190-247 | if each failure is recorded at most once, the retries of a row are a single lineage |
| `RetryTheorems.PermanentErrorEndsLineage` | internal/controller/grpc/result.go:122-224 | in every run in which the errors recorded for a row are all permanent, and no completion or manual retry removes one between a report's recording it and its reading it back, the row has no retry and no call is about to add one |
| `RetryTheorems.ReadBackIsPermanent` | internal/controller/grpc/result.go:122-211 | the error a report reads back is the permanent one it recorded, in every run in which nothing in between removes it or records one that is not permanent |
| `RetryTheorems.ReadBackRetries` | internal/controller/grpc/result.go:190-247 | conversely every run that stands before the reading of an error with budget left goes on, in two turns of the report, to the insertion of a retry |
| `RetryRace.PermanentErrorCanBeRetried` | internal/controller/grpc/result.go:190-224 | a run with permanent errors only in which a manual retry clears the stored error between its report and the read, so that the row is retried |
| `RetryTiming.RetriesWait` | internal/db/queries.go:946-947 | in every run an agent is handed a retry no earlier than its backoff, counted from the turn that added it, so up to retry count 58 no earlier than the documented delay |
| `MergeTheorems.MergeListOfRun` | internal/controller/grpc/result.go:261-304 | in every run a merge, claimed or running, has its row and its paths from one recount with one pending row and nothing running or failed, and from one later listing |
| `MergeTheorems.MergePathsAreAll` | internal/controller/grpc/result.go:291-302 | whatever interferes, the merge of an encode job works on the merge row, and is given all chunk files in order, each once, exactly if every chunk row was completed at the listing |
| `MergeTheorems.MergePathsInWindow` | internal/controller/grpc/result.go:261-302 | if no step between recount and listing changes a row of the job, exactly if no row was assigned or cancelled at the recount |
| `MergeTheorems.MergeOfRunYieldsTheSource` | internal/controller/grpc/result.go:291-304 | end to end in every run: with all chunk files written and boundaries that tile frames 0..T-1, the merge yields these frames in order if every chunk row was completed at the listing, and exactly then if no chunk is empty |
| `RunShapes.MergeOfExpansion` | internal/controller/grpc/result.go:261-302 | the rows of such an encode job have the shape of the merge theorems as soon as a merge is given, so in every run its paths are all chunk files exactly if every chunk row was completed at the listing |
| `MergeTheorems.ClaimWasListed` | internal/controller/grpc/result.go:261-302 | the paths of a claim are those of the completed rows in the state in which the same call listed them |
| `MergeRace.MergeCanStartTooEarly` | internal/controller/engine/expand.go:546-590 | a run in which the merge starts on chunk 0 alone while chunk 1 is pending: no row was assigned or cancelled at the recount, and only the rows of the job changed before the listing |
| `RetryPolicy.RetryBudget` | internal/controller/engine/errors.go:66-127 | the budget of a failure is zero exactly for exit codes from 2 on and for permanent phrases with another nonzero code, half that of the job but at least one for negative codes without a known phrase, and else that of the job |
| `RetryPolicy.PhraseIsFound` | internal/controller/engine/errors.go:66-100 | a phrase counts exactly if one of its list occurs in the lower-cased message |
| `RetryPolicy.BackoffIsDocumentedUpTo58` | internal/db/queries.go:2366-2370 | in 64-bit arithmetic the delay is min(30 * 2^k, 3600) plus the jitter exactly for k up to 58 |
| `ResultHandling.Server.ReportResult` | internal/controller/grpc/result.go:39-70 | a report without interference: a successful one leaves the row completed with its exit code and adds no row; any other leaves it failed with exit code and message and adds exactly one pending retry exactly if the retry count is below the budget; of other rows it changes only the one its check claims or skips |
| `ResultHandling.ReportedLeaves` | internal/controller/grpc/result.go:39-247 | the same for the function of a report, whatever the tables |
| `ResultHandling.Server.MaybeRetryTask` | internal/controller/grpc/result.go:190-247 | adds a retry exactly if row and job exist and the retry count is below the budget of the stored error |
| `ResultHandling.Server.CheckJobCompletion` | internal/controller/grpc/result.go:253-432 | the completion check without interference, with the runner it starts; it queues exactly the jobs waiting for its own, exactly if its counters show nothing open or failed and it starts no runner |
| `ResultHandling.Server.CheckVmaf` | internal/controller/grpc/result.go:328-380 | its vmaf_target part |
| `ResultHandling.Server.Settle` | internal/controller/grpc/result.go:378-402 | its last part: the status, and the release of exactly the jobs waiting for it exactly if it completes the job |
| `ResultHandling.Server.FinishRun` | internal/controller/grpc/result.go:304-321 | the goroutine of a runner records the result, recounts and checks again |
| `ResultHandling.Server.SyncOfflineResults` | internal/controller/grpc/sync.go:16-66 | results are handled like reports, in order up to the first whose row is missing, finished rows reject results that were not journaled, and only a stream handled to its end is acknowledged |
| `ResultHandling.SyncOneDoes` | internal/controller/grpc/sync.go:38-64 | one result of a stream: a missing row ends it, a finished row rejects a result that was not journaled, both without a change, and any other is handled like a report |
| `ResultHandling.OfflineResultsAreNeverRejected` | internal/controller/grpc/sync.go:46-49 | of a stream of journaled results none is rejected, even for finished rows; all are handled, and the stream acknowledged, exactly if every row exists |
| `ResultHandling.Server.ListTasksByJob` | internal/db/queries.go:897-920 | the rows of a job in chunk order |
| `ResultHandling.Server.CompletedPaths` | internal/controller/grpc/result.go:292-302 | the outputs of the completed rows that are not merge rows, in chunk order |
| `ResultHandling.Server.PollTask` | internal/controller/grpc/poll.go:17-79 | the first row the agent may take is assigned and its job recounted, and nothing else changes; nothing is assigned exactly if there is no such row |
| `ResultHandling.Server.ReportProgress` | internal/controller/grpc/progress.go:16-50 | the first update of a stream for each row sets it running, until an update names a missing row |
| `ResultHandling.ProgressSetsRunning` | internal/controller/grpc/progress.go:38-47 | exactly the updated rows are running afterwards, finished ones included |
| `Completion.CheckSettlesExactly` | internal/controller/grpc/result.go:378-402 | a recounted check settles the job exactly if no row is pending or running: completed, releasing what waits for it, exactly if none is failed either, and failed otherwise |
| `Completion.CheckReleasesExactly` | internal/controller/grpc/result.go:378-402 | a recounted check changes another job exactly if that job is waiting and depends on it, and no row of its own is pending, running or failed; it is then queued |
| `Completion.CheckCompletesExactly` | internal/controller/grpc/result.go:378-391 | a check completes a job exactly if no row is pending, running or failed |
| `Completion.CheckLaunchesExactly` | internal/controller/grpc/result.go:261-373 | a check starts a runner exactly if nothing runs or failed and a merge row is the one pending row, or a vmaf_target row is pending |
| `Completion.LaunchedRowIsClaimed` | internal/controller/grpc/result.go:281-290 | the row a runner is started on was pending, is running afterwards, and no other row changes |
| `Completion.ChecksLeftOpen` | internal/controller/grpc/result.go:261-391 | a check that starts nothing and leaves nothing pending or running settles the job, except exactly when it skips the last pending row of a job with a failed row that is not failed yet |
| `Completion.SkippedRowLeavesJobOpen` | internal/controller/grpc/result.go:268-348 | after a skipped merge or vmaf_target row nothing is open, some row is failed, and the job keeps its status |
| `Completion.LaterCheckSettlesIt` | internal/controller/grpc/result.go:378-391 | a further check then sets the job failed |
| `Completion.CheckStartsTheMerge` | internal/controller/grpc/result.go:261-302 | the check starts the merge on the merge row, with all chunk files in order exactly if no row is assigned or cancelled |
| `Completion.StartedMergeYieldsTheSource` | internal/controller/grpc/result.go:291-304 | end to end: the merge it starts yields frames 0..T-1 in order |
| `Completion.RetryDelay` | internal/db/queries.go:2364-2388 | the row a retry adds is pending, counts one more, has a free chunk index, and is due within 15 seconds after the documented delay exactly up to count 58 |
| `SoloRuns.CheckRunsAlone` | internal/controller/grpc/result.go:253-432 | alone, the protocol thread of a recount and check ends with exactly the tables and the runner of the call-by-call function |
| `SoloRuns.ReportRunsAlone` | internal/controller/grpc/result.go:39-145 | alone, the thread of a report ends with exactly the tables and the runner of the call-by-call function |
| `SoloRuns.SyncRunsAlone` | internal/controller/grpc/sync.go:38-64 | so does the thread of one result of a stream, for missing and finished rows too |
| `SoloRuns.StreamHandlesAlike` | internal/controller/grpc/sync.go:38-64 | the loop over a stream does the same with each result |
| `SoloCalls.FinishRunsAlone` | internal/controller/grpc/result.go:304-321 | alone, the end of a runner leaves its row completed with exit code 0, or failed with exit code 1, and then the tables of a recounted check |
| `SoloCalls.RunnerRunsAlone` | internal/controller/grpc/result.go:291-373 | a merge and a search by score both end in this way, whatever they come to |
| `SoloCalls.PollRunsAlone` | internal/controller/grpc/poll.go:17-79 | a poll alone leaves the tables of PollTask for the row the database picks, and unchanged tables if the agent may not take it |
| `SoloCalls.ProgressRunsAlone` | internal/controller/grpc/progress.go:38-47 | a progress update alone sets an existing row running, whatever its status |
| `SoloCalls.CreateRunsAlone` | internal/db/queries.go:531-576 | a creation alone adds a job that waits exactly if its predecessor was read and not completed, and none if there is no such predecessor |
| `SoloCalls.CancelRunsAlone` | internal/controller/api/jobs.go:395-435 | a cancellation alone leaves the tables of CancelJob |
| `SoloCalls.RetryRunsAlone` | internal/controller/api/jobs.go:438-473 | a manual retry alone leaves the tables of RetryJob |
| `SoloCalls.PreemptRunsAlone` | internal/controller/api/jobs.go:595-611 | a preemption alone puts back an assigned or running row, and no other |
| `SoloCalls.ResetRunsAlone` | internal/controller/cli/cli.go:999-1048 | a forced reset alone puts back a row that is neither completed nor failed, and recounts its job |
| `SoloCalls.FailedExpansionRunsAlone` | internal/controller/engine/expand.go:527-605 | when a row cannot be added, or its scripts not rendered, an expansion fails the job, and first deletes its rows unless that was the merge row |
| `SoloCalls.ExpansionEndsAlone` | internal/controller/engine/expand.go:609-617 | after the last row an expansion recounts and queues the job |
| `SoloCalls.AnalysisStartsAlone` | internal/controller/engine/expand.go:327-338 | an analysis on the controller starts exactly for a queued job without rows, and sets it running |
| `SoloCalls.AnalysisEndsAlone` | internal/controller/engine/expand.go:350-401 | its end completes the job and queues exactly the jobs waiting for it, or fails it |
| `JobsApi.CreateJob` | internal/db/queries.go:531-576 | a job starts waiting exactly if it names a predecessor whose lookup succeeds and shows it not completed, and queued otherwise; a missing predecessor fails the insert |
| `JobsApi.CreateJobChain` | internal/controller/api/jobs.go:237-269 | each step depends on the one before it; a failing insert leaves the jobs created so far |
| `JobsApi.ChainRequestsMakeChains` | internal/controller/api/jobs.go:237-269 | the created jobs are a chain exactly if every lookup after the first succeeded; a step whose lookup failed is released at once |
| `JobsApi.CancelJob` | internal/controller/api/jobs.go:395-435 | refused exactly for missing, cancelled and completed jobs |
| `JobsApi.CancelStopsClaims` | internal/db/queries.go:1041-1046 | exactly the pending and assigned rows are cancelled, and no row of the job can be claimed any more |
| `JobsApi.CancelIsOverwritten` | internal/controller/grpc/result.go:378-391 | the next check leaves a cancelled job cancelled exactly if a row is still running; otherwise it sets it failed if some row failed and completed if none did |
| `JobsApi.RetryJob` | internal/controller/api/jobs.go:438-473 | refused exactly unless the job is failed |
| `JobsApi.RetryReopensFailedRows` | internal/db/queries.go:1652-1671 | exactly the failed rows are claimable again, with their retry counts, and the stored counters stay |
| `JobsApi.PreemptTask` | internal/controller/api/jobs.go:595-611 | refused exactly unless the row is assigned or running |
| `Expansion.ExpandEncodeJob` | internal/controller/engine/expand.go:472-617 | which of the five outcomes an expansion has, decided by the boundaries and the first step that fails, and the tables each leaves |
| `Expansion.ExpandsExactly` | internal/controller/engine/expand.go:514-617 | an expansion succeeds exactly if there is a boundary, no needed chunk index is taken and no step fails; the job is then queued, left alone without a boundary, and failed otherwise |
| `Expansion.FailedExpansionLeavesRows` | internal/controller/engine/expand.go:527-605 | an expansion that fails the job leaves rows of it behind exactly if all chunk rows were added and then the merge row or its scripts failed |
| `Expansion.RollbackLeavesNothing` | internal/controller/engine/expand.go:527-535 | a rollback leaves no row of the job and touches no other row |
| `Expansion.FailedMergeRowLeavesChunks` | internal/controller/engine/expand.go:584-605 | then all chunk rows, and the merge row if only its scripts failed, stay pending under a failed job |
| `Expansion.ExpandedRows` | internal/controller/engine/expand.go:539-609 | a job without rows gets exactly one row per boundary and the merge row, all pending |
| `Expansion.EncodeRowsStay` | internal/db/queries.go:986-1055 | whatever happens later, the rows keep that shape while they exist |
| `Reorder.ReorderJobs` | internal/controller/api/jobs.go:521-554 | gives each listed job its priority, in list order, and refuses an empty list |
| `Reorder.DrainInClaimOrder` | internal/db/queries.go:931-954 | repeated claims take exactly the eligible rows, each once, never one after a row that goes behind it |
| `Reorder.ReorderedDrain` | internal/controller/api/jobs.go:534-552 | after a reordering agents drain exactly the eligible rows, job by job in priority order and by ascending chunk index |
| `Reorder.ListOrderKeptExactly` | internal/controller/api/jobs.go:537-541 | that is the list order exactly if the first |ids| - 99 jobs are listed in creation order |
| `Reorder.ShortListsKeepOrder` | internal/controller/api/jobs.go:537-541 | so always on at most 100 distinct ids |
| `Chunks.ComputeAdaptiveChunks` | internal/controller/engine/expand.go:420-468 | the boundaries as a function of the speeds, which the next lemmas determine |
| `Chunks.SizesFollowSpeeds` | internal/controller/engine/expand.go:448-461 | with positive speeds a chunk but the last is its share T * fps / sum, rounded and clamped; so within half a frame of the share wherever the rounded share is at least 500, at most max(500, T/2) and leaves 500 |
| `Chunks.UnknownSpeedCountsAsOne` | internal/controller/engine/expand.go:430-448 | an agent of unknown speed gets the share of an agent of speed 1 |
| `Chunks.ScaledSpeedsShareAlike` | internal/controller/engine/expand.go:430-453 | scaling all speeds by one positive factor changes no boundary |
| `Chunks.ClampRange` | internal/controller/engine/expand.go:448-461 | every size but the last is the number closest to the rounded share that has at least 500 frames, at most max(500, T/2), and leaves 500; if none does, all but 500 of what is left |
| `Chunks.UnknownSpeedsShareEqually` | internal/controller/engine/expand.go:416-419 | agents without a known speed get equal shares |
| `Chunks.BoundariesTile` | internal/controller/engine/expand.go:420-468 | for any rounded shares and from 500 frames on: one range per agent, contiguous, sizes at least 0 that cover the frames, all but the last at most max(500, T/2), the last at least 500 |
| `Chunks.AdaptiveChunksTileExactly` | internal/controller/engine/expand.go:420-468 | they tile the source exactly from 500 frames on, or with a single agent |
| `Chunks.RechunkingCoversSameFrames` | internal/controller/engine/expand.go:475-512 | re-chunking covers the frames of the boundaries it replaces, exactly unless it splits a source below 500 frames among several agents |
| `Chunks.RechunkedFrames` | internal/controller/engine/expand.go:475-512 | a job is re-chunked exactly if adaptive chunking is on, an agent is listed and some boundary ends above frame 0, and then over all frames up to the highest end |
| `Chunks.TilesAreAllFrames` | internal/controller/engine/expand.go:546-553 | ranges that tile the source, laid end to end, are its frames in order |
| `Frames.PathsDistinct` | internal/controller/engine/expand.go:547-549 | no two files of a job share a path |
| `Frames.ListingIsRows` | internal/db/queries.go:897-920 | the listing of an encode job is its chunk rows in order, then the merge row |
| `Frames.MergeListIsComplete` | internal/controller/grpc/result.go:261-302 | the merge is given the file of chunk 0..n-1 in order, each once, exactly if no row is assigned or cancelled |
| `Frames.MergedFileIsTheSource` | internal/controller/grpc/result.go:291-304 | the merged frames are 0..T-1 in order, whatever the order the chunks were written in |
| `LogHub.LogStreamHub.Subscribe` | internal/controller/api/logstream.go:80-99 | refuses at a cap, otherwise adds the connection to every table and counter |
| `LogHub.LogStreamHub.CheckCap` | internal/controller/api/logstream.go:283-293 | the verdict of subscribe without changing anything |
| `LogHub.LogStreamHub.Release` | internal/controller/api/logstream.go:101-114 | the locked part of a cleanup |
| `LogHub.LogStreamHub.EndCleanup` | internal/controller/api/logstream.go:115-116 | the total is lowered after the lock is released |
| `LogHub.LogStreamHub.PublishTaskLog` | internal/controller/api/logstream.go:121-147 | exactly the listeners with room are sent the entry, the others stop listening, no counter changes |
| `LogHub.StepKeepsInvariant` | internal/controller/api/logstream.go:80-147 | every locked section keeps the counters exact |
| `LogHub.RunInvariant` | internal/controller/api/logstream.go:80-147 | in every interleaving the counters equal the live connections, the total also counts cleanups under way, no zero entry is kept, both caps hold, only live connections of a task listen to it |
| `LogHub.ListenersExactly` | internal/controller/api/logstream.go:91-147 | in every interleaving a connection listens to a task exactly if it was accepted for it and has since been neither cleaned up nor dropped as too slow |
| `LogHub.RefusedExactlyAtCap` | internal/controller/api/logstream.go:84-89 | a subscription is refused exactly if the user or the address has its full share of live connections |
| `LogHub.AllCleanedUp` | internal/controller/api/logstream.go:101-116 | once all cleanups have run every table is empty |
| `LogRotation.RotatingFileWriter.Write` | internal/agent/service/logfile.go:68-82 | the directory after one write, with its rotation |
| `LogRotation.RotatingFileWriter.Rotate` | internal/agent/service/logfile.go:93-115 | the downward shift, the move to .1, the clean-up and the fresh file |
| `LogRotation.RotatingFileWriter.RemoveExcessBackups` | internal/agent/service/logfile.go:117-138 | removes the last names until at most maxBackups are left |
| `LogRotation.RotatingFileWriter.constructor` | internal/agent/service/logfile.go:28-66 | the defaults for non-positive limits, and the current file opened or created |
| `LogRotation.ShiftMoves` | internal/agent/service/logfile.go:100-106 | after the shift backup k+1 is what backup k was |
| `LogRotation.RotationHolds` | internal/agent/service/logfile.go:93-115 | a rotation keeps the newest maxBackups files byte for byte, and its clean-up removes nothing |
| `LogRotation.DirectoryIsSuffix` | internal/agent/service/logfile.go:68-138 | from an empty directory there are min(r, maxBackups) backups, and oldest to newest the files are a suffix of the stream cut between two writes, all of it if r <= maxBackups |
| `LogRotation.GroupsSplitStream` | internal/agent/service/logfile.go:68-82 | every write is in exactly one file, in order |
| `LogRotation.GroupsAreLimited` | internal/agent/service/logfile.go:72-77 | a file past the limit is a single write |
| `LogRotation.RotationsAreNeeded` | internal/agent/service/logfile.go:72-77 | every file but the first starts with a write that the one before it had no room for |
| `BackupOrder.BackupSorts` | internal/agent/service/logfile.go:131-137 | a newer backup sorts before an older one exactly if its number, brought to the same number of digits, is at most the other |
| `BackupOrder.CleanUpSparesOthers` | internal/agent/service/logfile.go:117-138 | the clean-up counts exactly the names that go on from the log's name with a dot, changes no file it keeps and removes no other file |
| `BackupOrder.WriteSparesOthers` | internal/agent/service/logfile.go:68-138 | a write changes no file but the log and the files whose names go on from its name with a dot |
| `BackupOrder.CleanUpKeepsNewestExactly` | internal/agent/service/logfile.go:117-138 | the clean-up of backups 1 to k keeps exactly the newest m if and only if k <= m, or m = 1, or m + 11 is at least the next power of ten after k |
| `Journal.OfflineStore.SaveResult` | internal/agent/service/offline.go:83-91 | appends an unsynced row |
| `Journal.OfflineStore.PendingResults` | internal/agent/service/offline.go:95-114 | the unsynced rows in id order |
| `Journal.PendingIdsComplete` | internal/agent/service/offline.go:95-114 | a row is pending exactly if it is stored and not synced |
| `Journal.OfflineStore.MarkSynced` | internal/agent/service/offline.go:117-120 | marks one row |
| `Journal.OfflineStore.PruneJournal` | internal/agent/service/offline.go:184-201 | deletes exactly the stored, synced rows created before the cutoff |
| `Journal.OfflineStore.SyncResults` | internal/agent/service/runner.go:749-798 | sends a prefix of the pending results and marks all of them if the close is acknowledged, none otherwise |
| `Journal.Runner.PollAndExecute` | internal/agent/service/runner.go:376-429 | a result is successful exactly if there is no error and the exit code is 0; it is sent, or journaled if the report fails, and the agent is idle again |
| `Journal.LossNeedsFailedSend` | internal/agent/service/runner.go:749-798 | in every run with crashes and broken streams a result is lost only if a replay with it in its snapshot was acknowledged after a failed send, before this result was sent |
| `Journal.NothingIsLost` | internal/agent/service/runner.go:749-798 | so in every run without such an acknowledgement a journaled result is still pending or was handled, and pruning removes only handled ones |
| `Journal.HandledInJournalOrder` | internal/controller/grpc/sync.go:22-65 | in every run each replay handles a prefix of its snapshot in journal order, without repetition |
| `Journal.UnsentResultsGetMarked` | internal/agent/service/runner.go:789-793 | wherever a run acknowledges a close after a failed send, it goes on to a run that loses any given result of the snapshot that was neither sent nor handled |
| `Journal.GoneForever` | internal/agent/service/runner.go:749-798 | a lost result that no replay can still handle is never handled |
| `Journal.ResultsCanBeLost` | internal/agent/service/runner.go:776-793 | a run that loses a result for good |
| `Journal.HandledOnce` | internal/agent/service/runner.go:749-798 | in every run in which no replay starts while the result is pending although it was handled or another replay can still handle it, it is handled at most once |
| `Journal.PendingIsHandledAgain` | internal/agent/service/runner.go:749-798 | every run that ends with the result pending goes on to handle it through a new replay, so a second time if it was handled before |
| `Journal.ResultsCanBeHandledTwice` | internal/agent/service/runner.go:776-793 | otherwise delivery is not exactly once: a run that handles one result twice |
| `EncodingStats.StatsTable.Upsert` | internal/db/queries.go:2880-2892 | after any samples every row holds the count, both means and the population standard deviation of all samples of its key |
| `EncodingStats.NewVarianceIsVariance` | internal/db/queries.go:2885-2889 | the updated variance is the population variance, so the guard never cuts |
| `EncodingStats.NewMeanIsMean` | internal/db/queries.go:2883-2884 | the updated mean is the arithmetic mean |
| `EncodingStats.OrderDoesNotMatter` | internal/db/queries.go:2880-2892 | the row does not depend on the order of the samples |
| `VmafSearch.RunVmafTarget` | internal/controller/engine/vmaftarget.go:132-199 | the encodes and the outcome of the search loop |
| `VmafSearch.SearchBisects` | internal/controller/engine/vmaftarget.go:146-203 | for any bounds and scores: every CRF is the rounded middle of its bracket, every further bracket is what the probe before it, half a point or more off the target, leaves over, and the outcome names the last CRF encoded and why it is the last |
| `VmafSearch.ProbesDistinct` | internal/controller/engine/vmaftarget.go:147-199 | on integer bounds every encode is in range and no CRF is encoded twice, whatever the scores |
| `VmafSearch.ProbesLogarithmic` | internal/controller/engine/vmaftarget.go:147-199 | at most floor(log2 n) + 1 encodes for n candidates |
| `VmafSearch.SearchFindsTheEdge` | internal/controller/engine/vmaftarget.go:147-199 | with falling scores every loop head brackets the edge, and an exhausted search chose the highest CRF that meets the target or the lowest that misses it |
| `VmafSearch.ExhaustedChoiceExactly` | internal/controller/engine/vmaftarget.go:147-199 | for integer bounds, an edge e below which all candidates meet the target and from which all miss it, none of them close, and enough passes for the bisection, the outcome is decided before the search: exhausted, with choice e exactly if the bisection towards e probes it with no lower candidate left, and e - 1 otherwise |
| `VmafSearch.ExhaustedChoiceMayMiss` | internal/controller/engine/vmaftarget.go:176-198 | for any scores and integer bounds, a choice that misses is the lowest candidate exactly if no encode met the target; otherwise the CRF below it was encoded and meets the target |
| `VmafSearch.ExhaustedChoiceMisses` | internal/controller/engine/vmaftarget.go:176-198 | scores for which that happens |
| `PathMapping.UncRoundTrip` | internal/controller/analysis/runner.go:100-122 | UNC to Linux and back restores the path, with the base in the casing of the mapping |
| `PathMapping.LinuxRoundTrip` | internal/controller/api/batch.go:153-168 | Linux to UNC and back restores the path exactly |
| `PathMapping.ComesBackExactly` | internal/controller/analysis/runner.go:100-122 | for any list of mappings, a UNC path translated by one of them comes back exactly if the first enabled mapping whose Linux base starts the image leads to the same Windows base and remainder |
| `PathMapping.NestedBasesLoseThePath` | internal/controller/api/batch.go:155-166 | under an enclosing earlier base the path is lost exactly unless the Windows bases are nested in the same way |
| `PathMapping.PrefixCutsAComponent` | internal/controller/analysis/runner.go:107-113 | a share whose name extends the base of a mapping is matched exactly if the prefix has no trailing backslash, and is then translated like a directory inside the share |

## Left out

- Store.JobStore.ClaimNextTask: stated for claims without contention; which row is locked under contention is a choice of the environment in the protocol, so SKIP LOCKED may hand out any eligible row there.
- JobsApi.CreateJob: validation of the request body and the enqueueing of notifications are not part of this model.
- ResultHandling.Server.ReportResult: output validation, metrics, encoding statistics and webhooks are left out, they do not change job or task rows.
- ResultHandling.Server.CheckJobCompletion: the extraction of an HDR result for hdr_detect jobs is left out.
- VmafSearch.ProbesDistinct: stated for integer CRF bounds; with fractional bounds closer than one, the rounded probe can lie outside them.
- ProtocolTheorems.ChainReleasesInOrder: stated for jobs whose predecessor lookup succeeded; ChainRequestsMakeChains says what happens otherwise.
- The condition evaluator of the flow engine: it is an oracle, the set of configurations that hold.
- Database errors: a failing statement ends a thread at an arbitrary point; errors the code ignores are not distinguished from it.
- SQL text, transaction isolation and row scanning: a statement is one atomic step.
- JSON, gRPC and HTTP plumbing, sessions, TLS, webhooks, notifications, the user interface and the desktop client.
- ffmpeg, ffprobe and script rendering: an oracle where a score or a success matters.
- Job archiving and deletion, and the command line tools that write statuses directly: they bypass the guards of the API.
- The replay of offline log lines: it marks lines as synced even if the stream close fails, so it promises nothing of the kind.
- Leader election: the mutual exclusion lives in the advisory locks of the database.
- Rounding of floating-point numbers: reals, or arbitrary rounded values where stated.
- Text outside ASCII: lower-casing and path handling are modelled on ASCII characters.
- Failing file operations of the log writer, and other processes that write to its directory.
