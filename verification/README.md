# Verified model of the GitContribute core

This project models the parts of the `gitcontribute` application that keep an
invariant under interleaving, resumption or optimistic concurrency, and proves
what they promise. It covers:

- **Durable jobs.** `JobStore` is the job row and its guarded updates.
  `JobExecutor` is the executor as a transition system with one program counter
  per submitted job and one for the closer; any interleaving with cancellers,
  reconcilers, the watcher and the heartbeat is a run. `JobExecutorInvariant`
  holds the inductive invariant, `JobExecutorTheorems` and `JobExecutorOutcomes`
  the results, and `JobExecutorObject` the mutex-protected half as a class whose
  methods do what the transition system does in one event.
- **Locks.** `KeyedLocks` is the self-deleting lock table, as a transition
  system and as objects; `MirrorLock` puts the file lock around it.
- **Optimistic writes.** `FacetStore` is the compare-and-swap on one facet,
  `HydrationRace` any number of hydrators racing on it, `Hydration` one
  hydrator's fetch loop.
- **Optimistic reads.** `CorpusRead` is the begin/finish bracket with other
  writers committing between any two reads; `Manifest` is the retry loop over
  the change watch, with the reference check and the choice of validation runs.
- **Batches.** `WorkerPool` is the bounded pool over every schedule,
  `ThreadGroups` the grouping and regrouping, `RequestPlan` the request budget,
  `ThreadBatch` the three together.
- **Check watcher.** `CommitSha` is the head comparison, `Checks` the check
  predicates and the transition list, `CheckWatcher` the polling state machine
  with its confirming reads and single write.
- **Resumable crawls.** `FeedbackIndex` is the page cursor of feedback
  discovery, `ArchiveStore` the effect of one archive hour, `ArchiveCrawl` the
  hourly crawl with its import marks and checkpoint.
- **Text.** `Utf8Prefix`, `PullRequestKeys` (over `Decimal`) and `DraftText`.

Check everything with `dafny verify dfyconfig.toml`.

## Assumptions

- A store transaction is atomic, and job updates are guarded by their source
  state as in `internal/corpus/jobs.go`. A failing store write may have taken
  effect or not; both are modelled.
- Every commit to a source or derived table raises the corpus revision, and
  every commit at all changes the data version a dedicated connection sees.
- The file lock excludes other processes and other descriptors of this one.
- The provider names the successor of a listing page as its next page, where
  feedback discovery is concerned. Archive hours are numbered consecutively.
- A thread-sync call answers for its own task and stays within its grant.
- Timers, deadlines, leases and heartbeats are steps that may happen at any
  time; no timing is proved.
- The digest of a check set is treated as injective, so a signature is the set.

## What turned out not to hold

- A draining `Close` can leave a job queued: it cancels the jobs' own contexts
  before the root context, and a waiter that wakes in between sees a live root
  (`JobExecutorTheorems.CheckRootStrandsIff`, `StrandedRun`).
- `AdvanceFacetCAS` reports an incomplete write as applied although the row kept
  its newer source time and its sequence, so two writers with one baseline can
  both be told they were applied (`FacetStore.IncompleteReportExact`,
  `TwoAppliedReports`). No write that moved the row is lost.
- The watcher's `Persisted` means that no store call failed. A refused
  compare-and-swap is reported the same way
  (`CheckWatcher.PersistedReplacesIff`, `PersistedWithoutReplacing`).
- The bracket of composed reads does not make two reads of operational tables
  atomic; it is sound exactly for at most one of them
  (`CorpusRead.BracketAtomicIff`, `OperationalReadsMix`).
- With `MaxPullRequests` below the page size feedback discovery can stay on one
  page for ever (`FeedbackIndex.SmallBoundStalls`; exactly when, in
  `FirstPageDecides`). A complete status covers the pages of its own run, and
  the generation exactly when that run began at page 1
  (`CompleteCoversGenerationIff`, `EarlierFailureForgotten`). An exhausted
  budget is reported exactly for a refused listing or an item that could be
  retried, requests left or not (`RunIsSound`, `RetryableReportedAsBudget`).
- Importing archive hours out of order does not always end as in order: an hour
  that failed and is imported later overwrites newer weak state
  (`ArchiveStore.HourOrderIff`, `ThreadOrderIff`, `LateHourOverwrites`).
- The short key form loses a repository called `pull_request`
  (`PullRequestKeys.ShortFormRoundTripIff`).
- The first differing line compares raw text, so it can name a line whose only
  difference the comparison forgives (`DraftText.NormalDifferenceIff`,
  `ReportedLineForgivenIff`, `LineEndAloneIsNamed`).

## Model

| member | source | states |
|---|---|---|
| JobStore.RowHistory | internal/corpus/jobs.go:205-443 | Whatever any number of processes do to a job row, in any order: the row stays one that parseJobState accepts, a terminal row never changes again, and a recorded cancellation can only end as cancelled |
| JobStore.SuccessNeedsStart | internal/corpus/jobs.go:242-287 | Every history that ends in success contains a start, and a success write at whose moment no cancellation was recorded |
| JobStore.OperationsTakeEffect | internal/corpus/jobs.go:205-443 | A request stops a queued job at once and marks a running one, reconciliation ends every unfinished one, and a start or transition moves exactly the rows in its source state that no cancellation forbids |
| JobExecutorInvariant.OwnStepOk | internal/app/job_executor.go:348-458 | One step of a submitter or runner, whatever the store answers, keeps what its row may look like at its place, and changes its reservation, slot and registration exactly when it touches the matching counter |
| JobExecutorInvariant.OutsideOk | internal/app/job_executor.go:201-346 | Cancellations, reconciliation by another executor, context cancels and Close keep that agreement too |
| JobExecutorInvariant.StepKeepsInv | internal/app/job_executor.go:149-458 | Every event of every goroutine keeps the invariant of counters, closer and rows |
| JobExecutorInvariant.ReachableInv | internal/app/job_executor.go:89-458 | The invariant holds in every state of every interleaving |
| JobExecutorTheorems.Bounds | internal/app/job_executor.go:149-186 | In every reachable state admittedCount is the number of goroutines holding a reservation and within its limit, registered cancel functions never exceed it, and the goroutines between acquire and release are exactly as many as slots are used, within the concurrency limit |
| JobExecutorTheorems.DrainIsPermanent | internal/app/job_executor.go:215-252 | Once the wait loop saw zero, in every continuation no job is admitted, no goroutine is active and no JobFunc is called any more |
| JobExecutorTheorems.OwnerDeletedAfterDrain | internal/app/job_executor.go:239-243 | When the owner row is gone every goroutine is done, the background loops have ended and the executor is closed |
| JobExecutorTheorems.ParkedCloserHasMover | internal/app/job_executor.go:233-252 | No wakeup is lost: a parked closer has admittedCount > 0 and some active goroutine can take a step of its own |
| JobExecutorTheorems.StepsAdvance | internal/app/job_executor.go:348-444 | Every step of a goroutine, whatever the store answers, brings that goroutine strictly closer to its end |
| JobExecutorTheorems.DrainIsBounded | internal/app/job_executor.go:215-252 | Once Close has begun, all goroutines together take at most 17 more steps per job ever submitted in any interleaving, so the drain cannot go on for ever |
| JobExecutorTheorems.CloseLeavesTerminal | internal/app/job_executor.go:215-243 | After the draining Close every submitted job is terminal unless a store call failed for it, or its waiter woke before the root cancel and left it queued; a success is that of a called function, a failure one of a fault, an interruption or a called function |
| JobExecutorTheorems.CheckRootStrandsIff | internal/app/job_executor.go:357-367 | A waiter that gives up leaves its row unfinished if and only if the root context is still live and the row still queued, which happens only during Close |
| JobExecutorTheorems.StrandedRun | internal/app/job_executor.go:228-231 | A complete run of submit, Close and drain without any store failure that returns with the job still queued |
| JobExecutorTheorems.CalledOnlyWhenClaimed | internal/app/job_executor.go:380-409 | A JobFunc is called at most once per job, and only in the step that moves its row from queued to running |
| JobExecutorTheorems.CancellationWins | internal/app/job_executor.go:413-458 | From any state with a recorded cancellation, in every continuation the row is running or cancelled, never succeeded or failed; it is cancelled once the runner leaves without a store failure |
| JobExecutorOutcomes.OwnOutcome | internal/app/job_executor.go:348-458 | Every step of a goroutine keeps two facts: whatever is cancelled was asked to stop, and an undisturbed job is queued, running, or ended as its function did, place by place |
| JobExecutorOutcomes.CancelledHasCause | internal/app/job_executor.go:357-378 | In every reachable state a cancelled job was asked to stop: the executor is closed, its root context over, or its cancellation requested |
| JobExecutorOutcomes.UndisturbedJobRuns | internal/app/job_executor.go:348-458 | On an open executor a job without cancellation request, reconciliation or store failure has its function called exactly once, and has succeeded if and only if the function returned a storable result, and failed otherwise |
| JobExecutorOutcomes.ResultRecorded | internal/app/job_executor.go:407-439 | What counts as the function's result is what it returned and the marshaller accepted |
| JobExecutorOutcomes.StoppedInTimeNeverSucceeds | internal/app/job_executor.go:411-439 | A job whose own or root context is over before the verdict on its function never succeeds, in any continuation |
| JobExecutorObject.Executor.constructor | internal/app/job_executor.go:113-121 | A new executor holds no reservation, satisfies the object invariant and represents the initial state of the transition system |
| JobExecutorObject.Executor.Reserve | internal/app/job_executor.go:150-164 | Admits if and only if the executor is open, its root context live and fewer than the limit are reserved; then exactly this job is reserved, the count stays within the limit, and the object represents the next state of the transition system wherever it represented one |
| JobExecutorObject.Executor.Register | internal/app/job_executor.go:179-181 | Only a reserved job registers; it becomes cancellable, every other registration is untouched, the invariant holds, and every represented reachable state moves on |
| JobExecutorObject.Executor.Unregister | internal/app/job_executor.go:351-355 | The job is no longer cancellable but keeps its reservation; every other registration is untouched, and every represented reachable state moves on |
| JobExecutorObject.Executor.ReleaseAdmission | internal/app/job_executor.go:245-252 | Exactly this reservation ends, the counter never falls below zero, and the closer is woken if and only if no reservation is left |
| JobExecutorObject.Executor.BeginClose | internal/app/job_executor.go:216-226 | Only the first Close drains; it takes the cancel function of every registered job, all of them reserved, and from then on nothing is admitted |
| JobExecutorObject.ReachableIsValid | internal/app/job_executor.go:149-252 | Every reachable state of the transition system satisfies the object's invariant |
| JobExecutorObject.OwnStepsFitObject | internal/app/job_executor.go:348-355 | In every reachable state the steps that register, unregister and release meet the preconditions of the object's methods, and no other step of a goroutine touches the guarded fields |
| KeyedLocks.StepKeepsInv | internal/acquire/acquire.go:60-83 | Each atomic step of lock and unlock keeps the table, reference count and mutex ownership invariant |
| KeyedLocks.MutualExclusion | internal/acquire/acquire.go:60-83 | In every state of every interleaving at most one thread holds a key, all its users share one entry whose refs is their number, and the table holds exactly the keys in use |
| KeyedLocks.ReleaseDeletesOwnEntry | internal/acquire/acquire.go:74-82 | A release finds the entry it held in the table, removes it if and only if it was the last user, and leaves every other key alone |
| KeyedLocks.WaiterHasProgress | internal/acquire/acquire.go:73-82 | Whoever is registered for a key can move itself or waits for a holder that can unlock |
| KeyedLocks.RegisterCountsUp | internal/acquire/acquire.go:60-71 | The registering step of the transition system counts its key up by one, which is what the table object does |
| KeyedLocks.DeregisterCountsDown | internal/acquire/acquire.go:76-81 | The releasing step counts its key down and drops it at zero, which is what the table object does |
| KeyedLocks.LockTable.Register | internal/acquire/acquire.go:60-71 | The caller gets the live entry of its key or a fresh one, counted once more; other entries and counts are untouched and no two keys share an entry |
| KeyedLocks.LockTable.Deregister | internal/acquire/acquire.go:76-81 | The count of the key drops by one and the entry leaves the table exactly at zero |
| MirrorLock.StepKeepsInv | internal/acquire/acquire.go:286-314 | File lock and keyed lock nest: a call holds its file throughout and the keyed lock only in between |
| MirrorLock.InnerLockNeverContended | internal/acquire/acquire.go:286-314 | Under the file lock the keyed lock of a mirror has exactly one user, never shared with another thread or process and never waited for |
| FacetStore.LatestBounds | internal/corpus/hydration.go:45-50 | The time of a page set is at least every page's and the caller's, and equals one of them |
| FacetStore.CasEffect | internal/corpus/hydration.go:68-140 | Exactly when a compare-and-swap moves the coverage row, and what it leaves: a larger sequence, the write's time and completeness, its own pages for a complete fetch, the stored pages for an incomplete one |
| FacetStore.IncompleteReportExact | internal/corpus/facets.go:38-75 | AdvanceFacetCAS reports success if and only if the sequence matched; the row really moved if and only if the source time is also not older |
| FacetStore.TwoAppliedReports | internal/corpus/facets.go:77-132 | Two writers with the same baseline that are both told their write was applied |
| HydrationRace.StepKeepsInv | internal/app/hydration.go:340-412 | Every step of every hydrator keeps the chain of writes that moved the row |
| HydrationRace.NoLostUpdate | internal/app/hydration.go:340-412 | In every interleaving the writes that moved the row form one chain, each from the sequence the previous left and captured after it; none is applied twice however often it is retried |
| HydrationRace.CompletePayloadSurvives | internal/app/hydration.go:383-400 | The stored pages are always those of the last complete write that moved the row; only a complete write changes them, to its own |
| HydrationRace.OvertakenWriterRefused | internal/app/mcp_pr_health.go:441-449 | A writer overtaken since its baseline changes neither row nor pages |
| Hydration.CollapseSearchText | internal/app/hydration.go:580-592 | The in-place rewrite leaves the slice equal to its collapsed form |
| Hydration.CollapseKeepsDocument | internal/app/hydration.go:580-592 | Collapsing keeps payloads, times and the joined search document, and is idempotent |
| Hydration.FetchPages | internal/app/hydration.go:345-381 | The loop follows the provider's next pages, is complete exactly when the last page named none, stops at the bound or the first failure, and collects exactly the walked pages, their count and their latest time |
| Hydration.HydratePaginatedFacet | internal/app/hydration.go:340-401 | A success reports exactly the walk made; unless the row is newer, the facet then holds page by page the marshalled items and their time, the search texts in order on the first page, or for an incomplete walk the pages it had, all as of the walk's time. An error has its cause, and leaves the facet unchanged or with exactly the write of a finished walk |
| Hydration.WriteWithRetry | internal/app/hydration.go:387-399 | Succeeds if and only if one of four attempts is done, each before it busy and waited out; the write takes effect at most once, busy after committing included |
| Hydration.RepeatedWriteTakesOnce | internal/corpus/retry.go:34-49 | A compare-and-swap repeated with its old baseline leaves row and pages as after the first time |
| Hydration.SourceTimeIsMaximum | internal/app/hydration.go:349-365 | The source time of a walk is the maximum of the thread's time and every item seen |
| Hydration.ObservedPage | internal/app/hydration.go:359-374 | From every request one page: the marshalled items, their search text, and the latest of their times or the thread's |
| Hydration.JoinLaysOut | internal/app/hydration.go:591-591 | The joined document is the texts in order, one line feed between each two |
| Hydration.CollapsedStoresWalk | internal/app/hydration.go:366-396 | The pages written are those of the walk, the non-empty search texts laid out in order on the first page and nowhere else |
| Hydration.WriteLeavesWalk | internal/app/hydration.go:386-400 | A write that takes its effect leaves the pages and time of the walk it was made from, an incomplete one the old pages |
| Hydration.SuccessorWalk | internal/app/hydration.go:345-381 | Where each page names its successor, request i asks for page i + 1 |
| CorpusRead.CountersWitness | internal/corpus/revision.go:24-43 | An unchanged revision proves that no commit touched a revisioned part, an unchanged data version that there was no commit |
| CorpusRead.HistoryWitness | internal/corpus/change_watch.go:28-57 | The same along any history of committed states |
| CorpusRead.BeginCorpusRead | internal/app/mcp_revision.go:21-37 | Begins at the current revision, or refuses exactly the pins that do not resolve or name another revision |
| CorpusRead.FinishCorpusRead | internal/app/mcp_revision.go:42-51 | Passes exactly when the revision is still the one that was begun |
| CorpusRead.ComposedRead | internal/app/mcp_revision.go:21-51 | Under arbitrary interference, with at most one operational part among the reads, an answer equals one atomic read at the returned revision at a moment inside the call; it is given up only when the revision moved |
| CorpusRead.BracketAtomicIff | internal/app/mcp_revision.go:39-42 | What passes the bracket is atomic in every history if and only if at most one of the reads is operational |
| CorpusRead.BracketIsAtomic | internal/app/mcp_revision.go:39-51 | With at most one operational read, everything was read as at that read's moment |
| CorpusRead.OperationalReadsMix | internal/app/mcp_revision.go:39-42 | For any two operational reads, of the same part too, a history that passes the bracket and whose reads no single state answers |
| Manifest.ValidateReferences | internal/app/manifest.go:150-185 | Accepts exactly the predicates all of whose references resolve, and names one that does not |
| Manifest.ReferencesMean | internal/app/manifest.go:150-185 | A kind before the first colon asks for an identity of that kind, whatever the identifier holds; text without a colon asks for nothing |
| Manifest.Prepare | internal/app/manifest.go:56-64 | The revision is read first; a pin is accepted only for a revision between that and the one found later, and rejected only if it does not resolve or names another revision than some state had |
| Manifest.Attempt | internal/app/manifest.go:55-90 | One attempt: a statement to save was assembled at one single state of the whole corpus with the returned revision; another attempt is due only after a concurrent commit; a rejected assembly is one of values read during the call, a dangling reference one of a statement of a single state |
| Manifest.ContributionManifest | internal/app/manifest.go:50-102 | At most three attempts, at most one commit of its own, which is the returned statement; exhaustion means three concurrent commits |
| Manifest.AboveIsStrictOrder | internal/app/manifest.go:335-343 | Identifier order is a strict total order, so the tie-break is well defined |
| Manifest.AbovePrecedes | internal/app/manifest.go:340-340 | A greater identifier is one the other is a proper prefix of, or that has the greater character where they first differ |
| Manifest.LatestValidationRuns | internal/app/manifest.go:335-349 | For every definition and kind with a run, and no other, the identifier of a run no other completed after; among those completing together the others are proper prefixes of it or smaller where they first differ |
| Manifest.SelectionIgnoresOrder | internal/app/manifest.go:335-349 | The selection does not depend on the order of the runs |
| WorkerPool.PoolRefinesSequentialMap | internal/app/mcp_scalable_operations.go:142-190 | For every schedule the result slice at return is the sequential map of the indices handed out, each processed exactly once; without cancellation that is all of them, and nothing can run afterwards |
| WorkerPool.PoolMakesProgress | internal/app/mcp_scalable_operations.go:444-482 | Until it returns, some step of the pool is always possible |
| WorkerPool.EveryStepCounts | internal/app/mcp_pr_health.go:28-53 | Every step brings the pool closer to its return, so every schedule is finite |
| WorkerPool.MapAt | internal/app/mcp_scalable_operations.go:444-482 | Slot i of the sequential map is the outcome of i if i was handed out and untouched otherwise |
| ThreadGroups.GroupThreads | internal/app/mcp_scalable_operations.go:77-93 | One task per repository and kind, every input position in exactly one of them, in input order |
| ThreadGroups.AssignmentUnique | internal/app/mcp_scalable_operations.go:79-93 | Each input belongs to one task only, the one with its repository and kind, at one place |
| ThreadGroups.ThreadView | internal/app/mcp_scalable_results.go:121-134 | A thread is told its task's outcome under its own key: success for success, complete exactly when the task is, failure with the same reason, and no requests |
| ThreadGroups.FanOut | internal/app/mcp_scalable_operations.go:191-204 | Every input gets its own task's outcome under its own key; the error return happens exactly when an outcome was already projected |
| RequestPlan.PlanRequests | internal/app/mcp_scalable_operations.go:111-141 | planned + remaining = budget throughout; every task is funded and runnable, or refused with the reason and the amount left at its turn |
| RequestPlan.PlanIsSound | internal/app/mcp_scalable_operations.go:114-141 | Runnable means stored and at least one request; an exact group is funded wholly or not at all, a repository with its page bound or all that is left; what is left is the budget less the grants before; every refusal names its reason, the need and the rest |
| RequestPlan.MaxPagesFits | internal/app/mcp_scalable_operations.go:101-104 | The page bound is the fewest pages of a hundred that hold the limit, at least one |
| RequestPlan.GrantsAreInTasks | internal/app/mcp_scalable_operations.go:136-140 | The planned total is the sum of the grants recorded in the tasks |
| ThreadBatch.PlanBatch | internal/app/mcp_scalable_operations.go:98-141 | Looks up every task's repository and plans with the page bound of the request |
| ThreadBatch.ScheduleIrrelevant | internal/app/mcp_scalable_operations.go:142-190 | Every schedule of the pool leaves every task its refusal or the answer of its one call |
| ThreadBatch.Summarise | internal/app/mcp_scalable_operations.go:205-224 | Completed counts the complete items, partial means some item is not, requests are counted on task outcomes |
| ThreadBatch.UsedOneMore | internal/app/mcp_scalable_operations.go:207-210 | Only the requests of successful tasks are counted, each once |
| ThreadBatch.FinishExactBatch | internal/app/mcp_scalable_operations.go:190-225 | For every schedule the projection error is unreachable, each thread is answered under its own key from the one task holding it, and requests <= planned <= budget without double counting |
| ThreadBatch.FinishRepositoryBatch | internal/app/mcp_scalable_operations.go:190-225 | A repository batch returns the task outcomes in order within the same bounds |
| ThreadBatch.CompleteIff | internal/app/mcp_scalable_results.go:49-70 | All threads are complete if and only if all task outcomes are |
| CommitSha.FoldIffDecodes | internal/app/mcp_pr_check_wait.go:27-43 | A text equals a head's hexadecimal form up to case if and only if it decodes to it |
| CommitSha.MatchesIffParses | internal/app/mcp_pr_check_wait.go:27-43 | An observed head matches exactly when it parses to the expected one |
| CommitSha.OneHeadMatches | internal/app/mcp_pr_check_wait.go:41-43 | No text matches two heads |
| CommitSha.ShaRoundTrip | internal/app/mcp_pr_check_wait.go:27-39 | A head is printed as forty lower-case hexadecimal digits, and parsing them gives it back |
| CommitSha.ParsedShape | internal/app/mcp_pr_check_wait.go:27-35 | Exactly the texts of forty hexadecimal digits parse, surrounding space aside |
| CommitSha.TrimRemovesSpace | internal/app/mcp_pr_check_wait.go:28-28 | Trimming removes the space around a text and nothing else |
| Checks.ChecksAllTerminal | internal/app/mcp_pr_check_wait.go:291-301 | True exactly for a non-empty list of terminal checks |
| Checks.ChecksHasFailed | internal/app/mcp_pr_check_wait.go:303-310 | True exactly when some terminal check failed |
| Checks.ChecksTerminal | internal/app/mcp_pr_check_wait.go:321-342 | The one-pass loop agrees with both predicates, in either completion mode |
| Checks.VerdictTexts | internal/app/mcp_pr_check_wait.go:344-374 | Which texts finish, pass or fail a check, stated for both directions |
| Checks.CaseDoesNotMatter | internal/app/mcp_pr_check_wait.go:346-362 | An upper-case text and its lower-case form read the same |
| Checks.ChangesShape | internal/app/mcp_pr_check_wait.go:199-207 | The list of signature changes has no equal neighbours and ends in the last signature observed |
| Checks.Transitions.Observe | internal/app/mcp_pr_check_wait.go:198-208 | What is recorded is always the capped list of changes of everything observed, and the flag is set exactly when a change was dropped |
| Checks.RecordedShape | internal/app/mcp_pr_check_wait.go:199-207 | At most 64 transitions, neighbours differ, nothing missing unless flagged |
| CheckWatcher.HistoryFollowsPolls | internal/app/mcp_pr_check_wait.go:193-208 | The transitions are drawn from the check sets of exactly the complete polls that left the watch waiting, in order |
| CheckWatcher.Backend.GetStatus | internal/app/mcp_pr_check_wait.go:170-170 | Each read is counted and answered in turn |
| CheckWatcher.Backend.Persist | internal/app/mcp_pr_health.go:247-283 | The check facet takes one compare-and-swap with the baseline; the call fails exactly when a facet write fails, not when the swap is refused |
| CheckWatcher.SecondFailFastUnreachable | internal/app/mcp_pr_check_wait.go:209-215 | Past the first fail-fast guard a finished set is finished for every check, so the second fail-fast return never happens |
| CheckWatcher.Confirm | internal/app/mcp_pr_check_wait.go:216-281 | At most two more reads; the write happens exactly when both confirm and the baseline can be read; status and reported checks are exact for every case |
| CheckWatcher.Poll | internal/app/mcp_pr_check_wait.go:179-285 | One poll either decides nothing and writes nothing, or ends the watch with a justified answer |
| CheckWatcher.Await | internal/app/mcp_pr_check_wait.go:143-289 | At most 10000 polls and two confirming reads, at most one write, made exactly when poll and both reads confirm; every answer is justified, every error has its cause, and after a persisted answer the stored facet is exactly the reported checks unless another writer or an older observation came in between |
| CheckWatcher.AnswersAreJustified | internal/app/mcp_pr_check_wait.go:160-289 | Persisted: three reads of the expected head, each complete and finished, the last one reported. Succeeded: persisted, and each check's deciding text is success, neutral or skipped. Failed: a reported check's text is one of the failing ones. Superseded: a read saw another head |
| CheckWatcher.CurrentIffParses | internal/app/mcp_pr_check_wait.go:27-43 | For a watch on a commit, a read counts as current exactly when its head parses to that commit |
| CheckWatcher.AnswerIsDetermined | internal/app/mcp_pr_check_wait.go:160-289 | What the reads, the deadline and the store do determines the whole answer |
| CheckWatcher.PersistedReplacesIff | internal/app/mcp_pr_health.go:441-449 | A persisted watch leaves one complete page with the checks' payload as of its observation if and only if no other writer moved the row since the baseline and the observation is dated and not older than the row |
| CheckWatcher.PersistedKeepsReport | internal/app/mcp_pr_health.go:441-449 | For every persisted answer: with no other writer and an observation not older than the row, the stored checks are the reported ones as of the last read |
| CheckWatcher.PersistedWithoutReplacing | internal/app/mcp_pr_check_wait.go:254-259 | A run that reports success and persisted while the stored checks are another writer's |
| FeedbackIndex.Table.Upsert | internal/corpus/pull_request_feedback_coverage.go:159-209 | The stored cursor stays honest; it is replaced exactly when the write lands and it is not overtaken, whether or not the call then reports an error |
| FeedbackIndex.RequestBudget.Take | internal/github/pull_request_workflows.go:31-39 | Takes one request exactly while the limit is not reached |
| FeedbackIndex.IndexOne | internal/app/mcp_pull_request_feedback_index.go:285-326 | Reading one pull request, request by request, uses what it needs up to the limit, and its status tells which |
| FeedbackIndex.ItemsFacts | internal/app/mcp_pull_request_feedback_index.go:180-206 | Of the items of a page: bounds hold; the item bound stops exactly when it is used up before the last item; the budget stops exactly after an item that could be retried; an abort has its cause |
| FeedbackIndex.FitsIff | internal/app/mcp_pull_request_feedback_index.go:180-184 | The item bound is met early if and only if the listing but for its last item uses it up |
| FeedbackIndex.PageEvents | internal/app/mcp_pull_request_feedback_index.go:170-215 | A page that is passed has every pull request tried, and tried to the end if every item of the run so far is complete |
| FeedbackIndex.StartIsHonest | internal/app/mcp_pull_request_feedback_index.go:145-161 | A run resumes exactly an unfinished discovery of the same query; otherwise it starts a later generation at page 1; either way its cursor tells the truth |
| FeedbackIndex.RunIsSound | internal/app/mcp_pull_request_feedback_index.go:169-251 | Every run leaves an honest cursor over everything ever tried, keeps the item, page and request bounds, and ends for a reason; an exhausted budget is reported if and only if a listing was refused or the last item could be retried |
| FeedbackIndex.RunEvents | internal/app/mcp_pull_request_feedback_index.go:169-230 | A run touches exactly the pages from its first to its cursor; all it passed are done, and done to the end if all its items are complete |
| FeedbackIndex.FirstPageDecides | internal/app/mcp_pull_request_feedback_index.go:169-220 | Unless requests or the provider stop it, a run advances or finishes if and only if its first page fits the item bound |
| FeedbackIndex.CompleteMeans | internal/app/mcp_pull_request_feedback_index.go:231-251 | A complete status means that every page the run went through is done to the end |
| FeedbackIndex.ReportedCounts | internal/app/mcp_pull_request_feedback_index.go:188-192 | The reported feedback items are those of all pull requests tried, and the cursor counts the requests of all runs |
| FeedbackIndex.CompleteCoversGenerationIff | internal/app/mcp_pull_request_feedback_index.go:145-158 | For every earlier history a complete run means the whole generation was read to the end, if and only if it began at page 1 |
| FeedbackIndex.EarlierFailureForgotten | internal/app/mcp_pull_request_feedback_index.go:231-251 | Two runs of one generation: page 1 fails and the page bound stops the first, the second reports complete, and page 1 was never read to the end |
| FeedbackIndex.RetryableReportedAsBudget | internal/app/mcp_pull_request_feedback_index.go:203-206 | A run with requests left that reports an exhausted budget for an item the provider asks to try again |
| FeedbackIndex.FullPageBoundAdvances | internal/app/mcp_pull_request_feedback_index.go:169-230 | With an item bound of at least the page size a run not stopped by requests or the provider strictly advances or finishes |
| FeedbackIndex.SmallBoundStalls | internal/app/mcp_pull_request_feedback_index.go:169-206 | For every smaller bound, a provider at which the reported run ends where it began, by the item bound alone if requests suffice |
| FeedbackIndex.IndexItems | internal/app/mcp_pull_request_feedback_index.go:180-206 | The item loop makes exactly the specified attempts and ends as specified |
| FeedbackIndex.IndexPage | internal/app/mcp_pull_request_feedback_index.go:170-215 | One listing and its items as specified, every attempt logged, the stored row still honest |
| FeedbackIndex.VisitPage | internal/app/mcp_pull_request_feedback_index.go:170-230 | One iteration as specified; a moved cursor whose page is done is stored before the next page, and the row stays honest and behind the cursor |
| FeedbackIndex.Discover | internal/app/mcp_pull_request_feedback_index.go:169-230 | The page loop makes exactly the specified run |
| FeedbackIndex.Index | internal/app/mcp_pull_request_feedback_index.go:122-264 | The outcome and every attempt are exactly those of the specified run, errors of the store included; the stored row is honest however it ends, and when the writes hold it is the cursor the run got to, failed or not |
| FeedbackIndex.NextRunResumes | internal/app/mcp_pull_request_feedback_index.go:145-225 | After a run whose writes hold, failed or not, the next run of the query resumes at the page it got to, in the same generation |
| ArchiveStore.StepsIdempotent | internal/app/discovery.go:632-695 | Applying a signal to a repository or thread twice is applying it once |
| ArchiveStore.StepsPreserve | internal/app/discovery.go:632-695 | Archive facts never change a row that has a source time or a column they do not carry, never remove a row, never lose a merge, title or author to an empty one, and leave a thread out exactly when no state is known for it |
| ArchiveStore.NewThread | internal/app/discovery.go:654-695 | What a signal makes of a thread not stored yet, states implied by opened, reopened and closed in any letter case included |
| ArchiveStore.WeakRows | internal/app/discovery.go:632-695 | On a row without source time what the signal says replaces what was there and what it leaves open stays |
| ArchiveStore.ThreadOrderIff | internal/app/discovery.go:654-695 | Two signals for one thread leave the same row in either order if and only if the row is authoritative or they do not compete for its state, title, author or merge; states an action implies and signals too weak to represent the thread included |
| ArchiveStore.RepoOrderIff | internal/app/discovery.go:632-652 | Two signals for one repository commute if and only if the row is authoritative, one of them has no id, or the ids are equal |
| ArchiveStore.HourOrderIff | internal/app/discovery.go:559-630 | Importing two hours in either order leaves the same rows if and only if that holds for every repository and thread both name |
| ArchiveStore.LateHourOverwrites | internal/app/discovery.go:654-695 | The failing case: on a row without source time the state of the hour imported last wins, so an hour that failed and is imported later brings its older state back |
| ArchiveStore.Gather | internal/app/discovery.go:442-451 | Per repository and per thread the last event of the hour is kept, and every thread's repository is present |
| ArchiveStore.LastOfIsLast | internal/app/discovery.go:443-446 | The signal kept for a repository is the last event that names it |
| ArchiveStore.LastOfThreadIsLast | internal/app/discovery.go:446-449 | The signal kept for a thread is the last event that names it |
| ArchiveStore.InterruptedImportResumes | internal/app/discovery.go:559-630 | An hour applied partly and then again in full ends as if applied once |
| ArchiveCrawl.FlushRepos | internal/app/discovery.go:559-593 | In whatever order the repositories of an hour are taken, the rows end as if each signal were applied to the old row; a store failure leaves some of them applied and the others untouched |
| ArchiveCrawl.FlushThreads | internal/app/discovery.go:594-629 | The same for threads, in any order; the missing-repository error needs a thread without its repository |
| ArchiveCrawl.FlushHour | internal/app/discovery.go:559-630 | The missing-repository error is unreachable, success applies the whole hour, a store failure part of it |
| ArchiveCrawl.Stats.RecordFailure | internal/app/discovery.go:548-551 | Counts a failure and freezes the checkpoint |
| ArchiveCrawl.Stats.AdvanceCheckpoint | internal/app/discovery.go:553-557 | Moves the checkpoint only before the first failure |
| ArchiveCrawl.Stats.CountSkipped | internal/app/discovery.go:421-431 | considered = imported + skipped + failures, requests = imported + failures, and the checkpoint is the end of the longest marked prefix, all kept |
| ArchiveCrawl.Stats.CountFailed | internal/app/discovery.go:434-457 | The same when an hour fails; the checkpoint stays before it |
| ArchiveCrawl.Stats.CountImported | internal/app/discovery.go:459-466 | The same when an hour is imported |
| ArchiveCrawl.ImportHour | internal/app/discovery.go:434-466 | An hour is marked only after all of it was applied; a failed hour changes nothing; an abort has applied part of it or all |
| ArchiveCrawl.InterruptedHourResumes | internal/app/discovery.go:459-464 | Importing an hour again after an interruption has the effect of one import |
| ArchiveCrawl.Crawl | internal/app/discovery.go:414-467 | A completed run looked at consecutive hours up to the end or its budget, counted each once, marked exactly the hours it applied, in turn, and its checkpoint ends the longest marked prefix; a failed run leaves what a shorter one would, apart from its last hour |
| ArchiveCrawl.MarkedHoursStayDone | internal/app/discovery.go:424-435 | A marked hour is never fetched again, by the run that marked it or a later one, however either ends |
| ArchiveCrawl.RunFetches | internal/app/discovery.go:424-435 | Any run, completed or failed, fetches only unmarked hours, none twice, and keeps every mark |
| Utf8Prefix.ValidIff | internal/app/mcp_deepwiki.go:81-81 | What counts as valid text is exactly what encodes a sequence of characters by section 3 of RFC 3629 |
| Utf8Prefix.EncodedIsFront | internal/app/mcp_deepwiki.go:81-81 | An encoded character is the one recognised at the front of any text it begins |
| Utf8Prefix.FrontIsEncoded | internal/app/mcp_deepwiki.go:81-81 | Whatever is recognised at the front is an encoded character |
| Utf8Prefix.BoundaryLeavesValid | internal/app/mcp_deepwiki.go:77-85 | Cutting a text after a valid prefix leaves a valid rest exactly when the text is valid |
| Utf8Prefix.BoundaryNearby | internal/app/mcp_deepwiki.go:77-85 | Valid text has a character boundary within three bytes below any limit |
| Utf8Prefix.ValidPrefix | internal/app/mcp_deepwiki.go:77-85 | The value itself when it fits, else the longest valid prefix within the limit; valid text gives up at most three bytes and is cut between characters |
| Utf8Prefix.CompactBody | internal/app/mcp_pull_request_feedback_search.go:116-126 | A compacted body is valid text of at most 516 bytes: a prefix of at least 509 bytes for valid input, and the mark |
| Utf8Prefix.ThreeBytesLost | internal/app/mcp_deepwiki.go:77-85 | Three bytes can indeed be lost |
| Decimal.AtoiOfItoa | internal/app/mcp_job_artifacts.go:319-322 | Reading a printed number, signed or not, gives it back exactly when it fits 64 bits |
| PullRequestKeys.PortfolioResultRefs | internal/app/mcp_job_artifacts.go:312-331 | The loop collects the references of the entries that parse, in order |
| PullRequestKeys.KeyTexts | internal/app/mcp_thread_facets.go:251-257 | The full key reads owner/repo/pull_request#number, the short one owner/repo#number |
| PullRequestKeys.FullFormRoundTrip | internal/app/mcp_thread_facets.go:251-257 | Parsing a printed key gives the reference back for every slash-free owner and every repository and number, number signs in names included |
| PullRequestKeys.ListRoundTrip | internal/app/mcp_job_artifacts.go:312-331 | The same for every list of references |
| PullRequestKeys.ShortFormRoundTripIff | internal/app/mcp_authored_sync.go:82-87 | The short form round-trips if and only if the repository name does not end like the kind; for a slash-free name, if and only if it is not pull_request |
| PullRequestKeys.ParsedIsProper | internal/app/mcp_job_artifacts.go:314-328 | Every parsed reference is well formed, and its printed key parses to it again |
| DraftText.TwoPassesAreOne | internal/app/draft_verification.go:85-87 | The two replacements equal one pass over CR LF, CR and LF |
| DraftText.NormaliseIsIdempotent | internal/app/draft_verification.go:85-87 | Normalised text has no CR and is its own normal form; exactly the texts without CR are normal |
| DraftText.MatchIsEquivalence | internal/app/draft_verification.go:81-92 | Not being a mismatch is an equivalence relation, and every text matches its normal form |
| DraftText.SplitIff | internal/app/draft_verification.go:95-95 | The lines of a text are the only list without line feeds that joins to it |
| DraftText.FirstDifferingLine | internal/app/draft_verification.go:94-108 | Zero exactly for equal texts, otherwise the line before which all agree and which differs or is missing |
| DraftText.FirstDifferenceUnique | internal/app/draft_verification.go:94-108 | There is only one such line |
| DraftText.NormalDifferenceIff | internal/app/draft_verification.go:81-108 | The first line in which the normalised texts differ is never before the reported one, and is the reported one if and only if no earlier line holds a CR except at its end and what begins there differs up to the first CR |
| DraftText.ReportedLineForgivenIff | internal/app/draft_verification.go:81-108 | Without CR the reported line is the first the comparison tells apart; with undivided lines it is forgiven if and only if the two lines are equal up to one CR at their end |
| DraftText.LineEndAloneIsNamed | internal/app/draft_verification.go:63-79 | A verification whose titles differ and whose bodies match once normalised reports line 1, although no normalised line differs |
| DraftText.VerdictUnique | internal/app/draft_verification.go:63-79 | The two documents determine the verdict and its line |
| DraftText.Verify | internal/app/draft_verification.go:63-79 | Exact, normalised or different, decided exactly; the line belongs to the bodies and is zero exactly when only the titles differ |

## Left out

- SQLite, GitHub, git, network and filesystem calls: replaced by the stores and scripted providers above.
- Goroutines, mutexes and channels as such: Dafny has no concurrency, so the executor, the locks, the pool and the racing hydrators are transition systems; only the executor's and the lock table's critical sections are also methods on objects.
- JSON, SHA-256, URIs, recovery plans, messages and output copying; a payload or digest is an opaque value.
- Job owner rows other than their deletion by Close, job events, progress reports, and the executor's configuration defaults.
- Coverage rows deleted or rewritten by paths other than the two compare-and-swap writes; the workflow facets written without compare-and-swap.
- The pull-request details facet, the issue timeline and its resolution step (`hydrateIssueTimeline`): the paginated facet shows the same baseline, fetch and write.
- The other five facets of a status snapshot and the portfolio signals: each is written like the check facet.
- The observed head, observation time and reason texts of a watch, and the parsing of its timeout and interval.
- `indexRepositoriesBatch`, `hydrateThreadsBatch`, `syncRepositoryContext` and `syncPullRequestStatusBatch` beyond their pool, which is the one modelled.
- A failing read of the revision, the change watch or the pin, and a failing save of a manifest: error returns after at most the one commit.
- Manifest assembly (`addManifestWorkspace` to `addManifestDrafts`): a function of what it reads.
- Two processes running feedback discovery of one repository at once; the discovered count, last error and timestamps of its row, and the repository row it may create first.
- The line reader of an archive file, event normalisation and the run record; the columns an archive fact never touches; several sources (import marks are per source).
- Search and repository crawls, `budgetedRepositorySearch`, clustering, similarity, ranking, commit planning, lens and radar.
- `syncBatchReferences` and `boundedArtifactReferences`: truncation to a bound.
- MirrorLock.StepKeepsInv: a failed or cancelled attempt on the file lock changes nothing and is no step.
- HydrationRace.NoLostUpdate: speaks of writes that moved the row; a write that is merely reported as applied can be one that did not (see above).
- ArchiveCrawl.Crawl: counts events per hour only, not in total.
