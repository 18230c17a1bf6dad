# Verified models of the daemon's listing service and the API's scheduling, usage and task-key services

This project models the parts of the repository whose correctness depends on interleavings, on arithmetic or on
exact text, and proves what those parts are for. Functions give one committed step each; classes hold the fields
the source updates in place, and their methods are proved to take exactly those steps; the theorems quantify over
every input, every reachable state or every run.

- **Recursive listings** (`Listing`, `Coordinator`, `CoordinatorSafety`, `CoordinatorFreshness`,
  `CoordinatorResults`, `CoordinatorLifecycle`, `CoordinatorExample`, `FileService`). Callers, executors, expiring contexts, invalidations,
  replaced roots and re-pointed root links interleave on one shared state. What is done under the service mutex is one
  step; resolving a root, reading its identity, waiting, checking and cancelling are steps of their own. An executor reads
  the tree as often as it likes, while the tree changes; the only thing asked of listing code is that it lists a tree that
  stays put.
- **Shallow listings and their cache** (`CachePaths`, `DirectoryCache`, `CachedListing`, `CacheAgreement`,
  `CacheFreshness`, `CacheExact`). A reader's two resolutions of the root, its lookup, reads, store and final check are
  separate steps, between which roots are replaced, root links re-pointed and the contents behind the context link
  changed, all unannounced. Readers and changes name directories by any text; `Where` is the directory such a text
  resolves to, and the cache files it under its normalized text. The change model is explicit: a change at a place below
  the root alters only the listings of that place, of what is below it and of its parent, and is one step with its
  invalidation. A clean path is relative, without an empty, `.` or `..` segment, outer white space or backslash; `""` is
  the root.
- **Scheduled jobs** (`ScheduledJobs`, `ScheduledJobProtocol`, `ScheduledJobOrder`, `ScheduledJobRuns`,
  `ScheduledJobRows`, `ScheduledJobStore`). Tables are maps, each guarded statement is one step that evaluates its guard again, and claim,
  fast-forward and resume read in one step and write in a later one. `Cron` (with `Text`) parses expressions and finds
  the next minute, which supplies the one fact the protocol needs.
- **Token usage** (`TokenUsage`), **local-task keys** (`TaskPrefix`, `TaskKeys`, `TaskKeyService`), **renames**
  (`Renames`), **CSV export** (`Csv`), **schedule refresh** (`Refresh`), **queue publishing** (`SendQueue`) and
  **fuzzy search** (`Search`), with `Sets` and `Text` shared.

Where a plausible property does not hold of the code, the code is kept, a lemma gives a concrete failing input or run,
and another says exactly when the property holds:

- A `followup` link can lead to a scan that was created earlier: the canonical root may change between the check that
  ends one round and the identification that starts the next (`file_list_coordinator.go`, lines 103 and 93).
  `LinkPointsBack` is such a run, `BackwardLinkExact` the condition. Chains are still acyclic, because they climb in the
  order executors return (`FollowupsAreAcyclic`).
- A caller can be refused with "workspace root or context link changed" although its root, link and directory never
  moved: it inherits a followup that another caller, whose link was re-pointed, set to a scan of another key, or it joins
  a scan opened under the root's previous directory. `RefusedWithoutChange` is such a run; `CheckRefusesExactly`,
  `ForeignJoinExactly` and `RefusedExactly` give the condition at the check, at the join and over a whole call. The
  comment above `joinRecursiveScan` promises such waiters a shared covering snapshot.
- The cache can serve a stale listing for a directory written in an unusual way, such as `./a` (`DotPathGoesStale`), or
  another directory's listing for a name with an outer blank (`BlankNamesCollide`). `CacheExactly` gives the condition
  for any set of paths that readers list and changes announce, `PathExactly` the one for a single path beside clean ones.
- A directory put in a root's place can be served the old root's listings, because identities are compared within one
  call only and the store compares only the generation: a listing cached before (`ReplacedRootIsStale`), or one that was
  already validated and is stored afterwards (`StoredAfterReplace`). `ReplaceExactly` says that there is no third way.
- A shallow snapshot can be reported fresh with another root's listing, when the root's name is re-pointed and pointed
  back during the call (`FlippedRootIsStale`), or with an outdated one below the context link (`DriftedContextIsStale`);
  `FreshExactly` is the condition.
- With resume's read and write apart, `lastScheduledFor < nextRunAt` can break (`SplitResumeBreaksOrder`); `OrderExactly`
  says in which runs it does. Only the unique index then refuses the second claim (`NoDoubleClaim`).
- A deleted job can come back and be claimed, because pause, disable and resume check it in one statement and write in
  another (`DeletedJobIsClaimed`); `RevivedExactly` says that only such late writes do it.
- A refresh request made on a live context can be lost (`RequestLostWithWorker`); `LostExactly` says which requests are,
  and `PendingButServed` that a request pending on a dead context need not be.
- Weekday names skip the range check, so that SUN is accepted as a month (`SundayIsNoMonth`, condition in
  `BoundsExact`).
- Usage keys with a bar inside a field can be added up as one (`JoinedKeysCollide`, condition in `KeyTextExactly`), and
  the database refuses an upload that spells one hour in two ways (`MillisecondsAreRefused`, condition in
  `RefusedExactly`).

The CSV printer loses a last line of one empty cell (`RoundTrip`); every export has more columns, so none is affected.

## Model

| member | source | states |
|---|---|---|
| `CoordinatorFreshness.Linearizable` | apps/cli/internal/files/file_list_coordinator.go:85-226 | In every run, every listing ListWithProgress returns, and every one ListSnapshot returns as fresh, equals the listing of the whole tree at one instant inside the call, and comes from a scan of the same key whose generation is no older than any invalidation completed before the call. |
| `CoordinatorFreshness.CheckAccounted` | apps/cli/internal/files/file_list_coordinator.go:206-225 | The generation check is that instant: a snapshot found clean there lists the current tree, or the root the caller identified is gone for good and the final identity check will refuse it. |
| `CoordinatorFreshness.RunTracked` | apps/cli/internal/files/file_list_coordinator.go:85-226 | The whole inductive invariant holds after every run: registration, links, waiter counts, honesty of every scan about the tree it saw, and evidence for every clean outcome. |
| `CoordinatorFreshness.OneExecutorPerKey` | apps/cli/internal/files/file_list_coordinator.go:123-167 | In every reachable state at most one executor runs per key, and a scan is registered exactly while its executor has not returned, cancelled or not. |
| `CoordinatorFreshness.CancellationIsIsolated` | apps/cli/internal/files/file_list_coordinator.go:169-219 | No caller ends with a cancellation or deadline error unless its own context has that error, and `waiters` is exactly the number of callers between join and leave. |
| `CoordinatorFreshness.FollowupsAreAcyclic` | apps/cli/internal/files/file_list_coordinator.go:121-139 | No chain of followup links returns to its start; chains within one key climb in creation order. |
| `CoordinatorFreshness.ChainsClimb` | apps/cli/internal/files/file_list_coordinator.go:121-139 | Along any chain of links the executors return in order, the last one possibly still running. |
| `CoordinatorFreshness.GenerationsOnlyGrow` | apps/cli/internal/files/file_service.go:72-78 | Between any two states of a run generations never decrease and callers never disappear. |
| `CoordinatorResults.ResultsExplained` | apps/cli/internal/files/file_list_coordinator.go:85-226 | Every listing a call returns, fresh or stale, is what a scan of its key ended with after the call began, and the root of a stale one has been invalidated since that scan was opened; an error that is neither the caller's own context error nor a changed root comes from reading identities or from a scan of the path that ended during the call. |
| `CoordinatorResults.InterimExplained` | apps/cli/internal/files/file_list_coordinator.go:81-84 | Interim listings are shown by ListWithProgress only, and each is the outdated listing of a scan of the path that ended during the call. |
| `CoordinatorResults.ReturnsExactly` | apps/cli/internal/files/file_list_coordinator.go:97-113 | At every step of every run, a call returns a listing if and only if its last check finds the root's name and directory as they were identified and the listing is clean, or good enough for a ListSnapshot call with a live context. |
| `CoordinatorResults.FinalConfirmed` | apps/cli/internal/files/file_list_snapshot.go:46-55 | A returned listing is for the key its root led to at an instant after the scan had ended. |
| `CoordinatorResults.InterimExactly` | apps/cli/internal/files/file_list_coordinator.go:146-156 | At every step, interim listings grow exactly when ListWithProgress settles a dirty listing with a live context and shows it, and the root is then as it was identified. |
| `CoordinatorResults.RetriesExplained` | apps/cli/internal/files/file_list_coordinator.go:179-219 | A caller goes round again only after an executor that was cut short or, in ListWithProgress, after an invalidated listing; no scan it waits for had ended before the call. |
| `CoordinatorResults.ExpiredCallersEnd` | apps/cli/internal/files/file_list_coordinator.go:85-112 | Once its own context has ended, a caller takes at most eleven more steps, whatever others do. |
| `CoordinatorResults.ExpiredNeverBlocked` | apps/cli/internal/files/file_list_coordinator.go:196-205 | Until it has returned, such a caller always has a next step of its own. |
| `CoordinatorResults.ContextEnds` | apps/cli/internal/files/file_list_coordinator.go:196-205 | A context's error stays, and a caller woken after it does not look at the result. |
| `CoordinatorResults.WorldMoves` | apps/cli/internal/files/file_service.go:72-78 | What the outside does to trees, generations, identities and links: only changes are announced. |
| `CoordinatorResults.LastLeaverCancels` | apps/cli/internal/files/file_list_coordinator.go:169-177 | In every reachable state, the caller that leaves goes on to cancel the executor if and only if nobody else waits for the scan. |
| `CoordinatorResults.CanceledExactly` | apps/cli/internal/files/file_list_coordinator.go:169-177 | Over every run, an executor's context is cancelled if and only if such a caller has taken that step. |
| `CoordinatorSafety.BackwardLinkExact` | apps/cli/internal/files/file_list_coordinator.go:123-139 | A newly set followup is younger than its predecessor if and only if the joined key has no registered scan older than the predecessor. |
| `CoordinatorExample.LinkPointsBack` | apps/cli/internal/files/file_list_coordinator.go:89-139 | A run whose first 23 steps link a scan to an older one that is still running. |
| `CoordinatorLifecycle.CheckRefusesExactly` | apps/cli/internal/files/file_list_coordinator.go:206-212 | In every reachable state, the identity check of a woken caller refuses if and only if its scan was opened for another key, or under an earlier directory in the root's place. |
| `CoordinatorLifecycle.ForeignJoinExactly` | apps/cli/internal/files/file_list_coordinator.go:123-139 | A caller comes to wait for another key's scan if and only if its previous scan has a followup of another key. |
| `CoordinatorLifecycle.RefusedExactly` | apps/cli/internal/files/file_list_coordinator.go:85-226 | Over every run, a caller whose link, root and directory never moved during its call, and which its own context did not end, is refused for a changed root if and only if some join gave it a scan of another key or of another directory and it read that scan. |
| `CoordinatorLifecycle.CallFollowed` | apps/cli/internal/files/file_list_coordinator.go:85-226 | The invariant behind it, at every step of the call: keys and identities stay the caller's own, and a refusal is under way exactly after such a check. |
| `CoordinatorExample.RefusedWithoutChange` | apps/cli/internal/files/file_list_coordinator.go:121-139 | A run of 35 steps in which a caller of an unlinked, untouched root is refused because another caller's link was re-pointed. |
| `CoordinatorSafety.JoinKeeps` | apps/cli/internal/files/file_list_coordinator.go:123-144 | Joining keeps registration and links consistent and returns a scan of the caller's path, whether it inherits a followup, joins the registered scan or opens one. |
| `CoordinatorSafety.FinishKeeps` | apps/cli/internal/files/file_list_coordinator.go:158-167 | An executor's return keeps registration and links consistent: later links are only set to executors that return later. |
| `CoordinatorSafety.CountedKept` | apps/cli/internal/files/file_list_coordinator.go:138-172 | Every step keeps each scan's waiter count equal to the number of callers attached to it. |
| `CoordinatorSafety.SafeKept` | apps/cli/internal/files/file_list_coordinator.go:85-226 | Every step of every goroutine keeps the structural invariant, and never renames a scan or changes a result once it is published. |
| `FileService.Service.JoinRecursiveScan` | apps/cli/internal/files/file_list_coordinator.go:123-144 | On real objects, the critical section ends in exactly the state and scan of the machine's join step, and starts an executor exactly when there was nothing to join. |
| `FileService.Service.LeaveRecursiveScan` | apps/cli/internal/files/file_list_coordinator.go:169-177 | Takes one waiter off this scan and nothing else, and reports whether it was the last. |
| `FileService.Service.CancelScan` | apps/cli/internal/files/file_list_coordinator.go:174-176 | Marks this scan cancelled and nothing else, in a step of its own after the mutex is released. |
| `FileService.Service.FinishRecursiveScan` | apps/cli/internal/files/file_list_coordinator.go:160-165 | Publishes the result, unregisters the key and closes `done` as one step of the machine. |
| `FileService.Service.IsDirty` | apps/cli/internal/files/file_list_coordinator.go:221-223 | True exactly when the root's generation is not the one the scan started at. |
| `FileService.Service.Invalidate` | apps/cli/internal/files/file_service.go:72-78 | Together with the tree change it announces, is the machine's Change step: only that root's generation moves, by one. |
| `CacheAgreement.CacheRefinesReading` | apps/cli/internal/files/file_list.go:76-112 | In every run whose readers and changes use compatible paths, whatever is re-pointed or drifts, and in which the root is replaced only while the path's entry is vacant, a cache hit returns exactly what listing the denoted directory in the current tree returns. |
| `CacheAgreement.CleanPathsCompatible` | apps/cli/internal/files/file_cache.go:38-75 | Clean paths are compatible with clean announcements, so the theorem holds for them. |
| `CacheFreshness.FreshShallowSnapshot` | apps/cli/internal/files/file_list_snapshot.go:77-86 | Under the same conditions a shallow snapshot reported fresh lists what it was asked for at the instant of its last generation check, cached or not, if its two resolutions of the root agree and a context it lists has not drifted. |
| `CacheFreshness.FreshTold` | apps/cli/internal/files/file_list_snapshot.go:77-86 | A shallow snapshot is reported as fresh if and only if no change of its root was announced since the call began. |
| `CacheFreshness.StoredIsChecked` | apps/cli/internal/files/file_list.go:63-109 | Whatever is about to be stored was read while the name led to the directory it was opened under. |
| `CacheFreshness.ReturnedIsChecked` | apps/cli/internal/files/file_list_snapshot.go:46-55 | Whatever is returned was checked against the directory that was resolved first. |
| `CacheFreshness.LookupExactly` | apps/cli/internal/files/file_list.go:83-92 | A lookup takes the entry of the normalized path if there is one, and otherwise has the directory read at the current generation. |
| `CacheFreshness.OutsideMoves` | apps/cli/internal/files/file_service.go:72-78 | What the outside does to trees and contexts: only changes move the generation and the cache. |
| `CacheFreshness.NamesMove` | apps/cli/internal/files/file_list_coordinator.go:29-39 | Identities change only by replacing a root, and where a name leads only by re-pointing it. |
| `CacheFreshness.ReadersAdmitted` | apps/cli/internal/files/file_service.go:84-111 | No call lists git metadata, and what the context link leads to is listed under the link's own name only. |
| `CacheAgreement.RunInv` | apps/cli/internal/files/file_service.go:52-78 | Over every such interleaving an entry agrees with the tree, a reader that saw one generation and identity saw one tree, and what is about to be stored is current. |
| `CacheAgreement.InvalidationExact` | apps/cli/internal/files/file_service.go:72-78 | A change announced by clean paths drops a clean directory's listing if and only if one of them can alter it, and a listing that stays is the new tree's. |
| `CacheAgreement.DropsWhatChanges` | apps/cli/internal/files/file_cache.go:43-56 | For a clean path, the directories dropped are exactly those the change model lets it alter. |
| `CacheAgreement.AltersMeans` | apps/cli/internal/files/file_cache.go:43-75 | The change model in segments: a change alters what lies at it or below it, and its parent. |
| `CacheExact.CacheExactly` | apps/cli/internal/files/file_cache.go:17-75 | For any set of paths readers list and any set of paths changes announce: every hit in every run, with any listing code, agrees with the tree if and only if each announcement drops the entries of all it alters and no two directories share an entry. |
| `CacheExact.PathExactly` | apps/cli/internal/files/file_cache.go:64-66 | Any text for a clean directory, listed beside clean paths, always hits right if and only if it normalizes to the directory's name. |
| `CacheExact.StaleRun` | apps/cli/internal/files/file_list.go:83-109 | For every path and announcement that miss the condition, a run with a stale hit. |
| `CacheExact.SharedRun` | apps/cli/internal/files/file_cache.go:17-36 | For any two directories that share an entry, a run in which one is served the other's listing. |
| `CacheExact.DotPathGoesStale` | apps/cli/internal/files/file_cache.go:29-62 | The run for `./a`: its entry survives a change announced as `a`. |
| `CacheExact.BlankNamesCollide` | apps/cli/internal/files/file_cache.go:17-36 | A listing stored for `a` is served for ` a`. |
| `CacheExact.ReplaceExactly` | apps/cli/internal/files/file_list.go:54-112 | At every reachable state: replacing the root is harmless for a path, whatever the new directory holds and whatever compatible steps follow, if and only if nothing is cached for the path and no reader is about to store under its entry at the current generation. |
| `CacheExact.ReplacedRootIsStale` | apps/cli/internal/files/file_list.go:63-88 | A run in which the replaced root's cached listing is served. |
| `CacheExact.StoredAfterReplace` | apps/cli/internal/files/file_list.go:105-109 | A run in which nothing is cached when the root is replaced, and a listing validated before is stored and served after. |
| `CacheExact.FreshExactly` | apps/cli/internal/files/file_list_snapshot.go:17-44 | No snapshot of a path is wrongly reported fresh, in any run and with any listing code, if and only if the two resolutions of the root agree and the path is not below the context link. |
| `CacheExact.FlippedRootIsStale` | apps/cli/internal/files/file_list_snapshot.go:23-37 | For any two roots and any path, a run that is about to report one root's listing as the other's fresh one. |
| `CacheExact.DriftedContextIsStale` | apps/cli/internal/files/file_list.go:77-80 | For any path below the context link, a run that is about to report an outdated listing as fresh. |
| `CachePaths.WhereIsDirectory` | apps/cli/internal/files/file_service.go:84-111 | Whatever text resolves, resolves to a directory name without empty, `.` or `..` segments. |
| `CachePaths.InsideMeans` | apps/cli/internal/files/file_cache.go:49-54 | A cached name lies inside another exactly when its segments go on from the other's. |
| `CachePaths.ParentMeans` | apps/cli/internal/files/file_cache.go:68-75 | The parent has all segments but the last. |
| `CachePaths.UpUndoesDown` | apps/cli/internal/files/file_service.go:84-111 | Going down and up again leads back, and going up from the root leads out. |
| `CachePaths.CleanDenotesItself` | apps/cli/internal/files/file_service.go:167-172 | A clean path denotes the directory it spells. |
| `CachePaths.TidyIff` | apps/cli/internal/files/file_cache.go:64-66 | Normalization leaves a path alone if and only if it has no outer white space, no outer slash and no backslash. |
| `DirectoryCache.FileCacheStore.GetDirectory` | apps/cli/internal/files/file_cache.go:17-27 | Returns the stored listing of the normalized path, and says whether there is one. |
| `DirectoryCache.FileCacheStore.StoreDirectory` | apps/cli/internal/files/file_cache.go:29-36 | Sets one entry of one workspace and keeps all others. |
| `DirectoryCache.FileCacheStore.InvalidatePaths` | apps/cli/internal/files/file_cache.go:38-62 | The nested loops keep exactly the directories no given path drops, and remove the workspace when nothing is left or the root is named. |
| `DirectoryCache.DropSubtree` | apps/cli/internal/files/file_cache.go:49-54 | Deleting while ranging over the map, in any order, removes the path and everything below it and nothing else. |
| `DirectoryCache.WorkspacesHoldListings` | apps/cli/internal/files/file_cache.go:29-62 | No workspace is kept without a listing. |
| `ScheduledJobProtocol.NoDoubleClaim` | apps/api-service/src/services/node-scheduled-job-service.ts:110-219 | Over every interleaving of all operations, with claim, fast-forward and resume split into read and write, scheduled runs and committed claims are the same occurrences, each exactly once. |
| `ScheduledJobProtocol.ExactlyOnceKept` | apps/api-service/src/db/schema.ts:401-403 | Every single step keeps that correspondence, because a claim that meets the unique index rolls back. |
| `ScheduledJobRows.ClaimedExactly` | apps/api-service/src/services/node-scheduled-job-service.ts:142-205 | At every step of every run, an occurrence is claimed if and only if a claim's write finds the job row active, on the claim's node and at the due instant, and no scheduled run of that occurrence. |
| `ScheduledJobRows.ClaimWrites` | apps/api-service/src/services/node-scheduled-job-service.ts:142-205 | What a claim then leaves in every column of the job row and of the new run row, and that no other row changes. |
| `ScheduledJobRows.ClaimBegan` | apps/api-service/src/services/node-scheduled-job-service.ts:120-141 | What a claim writes it has read at an earlier step, at most a minute after the occurrence fell due, with the next occurrence after that read. |
| `ScheduledJobRows.CallsAreSteps` | apps/api-service/src/services/scheduled-job-service.ts:241-494 | The machine leaves nothing out: whatever the services can be asked for is a step, at any time and in any state. |
| `ScheduledJobRows.AdvancedExactly` | apps/api-service/src/services/node-scheduled-job-service.ts:244-283 | A fast-forward's write moves the job if and only if the row is still active, on the node and at the instant that was read; only `nextRunAt` changes. |
| `ScheduledJobRows.AdvanceBegan` | apps/api-service/src/services/node-scheduled-job-service.ts:244-254 | It has read an overdue active job at an earlier step. |
| `ScheduledJobRows.UpdateWrites` | apps/api-service/src/services/scheduled-job-service.ts:305-358 | An update stores each given field, keeps the others, recomputes `nextRunAt` exactly when the schedule is given or the job is active, and is refused exactly for a missing or deleted job, an invalid schedule or one without a next run. |
| `ScheduledJobRows.CreateWrites` | apps/api-service/src/services/scheduled-job-service.ts:241-276 | Creating leaves one new active row with its next run and no history. |
| `ScheduledJobRows.ResumeWrites` | apps/api-service/src/services/scheduled-job-service.ts:375-391 | Resuming makes a visible job active and moves it to its next run. |
| `ScheduledJobRows.ColumnOwners` | apps/api-service/src/services/scheduled-job-service.ts:305-430 | Which steps may change which columns of a job: its organization never changes, its status only by a status write, `lastScheduledFor` only by a claim of what was next. |
| `ScheduledJobRows.StatusStays` | apps/api-service/src/services/scheduled-job-service.ts:360-430 | Over any stretch without a write of its status a job keeps it, and a job that is not active is not claimed. |
| `ScheduledJobRows.RevivedExactly` | apps/api-service/src/services/scheduled-job-service.ts:360-391 | Over every run, a deleted job is seen with another status if and only if a pause, disable or resume writes after the deletion. |
| `ScheduledJobRows.DeletedJobIsClaimed` | apps/api-service/src/services/scheduled-job-service.ts:375-430 | A run in which a deleted job is made active by a late resume and then claimed. |
| `ScheduledJobOrder.ClaimsMoveForward` | apps/api-service/src/services/node-scheduled-job-service.ts:110-283 | With an atomic resume and a clock that never goes back, `lastScheduledFor < nextRunAt` holds for every job in every reachable state, and each job's claimed instants strictly increase. |
| `ScheduledJobOrder.IndexNeverRefuses` | apps/api-service/src/db/schema.ts:401-403 | Under the same conditions a claim that passes its guard is never refused by the unique index. |
| `ScheduledJobOrder.SplitResumeExact` | apps/api-service/src/services/scheduled-job-service.ts:375-391 | A resume's late write keeps the order if and only if the job's last claimed occurrence lies before the instant it writes. |
| `ScheduledJobOrder.OrderExactly` | apps/api-service/src/services/scheduled-job-service.ts:375-391 | Over every run: all states are ordered if and only if no resume's late write was overtaken by a claim of an occurrence at or after the instant it had computed. |
| `ScheduledJobOrder.SplitResumeBreaksExactly` | apps/api-service/src/services/scheduled-job-service.ts:375-391 | A resume's late write breaks an order kept at its read and up to its write if and only if it was so overtaken. |
| `ScheduledJobOrder.SplitResumeBreaksOrder` | apps/api-service/src/services/scheduled-job-service.ts:375-391 | A run in which the late write puts `nextRunAt` back onto a claimed occurrence, whose guard then passes again. |
| `ScheduledJobOrder.OrderedKept` | apps/api-service/src/services/scheduled-job-service.ts:305-391 | Each operation except a split resume keeps the order of last, next and in-flight occurrences. |
| `ScheduledJobRuns.TerminalRunsAreFinal` | apps/api-service/src/services/node-scheduled-job-run-service.ts:154-183 | Over any stretch of any run, a terminal run row stays exactly as it is and no status moves back. |
| `ScheduledJobRuns.StartedOnce` | apps/api-service/src/services/node-scheduled-job-run-service.ts:28-113 | At most one markRunStarted call per run ever returns true. |
| `ScheduledJobRuns.AcceptedMeansStored` | apps/api-service/src/services/node-scheduled-job-run-service.ts:184-218 | An accepted completion leaves the submitted result in the row. |
| `ScheduledJobRuns.CompletionsAgree` | apps/api-service/src/services/node-scheduled-job-run-service.ts:115-229 | All completions of one run ever accepted submitted the same result. |
| `ScheduledJobRuns.CompletionIsIdempotent` | apps/api-service/src/services/node-scheduled-job-run-service.ts:203-218 | Repeating an accepted completion at any later time is accepted again and changes no row. |
| `ScheduledJobRuns.SummaryIsLatestReport` | apps/api-service/src/services/job-evaluator-service.ts:25-77 | In every reachable state a job's `lastRunAt` is the maximum of `finishedAt` over completed runs and `startedAt` over runs failed as stale, null when there are none, and its status and errors are those of a run attaining it. |
| `ScheduledJobRuns.CompleteSummarized` | apps/api-service/src/services/node-scheduled-job-run-service.ts:184-202 | A completion keeps that, however its `finishedAt` compares with earlier reports. |
| `ScheduledJobRuns.SweepSummarized` | apps/api-service/src/services/job-evaluator-service.ts:31-77 | Stale cleanup keeps it, in whatever order the database returns the failed runs. |
| `ScheduledJobRuns.LoopSummarizes` | apps/api-service/src/services/job-evaluator-service.ts:58-74 | After any number of turns of the cleanup loop each summary accounts for exactly the failed runs handled so far. |
| `ScheduledJobRows.StartedExactly` | apps/api-service/src/services/node-scheduled-job-run-service.ts:28-113 | A run starts if and only if it is pending, on the caller's node, and manual or with an active parent on that node; only its status and `startedAt` change, and the reply tells started, already running and unavailable apart. |
| `ScheduledJobRows.CompletedExactly` | apps/api-service/src/services/node-scheduled-job-run-service.ts:115-229 | A completion ends a run if and only if it is pending or running and on the node, with the submitted `finishedAt` and result; the replies for every other case. |
| `ScheduledJobRows.CompletionReports` | apps/api-service/src/services/node-scheduled-job-run-service.ts:184-202 | A completion that ends a run writes the job's summary unless that is of a later instant; the later of two reports of one instant wins, and errors are stored for failed runs only. |
| `ScheduledJobRows.RunNowWrites` | apps/api-service/src/services/scheduled-job-service.ts:474-494 | A manual run is inserted for an existing job, pending and due now. |
| `ScheduledJobRows.CutShort` | apps/api-service/src/services/job-evaluator-service.ts:104-120 | An offline skip ends a pending run of the node as skipped; a failed dispatch ends a pending manual run as failed; each with its own code and message. |
| `ScheduledJobRows.CleanupWrites` | apps/api-service/src/services/job-evaluator-service.ts:18-56 | Cleanup ends abandoned pending runs as skipped and interrupted ones as failed, and no others. |
| `ScheduledJobRows.ReachableRuns` | apps/api-service/src/services/node-scheduled-job-run-service.ts:28-229 | In every reachable state the columns of every run fit its status: no start before it runs, no finish before it ends, no error while it is open. |
| `ScheduledJobStore.Store.ReadClaim` | apps/api-service/src/services/node-scheduled-job-service.ts:120-141 | Prepares a claim exactly when the occurrence is expected, due within the minute of grace and on a job of the node whose schedule has a next occurrence, with that next occurrence. |
| `ScheduledJobStore.Store.WriteClaim` | apps/api-service/src/services/node-scheduled-job-service.ts:142-218 | On whatever the tables hold by then: claims exactly when the job is active, still due then and not yet taken, as one step of the protocol, and otherwise changes nothing. |
| `ScheduledJobStore.Store.FastForwardOverdueJob` | apps/api-service/src/services/node-scheduled-job-service.ts:244-283 | Moves an overdue job to its next occurrence only if it is still as it was read; a rejected schedule changes nothing. |
| `ScheduledJobStore.Store.ReconcileScheduledJobs` | apps/api-service/src/services/node-scheduled-job-service.ts:85-107 | Every listed job ends as the reconciled form of what it was, no other job changes, and exactly the jobs without a next occurrence are rejected. |
| `ScheduledJobStore.Reconciled` | apps/api-service/src/services/node-scheduled-job-service.ts:96-104 | A reconciled job is not overdue any more, unless its schedule has no next occurrence. |
| `ScheduledJobStore.ReconciledMeans` | apps/api-service/src/services/node-scheduled-job-service.ts:93-104 | An active job moves exactly when it is overdue, not protected and has a next occurrence, and to that occurrence. |
| `ScheduledJobStore.Store.MarkRunStarted` | apps/api-service/src/services/node-scheduled-job-run-service.ts:28-113 | Starts a pending run of the node, manual or with an active parent on that node, and tells an already running one apart. |
| `ScheduledJobStore.Store.CompleteRun` | apps/api-service/src/services/node-scheduled-job-run-service.ts:115-229 | Stores the result once with the guarded summary update, and answers repeats, conflicts and foreign runs as the protocol's reply function does. |
| `ScheduledJobStore.Store.ListInterrupted` | apps/api-service/src/services/job-evaluator-service.ts:38-56 | The runs failed as stale are exactly the running ones started before the threshold, each once. |
| `ScheduledJobStore.Store.SummarizeFailedRuns` | apps/api-service/src/services/job-evaluator-service.ts:58-74 | The loop of guarded updates is the fold of the summary rule over the failed runs. |
| `ScheduledJobStore.Store.TerminalizeStaleRuns` | apps/api-service/src/services/job-evaluator-service.ts:18-77 | Both bulk updates and the loop together are one cleanup step of the protocol. |
| `ScheduledJobStore.Store.UpdateScheduledJob` | apps/api-service/src/services/scheduled-job-service.ts:305-358 | Edits a visible job if the resulting expression and zone are valid, recomputes its next occurrence when the schedule is given or the job is active and otherwise keeps it; nothing changes on failure. |
| `Cron.ComputeNextRunAt` | apps/api-service/src/scheduled/cron.ts:147-162 | Returns the earliest whole minute after the start, within 400 days, whose zone parts match, and fails only if there is none. |
| `Cron.NextRunIsUnique` | apps/api-service/src/scheduled/cron.ts:147-162 | There is one right answer, so every function that keeps the promise agrees with the loop. |
| `Cron.NextRunIsLater` | apps/api-service/src/scheduled/cron.ts:147-162 | Any schedule function that keeps the promise is strictly later than now, which the job protocol rests on. |
| `Cron.Range` | apps/api-service/src/scheduled/cron.ts:54-58 | All integers between the bounds, ascending; none when they are reversed. |
| `Cron.ExpandToken` | apps/api-service/src/scheduled/cron.ts:64-92 | Values of a token of any text, with its error cases; a step named SUN is zero and keeps nothing. |
| `Cron.ParseField` | apps/api-service/src/scheduled/cron.ts:94-113 | The union over the trimmed list parts of any text, refused if any is empty or rejected or if nothing is left. |
| `Cron.ParseCronExpression` | apps/api-service/src/scheduled/cron.ts:117-133 | Any text, trimmed and split at white space: exactly five fields, each with its own bounds, all accepted or the whole refused. |
| `Cron.FieldsFound` | apps/api-service/src/scheduled/cron.ts:118-119 | Words are found again whatever white space stands between and around them. |
| `Cron.WeekdayMeans` | apps/api-service/src/scheduled/cron.ts:40-42 | Exactly the seven weekday names are read as names, in any mix of cases. |
| `Cron.AtomRead` | apps/api-service/src/scheduled/cron.ts:40-52 | A numeral with any leading zeros, or a weekday name in any case, reads as its value; a number out of range is refused, a name never. |
| `Cron.TokenRead` | apps/api-service/src/scheduled/cron.ts:64-92 | A written token is read as exactly the values it names (in its span, a whole number of steps from the start), and refused exactly when a number is out of range or a span runs backwards. |
| `Cron.FieldRead` | apps/api-service/src/scheduled/cron.ts:94-113 | A written field is accepted exactly when every token is and something is named, and then matches exactly what it names. |
| `Cron.ExpressionMeaning` | apps/api-service/src/scheduled/cron.ts:117-181 | An expression, with any white space between and around its five fields, is accepted if and only if each field's tokens are and name something, and then matches an instant if and only if the seconds are zero and all five fields name their part, day of month and weekday conjoined. |
| `Cron.BoundsExact` | apps/api-service/src/scheduled/cron.ts:40-52 | All values of an accepted token lie within the field, if and only if it is not a field starting at one whose token starts at SUN. |
| `Cron.SundayIsNoMonth` | apps/api-service/src/scheduled/cron.ts:40-52 | SUN is accepted as a month and stands for month zero. |
| `TokenUsage.DedupeRows` | apps/api-service/src/services/token-usage-service.ts:75-110 | The mutating loop yields, per key in order of first occurrence, the total of that key's rows. |
| `TokenUsage.Normalize` | apps/api-service/src/services/token-usage-service.ts:65-73 | A missing cost counts as zero, a missing cost source as unknown. |
| `TokenUsage.DedupeConserves` | apps/api-service/src/services/token-usage-service.ts:78-107 | Each result row holds for each of the eleven counters the sum over its key, a cost source of highest priority, and the metadata of the first row with the latest ingestion time. |
| `TokenUsage.OneRowPerKey` | apps/api-service/src/services/token-usage-service.ts:79-85 | Every uploaded key has exactly one row in the result. |
| `TokenUsage.KeyTextExactly` | apps/api-service/src/services/token-usage-service.ts:80-80 | The joined text identifies a key among all keys if and only if none of its fields holds a bar. |
| `TokenUsage.JoinedKeysCollide` | apps/api-service/src/services/token-usage-service.ts:80-80 | For any agent, model and bucket, a bar inside the project can as well stand inside the workspace. |
| `TokenUsage.KeepsStoredIff` | apps/api-service/src/services/token-usage-service.ts:175-196 | The three-way CASE keeps the stored value exactly when the upload is lower in (total tokens, cost-source rank, priced estimate). |
| `TokenUsage.MergeIsLastMaximum` | apps/api-service/src/services/token-usage-service.ts:163-444 | After any uploads for one key, all counters and the cost source come from one upload, the last one that no other outranks; the metadata comes from the last upload. |
| `TokenUsage.MeasureNeverDecreases` | apps/api-service/src/services/token-usage-service.ts:175-442 | A merge never lowers the stored measure and never ends below the upload. |
| `TokenUsage.MeasureIgnoresOrder` | apps/api-service/src/services/token-usage-service.ts:163-444 | The final measure is the same for every order of the same uploads. |
| `TokenUsage.SecondUploadChangesNothing` | apps/api-service/src/services/token-usage-service.ts:118-447 | Uploading the same batch again gets the same reply and leaves the whole table as the first upload left it. |
| `TokenUsage.RefusedExactly` | apps/api-service/src/services/token-usage-service.ts:125-171 | An upload is refused if and only if two of its differently written keys, of known workspaces, name one slot, their buckets spelling the same hour; the database does not update a row twice in one insert. |
| `TokenUsage.MillisecondsAreRefused` | apps/api-service/src/services/token-usage-service.ts:125-171 | Two rows that write one hour with and without milliseconds are refused. |
| `TokenUsage.UpsertedAt` | apps/api-service/src/services/token-usage-service.ts:160-171 | An insert without two rows for one slot writes each of its slots once, by merge or insert, and touches no other row. |
| `TokenUsage.UploadWrites` | apps/api-service/src/services/token-usage-service.ts:118-171 | An accepted upload writes the slot of every deduplicated row whose workspace is known and belongs to its project, and no other slot. |
| `TokenUsage.UploadCounted` | apps/api-service/src/services/token-usage-service.ts:446-446 | The reply is the number of those rows. |
| `TokenUsage.UsageTable.UpsertHourly` | apps/api-service/src/services/token-usage-service.ts:118-447 | Ends in the table obtained by merging the deduplicated rows of known workspaces, keyed by instant, one after the other, and returns their number, or refuses and changes nothing. |
| `TaskPrefix.PrefixSeed` | apps/api-service/src/services/local-task-key-prefix.ts:9-16 | The seed is three to five capital letters for every name, also for names without letters. |
| `TaskPrefix.LettersKeepOrder` | apps/api-service/src/services/local-task-key-prefix.ts:10-10 | Exactly the capital letters of the name are kept, in order. |
| `TaskPrefix.CalculateStableHash` | apps/api-service/src/services/local-task-key-prefix.ts:18-24 | Truncating to 32 bits in every turn gives the polynomial in 31 modulo 2^32. |
| `TaskPrefix.HashIsBase31` | apps/api-service/src/services/local-task-key-prefix.ts:18-24 | The polynomial is the value of the codes in base 31. |
| `TaskPrefix.SuffixDistinct` | apps/api-service/src/services/local-task-key-prefix.ts:26-31 | Any 676 consecutive suffixes are pairwise different. |
| `TaskPrefix.SuffixReached` | apps/api-service/src/services/local-task-key-prefix.ts:37-41 | Every two-letter suffix is reached wherever the hash makes the loop start. |
| `TaskPrefix.BuildLegacyTaskPrefixCandidates` | apps/api-service/src/services/local-task-key-prefix.ts:34-48 | The loop builds the candidate list the lemmas speak of. |
| `TaskPrefix.CandidatesComplete` | apps/api-service/src/services/local-task-key-prefix.ts:34-48 | For every name and id the list has no repeats, only valid prefixes and never PERS, and every two-letter extension of the base. |
| `TaskPrefix.WishAt` | apps/api-service/src/services/local-task-key-prefix.ts:34-48 | Each place of the list holds a wish, in the order seed, then the two-letter extensions from the hash on, and all earlier wishes stand before it. |
| `TaskPrefix.WishListed` | apps/api-service/src/services/local-task-key-prefix.ts:34-48 | Every wish except PERS is in the list. |
| `TaskPrefix.ExhaustionNeedsManyPrefixes` | apps/api-service/src/services/project-service.ts:380-390 | If every candidate is taken, at least 676 prefixes are. |
| `TaskKeys.ReachableKeys` | apps/api-service/src/services/project-service.ts:263-402 | In every reachable state prefixes are valid and distinct within an organization, each owner's numbers are exactly 1..counter with one per task, and every key spells its prefix and number. |
| `TaskKeys.KeysNeverCollide` | apps/api-service/src/services/user-service.ts:26-74 | In no reachable state are two live keys of one organization, or of it and any user's personal scope, or of one user, equal. |
| `TaskKeys.InvKept` | apps/api-service/src/services/project-service.ts:295-402 | Create, backfill, both allocations and delete each keep the invariant. |
| `TaskKeys.KeyTextInjective` | apps/api-service/src/services/project-service.ts:346-346 | Key text determines prefix and number when prefixes hold no dash. |
| `TaskKeys.PrefixesAndKeysStay` | apps/api-service/src/services/project-service.ts:370-402 | Over any stretch without its deletion, a project keeps its organization, its prefix once set and every allocation it has. |
| `TaskKeys.AllocationIsIdempotent` | apps/api-service/src/services/project-service.ts:317-330 | Allocating again for a task, at any later time before a deletion of the project, returns the same key and changes nothing. |
| `TaskKeys.BackfillFits` | apps/api-service/src/services/project-service.ts:370-402 | The prefix backfill picks is valid and held by no other project of the organization, and other projects stay as they are. |
| `TaskKeys.BackfillIsFirstWish` | apps/api-service/src/services/project-service.ts:370-402 | A project without a prefix gets the first of its wishes that is neither PERS nor taken in its organization, its seed in particular, and none if and only if all are taken. |
| `TaskKeys.FirstFreeIsFirst` | apps/api-service/src/services/project-service.ts:385-387 | Every candidate before the one found is taken. |
| `TaskKeys.AllocateReplies` | apps/api-service/src/services/project-service.ts:295-354 | The reply is the key stored for the local task: the one it had, or the prefix and the next number; what is not found or has no prefix left changes nothing. |
| `TaskKeys.PersonalReplies` | apps/api-service/src/services/user-service.ts:26-67 | The same for a user's own counter under PERS. |
| `TaskKeys.EnsureReplies` | apps/api-service/src/services/project-service.ts:263-292 | The project ends with the prefix backfill finds, or the call fails and changes nothing. |
| `TaskKeys.CreateReplies` | apps/api-service/src/services/project-service.ts:92-160 | Creating is refused exactly when the prefix is taken in the organization, and otherwise adds the project as given. |
| `TaskKeys.DeleteReplies` | apps/api-service/src/services/project-service.ts:404-419 | Deleting takes the project's counter and keys with it and leaves the other projects. |
| `TaskKeyService.Service.BackfillTaskPrefix` | apps/api-service/src/services/project-service.ts:370-402 | Keeps a prefix that is set, else sets the first free candidate, else fails and changes nothing. |
| `TaskKeyService.Service.EnsureProjectTaskPrefix` | apps/api-service/src/services/project-service.ts:263-292 | Reply and new rows for found, missing and exhausted projects. |
| `TaskKeyService.Service.AllocateLocalTaskKey` | apps/api-service/src/services/project-service.ts:295-354 | Reply and new rows: existing key, or next number under the prefix, or an error that changes nothing. |
| `TaskKeyService.Service.AllocatePersonalLocalTaskKey` | apps/api-service/src/services/user-service.ts:26-67 | The same for a user's own counter under PERS. |
| `Renames.FindCandidate` | apps/cli/internal/git/git_changes.go:91-118 | The first free file of the same directory, else the first free one of the same extension, else none of either kind is free. |
| `Renames.RelationsMean` | apps/cli/internal/git/git_changes.go:259-278 | What the two relations mean: equal folders, whichever way the slashes lean, and extensions equal up to case, or no extension on the deleted file. |
| `Renames.RenameMeans` | apps/cli/internal/git/git_changes.go:135-140 | The rename has the new path and the added file's counts, not below zero. |
| `Renames.FiltersKeepOrder` | apps/cli/internal/git/git_changes.go:66-79 | Filtering by kind and dropping consumed paths look at each change on its own and keep the order. |
| `Renames.MatchFiles` | apps/cli/internal/git/git_changes.go:86-144 | Greedy, one-to-one and maximal matching for any input; the branch for an existing rename is never reached. |
| `Renames.Reconcile` | apps/cli/internal/git/git_changes.go:66-169 | Matched files leave both sections, one rename per pair is appended, everything else keeps its order and staged changes stay, with no compatible pair left over. |
| `Renames.CountsBalance` | apps/cli/internal/git/git_changes.go:150-167 | With distinct paths the unstaged count is unchanged and the untracked count drops by the number of pairs. |
| `Csv.BuildCsvDocument` | apps/api-service/src/services/organization-export-service.ts:324-356 | The document is the header line and one escaped line per formatted row; plain headers are printed as cells. |
| `Csv.CellRead` | apps/api-service/src/services/organization-export-service.ts:351-356 | A reader of section 2 of RFC 4180 reads an escaped cell back as the cell, whatever it contains. |
| `Csv.RoundTrip` | apps/api-service/src/services/organization-export-service.ts:324-356 | Reading a printed table returns its cells if and only if the last line is not a single empty cell. |
| `Csv.DistinctTablesPrintDistinctly` | apps/api-service/src/services/organization-export-service.ts:324-356 | Different tables of at least two columns give different documents. |
| `Refresh.OneRefreshAtATime` | apps/cli/internal/app/handlers.go:46-108 | In every reachable state at most one worker is at work and pending implies running. |
| `Refresh.RoundExactly` | apps/cli/internal/app/handlers.go:95-108 | In every run, between two decisions a worker starts exactly one refresh, and goes on to one more if and only if its context is live and at least one request came in between, however many did. |
| `Refresh.LostExactly` | apps/cli/internal/app/handlers.go:80-108 | In every run, an accepted request's worker stops without a refresh after it if and only if the request came after the start of a refresh and the worker's context is dead at its next decision. |
| `Refresh.IdleMeansServed` | apps/cli/internal/app/handlers.go:80-108 | In a run without a cancelled worker, every idle state has started a refresh after every accepted request. |
| `Refresh.RefreshesCounted` | apps/cli/internal/app/handlers.go:80-108 | A run has one refresh for every worker started and one for every decision to go on, and never more than requests. |
| `Refresh.WorkerDrains` | apps/cli/internal/app/handlers.go:95-108 | A worker with a live context, left to itself, stops after starting what is due, with every request served. |
| `Refresh.PendingButServed` | apps/cli/internal/app/handlers.go:80-104 | A run in which a worker stops with a request pending on its dead context and none is lost. |
| `Refresh.RequestLostWithWorker` | apps/cli/internal/app/handlers.go:80-104 | A run in which a request on a live context is never served. |
| `Refresh.ScheduleRefreshState.RequestScheduledJobsRefresh` | apps/cli/internal/app/handlers.go:80-93 | Sets the flags of the request step and starts a worker exactly when none runs. |
| `Refresh.ScheduleRefreshState.DecideRefresh` | apps/cli/internal/app/handlers.go:98-106 | Sets the flags of the decision step and goes on exactly when a request is pending on a live context. |
| `SendQueue.Semaphore.Acquire` | apps/api-service/src/scheduled/queue.ts:62-70 | Takes a free permit or joins the end of the line, as the arrival step does. |
| `SendQueue.Semaphore.Release` | apps/api-service/src/scheduled/queue.ts:72-79 | Hands the permit to the oldest waiter or puts it back, as the finish step does. |
| `SendQueue.PermitsAndOrder` | apps/api-service/src/scheduled/queue.ts:45-80 | In every run free plus held permits equal the limit, nobody waits while a permit is free, and sends are granted in arrival order. |
| `SendQueue.NeverStuck` | apps/api-service/src/scheduled/queue.ts:53-60 | While a send is unfinished some step is possible. |
| `SendQueue.StepsAreBounded` | apps/api-service/src/scheduled/queue.ts:53-60 | Every step brings the batch one step closer to its end. |
| `SendQueue.BatchCompletes` | apps/api-service/src/scheduled/queue.ts:20-43 | A run that cannot go on took two steps per message, has a result for every message, and returns the number of successful sends. |
| `Search.ResolveContiguousMatch` | apps/cli/internal/files/file_search.go:161-174 | Succeeds exactly when the query occurs, at the first occurrence and with its score. |
| `Search.GreedyMatch` | apps/cli/internal/files/file_search.go:126-136 | Succeeds exactly on subsequences, with the earliest placement of every character. |
| `Search.GreedyFailureIsFinal` | apps/cli/internal/files/file_search.go:129-132 | When the greedy scan runs out, no placement of the query exists. |
| `Search.ResolveSubsequenceMatch` | apps/cli/internal/files/file_search.go:123-153 | Succeeds exactly on subsequences and returns the better of the match at the first occurrence and the match with the earliest places, each with its own score; the first wins a tie. |
| `Search.OccurrenceLosesExactly` | apps/cli/internal/files/file_search.go:140-174 | An occurrence loses to the scattered match if and only if 200 plus three points per skipped character is less than two per character it starts later. |
| `Search.GreedyIsUnique` | apps/cli/internal/files/file_search.go:126-148 | There is one match with the earliest places. |

## Left out

- File system, git, symlinks and `os.SameFile`: a tree is a map from directory to entries, an identity a number that is never reused and never shared by two roots, read at once; a separate context-link identity is part of that number. What the context link leads to lies outside the root.
- A tree change whose invalidation comes later, `Write` and `Mkdir` that create missing ancestors, and `.gitignore` edits: a change and its invalidation are one step and alter only the listings the change model names.
- Paths that leave the root through `..` and come back by the root's own name: they count as not resolving.
- Wrap-around of the `uint64` generation, of 32-bit counters and of JavaScript numbers beyond 2^53: all are unbounded here, except the 32-bit hash of the prefix candidates.
- Time: that a context ends by its deadline is the environment's; what is proved is that a caller ends once its own context has.
- CacheFreshness.FreshShallowSnapshot: resolving a name and reading its identity and generation are one step of a shallow listing, and so are its last generation check and the validation after it.
- The check of root and link before interim progress is shown (`guardListingProgress`) is one step with showing it.
- CacheExact.PathExactly: paths that denote a clean directory; for directories whose own names hold backslashes or outer white space the condition is that of `CacheExactly`.
- SQL, drizzle and Postgres: each guarded statement or locked transaction is one atomic step with its unique index; isolation anomalies are modelled only where an operation reads in one statement and writes in another (claim, fast-forward, resume).
- Authorization, membership and organization filters: they enter as one boolean, or as the absence of the step.
- ScheduledJobStore.Store.UpdateScheduledJob: text fields come trimmed; `valid` stands for the validation of expression and zone.
- Create, pause, resume, disable, delete, run-now, offline skip and dispatch failure are steps of the protocol, not methods; deleting rows by cascade and the list queries are not modelled.
- `hasSameJsonValue`: JSON values are compared by equality, standing for documents with the same sorted form.
- Time-zone data and `Intl.DateTimeFormat`: an arbitrary function from instants to date parts; nothing is claimed about crontab semantics beyond the code's own conjunction.
- Letters outside ASCII that upper-case into weekday names; extra pieces after a second `-` or `/`, which the code ignores, are covered by `ExpandToken` but not by the written tokens of `TokenRead`.
- `toUpperCase` of project names beyond what the seed needs: the upper-case name is an input; advisory locks are taken as exclusion.
- Renames.CountsBalance: distinct paths within a section, as git reports them; `strings.ToLower` is for ASCII.
- Csv.BuildCsvDocument: dates, numbers and JSON come with the text JavaScript gives them; headers with special characters are printed but not claimed to be read back.
- Search.ResolveSubsequenceMatch: ASCII text, where a character is a byte; ranking, limits and the choice between name and path are not modelled.
- `scheduled_jobs.go` and its adapters, authentication, relay HTTP, rendering, command-line parsing, daemon start and binary terminal frames: they move data between the parts modelled here and the outside, and hold no protocol or algorithm of this kind.
