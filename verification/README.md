# A verified model of the repository cache

The system keeps a cache of GitHub repositories. A lookup that misses queues a refresh job; a scheduler claims
jobs in batches, fetches through a pool of rate-limited tokens, and stores the answer. Around that core sit a
per-key rate limiter, a blue/green restore, an editor for `.env`, sliding sessions, an import lock and a webhook
worker. This project models those parts in Dafny and proves what they keep over whole runs.

`dafny verify dfyconfig.toml` checks everything.

## How the model is built

Code that updates state is a class whose methods follow the source branch by branch; each is proved against a
function of the old state, and the theorems are about that function. Protocols (the job queue, the pause machine,
the create race, overlapping facet writers, webhook runs) are step systems whose runs interleave any number of
actors. A database transaction is one step that commits or has no effect. Clocks, the network, random ids and
database faults are parameters, so a theorem covers every value of them.

A function that specifies a method is not left to itself: lemmas named `…InColumns`, `…InFigures`, `…InMinutes`, `…Row` and
`…Columns` say in the columns of the tables and in plain numbers what it computes.

| module | models |
|---|---|
| Aging, Eta | retry ladders; the estimate given to a queued lookup |
| Store, Forms, Columns | `storeRepoMetadata` and the facet writers; agreement of the metadata object, the flat columns and the child rows; all of it column by column |
| CreateRace, FacetRace | concurrent writers of one repository row; facet writers and core writes that overlap |
| Jobs, Lookup, RefreshOne | the claim and the operators' retry and cancel; lookup with queue-on-miss; every branch of one refresh |
| Endings, RefreshRuns | what a refresh means for its job and the cache; a refresh as a run of the queue |
| JobSystem, QueueRuns, Attempts, Drain | the queue as a step system; what holds over its runs; its error budget; how fast it drains |
| Pool, Client | the token pool; the retry loops of a core fetch and of a list fetch |
| FetchEndings | fetch and refresh composed: what GitHub's answers do to a job |
| AutoPause | pause flag, refresh interval, resume timer |
| Restore | load, verify, swap and drop |
| Webhooks, WebhookRuns | the webhook worker; overlapping ticks and operators |
| RateLimit, EnvFile, Settings, Sessions, Mutex | the smaller machines |

## Where code, comments and expectations part

The model follows the code. Each point below is a theorem.

- A job left `in_progress` is not reclaimed, although a comment in the tick says its lease will time out: the claim
  asks for `pending`, so it waits until an operator puts it back (`QueueRuns.LostJobIsReclaimedOnlyIfRetried`), and the
  lease test excludes nothing (`QueueRuns.LeaseTestExcludesNothing`).
- The retry route takes `in_progress` jobs without asking whether a refresh still runs. If one does, the job can get a
  second holder, and in no other way (`JobSystem.OneHolderIffNoHeldRetry`); `done` is final exactly for jobs without a
  holder (`QueueRuns.DoneIsForeverIff`).
- Cancelling a job in progress has no effect beyond the end of its refresh, which writes over the cancelled row
  unless that refresh vanishes (`QueueRuns.CancelIsOverwritten`).
- Attempts go up at the claim and again on an error, so a job is given up at its third unexpected error at the
  latest, not its fifth; each retry by an operator allows one more (`Attempts.ErrorsAtMostThreePlusRetries`). A retry
  of a job whose refresh still runs breaks even that (`Attempts.HeldRetryBreaksTheAccounts`).
- A repository found missing is queued again by the next lookup if the audit insert after the 404 transaction fails,
  because the tick's catch overwrites the marker (`QueueRuns.AuditFailureReopensTheQueue`), or while an operator's retry
  of the marker is in progress (`QueueRuns.RetryOfMarkerReopensTheQueue`); nothing else undoes the marker
  (`QueueRuns.MarkerStepIff`).
- The facet paths return `finishJob` without awaiting it, so a database fault on the update to done passes their
  catch by and the job is failed, where a core refresh with attempts left retries (`Endings.FaultOnDoneIsRetriedIff`).
- A sweep compares timestamps in SQL, so a facet that was never fetched is never swept, although the comment calls it
  always stale (`QueueRuns.SweptIff`).
- A repeated tag or branch name breaks the child write after the row was stored, so the two forms part
  (`Forms.FullRefreshAgreesIffNamesDistinct`). The row write stores branches without their commits and leaves it to the
  branches write to put them back, so a repeated tag also costs the branches their commits
  (`Forms.RepeatedTagLosesCommits`).
- A tick may refresh both facets of one repository at once. Each writer merges into the metadata it read before, so
  the later commit drops the other's lists (`FacetRace.OverlapLosesOneFacet`); the exact condition is
  `FacetRace.CommitAgreesIff`. A facet writer that read before a core write undoes it in the metadata while the flat
  columns keep it (`FacetRace.StaleCommitUndoesTheCoreWrite`).
- A fetch puts a token whose quota is spent out of reach, but the report of an older answer brings it back before its
  reset (`Client.OlderAnswerBringsTheTokenBack`).
- A pause made by hand is lost when a tick is run by hand on an exhausted pool (`AutoPause.ManualTickLosesThePause`).
- `stop()` keeps the auto-resume timer, so the interval comes back by itself exactly when that timer was set
  (`AutoPause.StopSticksIffNoTimer`).
- The minute limit and the hour limit of one API key share a row. A client that alternates between the two routes is
  never limited outside the first minute of an hour, whenever and however often it asks
  (`RateLimit.TurnsOutsideFirstMinutes`); the exact condition is `RateLimit.TurnsAreNeverLimitedIff`.
- The line editor replaces the first line of a key, the reader believes the last (`EnvFile.SecondLineHidesTheWrite`).
  The editor is called idempotent; it is so exactly for empty or newline-ended text without stray carriage returns
  (`EnvFile.UpsertIsIdempotentIff`).
- A settings batch that changes a key and changes it back in a second entry keeps the first change
  (`Settings.RepeatedKeyLosesTheLastUpdate`).
- A webhook tick starts every fifteen seconds whether or not the last one is through, and claimed rows stay `pending`, so
  ticks overlap: two deliveries to a receiver that times out are enough for a second POST and a second attempt on a
  failed row (`WebhookRuns.TimeoutsOverlap`), and nothing bounds them (`WebhookRuns.OverlapsReachAnyCount`).
- Apart from such overlaps a failed delivery is not retried by the worker, because only `pending` rows are claimed: its
  backoff time has no effect, and five attempts need four retries by hand or overlapping claims
  (`WebhookRuns.AttemptsNeedRetriesOrOverlaps`, `WebhookRuns.LimitNeedsFourRetriesOrOverlaps`).
- The error branch for a rate limit (429) in a core refresh is never reached, and the five-second one for server errors only
  by a lost connection: both answers are retried and end as unavailable, thirty seconds later
  (`FetchEndings.BranchReachedIff`, `FetchEndings.FailedFetchRow`).
- A list fetch throws the library's own error, so the 404, 429 and 5xx branches of a facet refresh are never reached. A list
  that is gone, or one that did not change if the library rejects 304 as it does for the core fetch, is put back every
  thirty seconds for ever (`FetchEndings.FacetJobEndsIff`, `FetchEndings.RejectedForEver`).
- A pending facet job of a repository answers a lookup with pending, although it fetches no repository
  (`QueueRuns.LookupQueuesFullFetchIff`).
- A stop and a start during an auto-pause leave the interval running while the scheduler is asleep
  (`AutoPause.StopAndStartWhileAsleep`).
- Once the forms agree, `latestRelease` is the first element of the list, whatever the full fetch had stored
  (`Forms.FormsAgreeAlongRuns`).

## Model

| member | source | states |
|---|---|---|
| Jobs.JobTable.SelectDue | src/lib/scheduler/lease.ts:51-63 | returns exactly the first min(batch, eligible) pending, due, unlocked jobs by (priority, scheduledFor), in that order and without repetition |
| Jobs.JobTable.ClaimBatch | src/lib/scheduler/lease.ts:40-77 | the claim changes exactly those jobs (status, lease, one more attempt) and hands back the changed rows in claim order |
| Jobs.ClaimInColumns | src/lib/scheduler/lease.ts:51-72 | what a claim takes is pending, due and unlocked; what it leaves of that kind has a larger priority, or the same and a later time, and is left only by a full batch; the taken rows are in progress, locked for five minutes, with one more attempt |
| Jobs.OrderInColumns | src/lib/scheduler/lease.ts:73-77 | the claimed rows come back by priority, then by time |
| Jobs.JobTable.Retry | src/app/api/admin/refresh-jobs/[id]/retry/route.ts:66-92 | succeeds exactly on a job that is failed or in progress and still has the status the route read; otherwise does nothing |
| Jobs.JobTable.Cancel | src/app/api/admin/refresh-jobs/[id]/cancel/route.ts:67-87 | the same for the cancel of a pending or in-progress job |
| Jobs.RoutesInColumns | src/app/api/admin/refresh-jobs/[id]/retry/route.ts:81-89 | a retry makes the row pending and due now and keeps its attempts; a cancel fails it and keeps its time |
| Lookup.LookupService.EnqueueRefresh | src/lib/cache/lookup.ts:100-195 | find-or-create with at most three serializable tries: a pending job is reused, otherwise exactly one is inserted; a failing transaction inserts nothing; a failure of the statistics read afterwards leaves the job queued |
| Lookup.LookupService.LookupRepo | src/lib/cache/lookup.ts:269-320 | every answer: an ok row is served, a marked or not_found repository answers not_found without inserting, and any other lookup reuses the pending job or inserts one, and answers pending, or an error exactly if the transaction or the statistics read fails |
| Lookup.MarkersInColumns | src/lib/cache/lookup.ts:73-87 | a repository is marked exactly by a failed job of its own whose error begins with `not_found:` |
| Lookup.CommitsIff | src/lib/cache/lookup.ts:128-180 | the enqueue commits exactly if one of three tries does and only conflicts came before it |
| Lookup.DepthMoves | src/lib/cache/eta.ts:39-47 | the queue depth falls by the batch of a claim and rises by one with an insert |
| Lookup.StaleIff | src/lib/cache/lookup.ts:205-212 | an answer is stale from twenty-four hours after its fetch; one never fetched is not |
| RefreshOne.Worker.RefreshCore | src/lib/jobs/refresh-one.ts:175-279 | a core refresh performs exactly one cache operation and one job outcome, as its scenario dictates |
| RefreshOne.Worker.RefreshReleases | src/lib/jobs/refresh-one.ts:101-131 | the same for the releases facet |
| RefreshOne.Worker.RefreshBranches | src/lib/jobs/refresh-one.ts:137-166 | the same for the branches facet |
| RefreshOne.Worker.RunJob | src/lib/scheduler/tick.ts:134-162 | one job of a tick, with the catch around it: the job row, the cache and the reported result in every scenario |
| RefreshOne.Summarize | src/lib/scheduler/tick.ts:164-177 | claimed = done + pending + failed, each the number of results of its kind |
| Endings.ResultAgreesWithRow | src/lib/jobs/refresh-one.ts:101-643 | on every path, with every answer and every combination of faults: pending is reported exactly if the row is pending again, done exactly if it is done or a committed 404 left its marker intact |
| Endings.LockedIff | src/lib/scheduler/tick.ts:134-162 | a row stays locked exactly if an exception escapes before the update and the update of the catch fails too; then it is as it was claimed |
| Endings.AttemptCountedIff | src/lib/jobs/refresh-one.ts:344-643 | an attempt is counted exactly for a missing repository or an unforeseen error of a core refresh whose row was updated; no facet error and no passing or forbidden one counts |
| Endings.RowDeletedIff | src/lib/jobs/refresh-one.ts:465-495 | a repository leaves the cache exactly by the committed 404 transaction of a core refresh |
| Endings.RetriedSoonEnough | src/lib/jobs/refresh-one.ts:344-643 | a job that is pending again is due between five seconds and a day later, whatever happened |
| Endings.UnforeseenErrorRow | src/lib/jobs/refresh-one.ts:608-637 | every column after an unforeseen core error: due again after 15 minutes, 1, 6 or 24 hours when the claim had counted one, two, three or more attempts, failed from four on |
| Endings.MissingRepositoryRow | src/lib/jobs/refresh-one.ts:447-514 | every column after a 404 or 410: the marker a year ahead, or, when the transaction fails, pending on those delays |
| Endings.OtherErrorRow | src/lib/jobs/refresh-one.ts:344-606 | every column after any other error: 30 seconds, 5 seconds for server errors, forbidden and a facet's 404 failed |
| Endings.DoneRow | src/lib/jobs/refresh-one.ts:192-307 | every column after success: due again after an hour, six hours or a week by the count of refreshes and queries, a facet after a minute |
| Endings.AuditedRow | src/lib/jobs/refresh-one.ts:516-637 | which outcomes await an audit, and what its failure does to the row |
| Endings.EscapedRow | src/lib/scheduler/tick.ts:142-158 | every column after an exception that reaches the tick's catch |
| Aging.LaddersInMinutes | src/lib/scheduler/aging.ts:65-93 | both ladders in minutes, for every count and number of attempts, with the failure flag |
| Endings.TerminalIffDelayFlag | src/lib/scheduler/aging.ts:65-93 | an unforeseen error fails the job exactly when nextDelay raises its failure flag, and retries it otherwise |
| Endings.FaultOnDoneIsRetriedIff | src/lib/jobs/refresh-one.ts:127-130 | a lone fault on the update to done retries the job exactly if it was a core refresh with attempts left, and fails it otherwise; what was fetched stays stored |
| RefreshRuns.RunJobIsARun | src/lib/scheduler/tick.ts:134-162 | the imperative refresh of one job is a run of the step system with the same final tables, so the theorems about runs cover it |
| RefreshRuns.NotFoundRun | src/lib/jobs/refresh-one.ts:452-527 | a refresh that finds the repository gone, as a run: committed, the row is gone and on every continuation that spares the marker no later lookup queues it; failed, the cache is untouched and the job pending on the failure ladder |
| RefreshRuns.FormsAgreeAlongRefreshes | src/lib/cache/write.ts:95-151 | along every sequence of refreshes, with whatever answers and faults outside the store transactions, the stored forms agree as long as no list repeats a name |
| JobSystem.ClaimTakesNoHeldJob | src/lib/scheduler/lease.ts:40-77 | overlapping ticks never hold the same job: in every state with one holder for each job, a claim takes no job that a refresh in flight holds |
| JobSystem.PeopleComeFirst | src/lib/scheduler/lease.ts:56-56 | no lookup's job is claimed while a due operator's is left, and no sweep's while a due lookup's is |
| JobSystem.OutsideStepsInColumns | src/app/api/admin/refresh-jobs/[id]/cancel/route.ts:71-87 | when an operator may retry or cancel, and what an enqueue, a retry, a cancel and a failing enqueue do to the queue |
| JobSystem.EnqueuedInColumns | src/lib/db/refresh-jobs.ts:20-40 | what operators, lookups and sweeps insert, column by column |
| JobSystem.SoundAlongRuns | src/lib/scheduler/lease.ts:40-77 | on every run of lookups, claims, refreshes, writes, sweeps, enqueues, retries and cancels, lockedUntil is set exactly on in_progress jobs |
| JobSystem.InvAlongRuns | src/lib/scheduler/lease.ts:40-77 | on every run on which no operator puts back a job that a refresh holds, no job has two holders, and each holder's row is the one it claimed, or that one cancelled, or failed and awaiting its audit |
| JobSystem.InvFromStart | src/lib/scheduler/lease.ts:40-77 | so the first holds in every state reached from the empty queue, and the second in every such state reached without a retry of that kind |
| JobSystem.OneHolderIffNoHeldRetry | src/app/api/admin/refresh-jobs/[id]/retry/route.ts:71-89 | the restriction is exact: a step leaves one holder for every job from then on unless it is such a retry, after which the next large enough tick gives the job a second one |
| QueueRuns.FrozenIff | src/lib/scheduler/lease.ts:51-63 | a row that is not pending and that nobody holds keeps every column on a run exactly if no operator puts it back or cancels it |
| QueueRuns.DoneIsForeverIff | src/lib/jobs/refresh-one.ts:262-270 | a done row keeps every column on all runs exactly if no runner holds it; while no job has two holders none does |
| QueueRuns.FailedUntilRetriedIff | src/app/api/admin/refresh-jobs/[id]/retry/route.ts:71-89 | a failed job whose refresh is through stays failed on a run exactly if no operator puts it back |
| QueueRuns.CancelIsOverwritten | src/app/api/admin/refresh-jobs/[id]/cancel/route.ts:71-87 | once the refresh of a cancelled job in progress ends, the whole state is as if nobody had cancelled |
| QueueRuns.LostJobIsReclaimedOnlyIfRetried | src/lib/scheduler/tick.ts:147-158 | a job whose runner vanished is taken by no claim on any run without a retry of it, and is eligible at once after one |
| QueueRuns.LeaseTestExcludesNothing | src/lib/scheduler/lease.ts:51-58 | in every reachable state eligible means pending and due |
| QueueRuns.NegativeCacheHolds | src/lib/cache/lookup.ts:269-300 | after a committed 404 transaction no lookup that begins later ever inserts a job for that pair, on any run on which the marker is neither overwritten by an audit failure nor put back by an operator |
| QueueRuns.LaterAnswersAreNotFound | src/lib/cache/lookup.ts:282-300 | on such a run a lookup that begins later and finishes answers not_found if the repository has no ok row during the run |
| QueueRuns.NoneQueuesAlongRuns | src/lib/cache/lookup.ts:73-87 | from any marked state, on such a run, the marker survives and later lookups neither queue nor are about to |
| QueueRuns.MarkerStepIff | src/lib/jobs/refresh-one.ts:516-521 | the condition is exact: a step of any kind keeps the marker exactly unless it is an audit failure whose message has another prefix, or a retry of the marker |
| QueueRuns.UnmarkedLookupQueues | src/lib/cache/lookup.ts:300-320 | without row and marker a lookup leaves a pending job behind, a new one exactly if there was none, and every other job as it was |
| QueueRuns.LookupQueuesFullFetchIff | src/lib/cache/lookup.ts:130-158 | after such a lookup a full fetch is queued exactly if one was before, or no job of any kind was pending |
| QueueRuns.KnownLookupAnswers | src/lib/cache/lookup.ts:269-300 | a lookup that finds an ok row, a not_found row or a marker answers so and changes nothing |
| QueueRuns.AuditFailureReopensTheQueue | src/lib/jobs/refresh-one.ts:516-526 | a concrete run from the empty queue on which an audit failure undoes the negative cache |
| QueueRuns.RetryOfMarkerReopensTheQueue | src/app/api/admin/refresh-jobs/[id]/retry/route.ts:81-89 | a concrete run on which the marker is put back and claimed, and the next lookup queues the repository a second time |
| QueueRuns.SweptIff | src/lib/scheduler/sweep.ts:45-78 | whatever runs between its select and its insert, a sweep queues one job for each ok repository whose facet had been fetched too long ago at the select and none for any other; so a facet without a timestamp is never swept |
| Attempts.AttemptsAreClaimsPlusErrors | src/lib/jobs/refresh-one.ts:608-637 | along every run without a retry of a held job, attempts grow by claims plus recorded 404 and unexpected core errors; retries do not reset them |
| Attempts.ErrorsAtMostThreePlusRetries | src/lib/jobs/refresh-one.ts:608-637 | on such a run a pending job meets at most three unexpected errors and one more for each retry, and at that number it has failed |
| Attempts.HeldRetryBreaksTheAccounts | src/app/api/admin/refresh-jobs/[id]/retry/route.ts:71-89 | the restriction is needed: a run from the empty queue with one retry of a held job, five unexpected errors and attempts below claims plus errors |
| Eta.TicksMonotoneInDepth | src/lib/cache/eta.ts:25-37 | a longer queue never shortens the estimate |
| Eta.TicksAntitoneInBatch | src/lib/cache/eta.ts:25-37 | a larger batch never lengthens it, the extra tick of an exactly full batch included |
| Eta.EstimateCoversDrain | src/lib/cache/eta.ts:25-37 | the counted ticks claim at least the whole queue, and are at most one more than needed |
| Eta.EstimateInFigures | src/lib/cache/eta.ts:25-37 | the estimate for every input: the least ticks whose batches cover the queue, one more exactly for one full batch, and the fetch, with each default |
| Drain.TickShortensQueue | src/lib/scheduler/lease.ts:51-63 | a full tick that misses a due job removes a whole batch of better-ranked ones |
| Drain.DueJobIsClaimedInTime | src/lib/cache/eta.ts:25-37 | with no better-ranked arrival, none put back ahead of it and no cancel of it, a pending job is claimed within ceil(queueDepth / batchSize) ticks |
| Drain.EstimateIsNeverEarly | src/lib/cache/lookup.ts:300-312 | at the estimated time the job was claimed a whole fetch time ago |
| Store.CacheDb.StoreRepoReleases | src/lib/cache/write.ts:165-220 | the releases write with its child rows, metadata keys, etag and timestamp; a fault or a repeated tag leaves no effect |
| Store.CacheDb.StoreRepoBranches | src/lib/cache/write.ts:222-262 | the branches write, likewise |
| Store.CacheDb.StoreRepoMetadata | src/lib/cache/write.ts:9-153 | row first, then the supplied lists; the first error stops it with the earlier writes kept |
| Forms.ReleasesWriteKeepsTheRest | src/lib/cache/write.ts:183-215 | a releases write changes no core field, no flat column and nothing of the branches facet |
| Forms.BranchesWriteKeepsTheRest | src/lib/cache/write.ts:237-262 | a branches write changes no core field, no flat column and nothing of the releases facet |
| Forms.StepKeepsOthers | src/lib/cache/write.ts:9-262 | no write changes anything of another repository |
| Forms.FullRefreshAgreesIffNamesDistinct | src/lib/cache/write.ts:95-151 | after a full refresh the two forms agree, and it reports success, exactly when no tag and no branch name repeats |
| Forms.RepeatedTagLosesCommits | src/lib/cache/write.ts:144-149 | after a fetch that repeats a tag every branch of the metadata has an empty commit |
| Forms.FormsAgreeAlongRuns | src/lib/cache/write.ts:95-151 | along every run of writes with distinct names, child rows are the projection of the metadata lists and releaseCount is their number, in every repository |
| Forms.FlatColumnsAgreeAlongRuns | src/lib/cache/write.ts:58-95 | the flat columns, dates included, stay the flattening of the metadata along every run, faults and repeated names included |
| Columns.FlatColumnsReadTheirKeys | src/lib/cache/write.ts:58-93 | along every run each flat column says what its own metadata key says, with its default, the three dates included |
| Columns.FullStoreColumns | src/lib/cache/write.ts:69-151 | a full store: every column of the row, every key of the metadata and every child row hold what was fetched |
| Columns.ReleasesWriteColumns | src/lib/cache/write.ts:165-220 | a releases write, column by column: its own keys, time and etag, the child rows with the time of the write for a missing date, nothing else |
| Columns.BranchesWriteColumns | src/lib/cache/write.ts:222-262 | a branches write likewise |
| Columns.RowWriteColumns | src/lib/cache/write.ts:69-102 | an update keeps the id and the facets' etags and times; a create has none |
| Columns.SmallWriteColumns | src/lib/jobs/refresh-one.ts:201-212 | a 304 moves one timestamp; a delete takes the row and both lists of children |
| Columns.FailedFacetWrite | src/lib/cache/write.ts:183-215 | a facet write fails exactly on a fault or a repeated name, and then changes nothing |
| Columns.DoneIsStored | src/lib/jobs/refresh-one.ts:101-279 | a refresh that is done has stored what it was answered, on every path |
| Forms.FacetKeysDoNotFlatten | src/lib/cache/write.ts:73-95 | metadata objects that differ only in facet keys have the same flat columns |
| FacetRace.UninterruptedIsTheWriter | src/lib/cache/write.ts:165-262 | read and transaction with nothing in between are the writer proved in Store |
| FacetRace.CommitAgreesIff | src/lib/cache/write.ts:183-215 | a commit leaves the forms in agreement exactly when the other facet's rows still match the metadata that was read |
| FacetRace.UndisturbedWritersAgree | src/lib/cache/write.ts:69-262 | any number of interleaved facet writers and core writes: if no writer commits after a writer of the other facet or a core write overtook it, the flat columns agree throughout, and each list's forms agree once it was committed after the last core write |
| FacetRace.CommitFlattensIff | src/lib/cache/write.ts:183-262 | a commit leaves the flat columns in agreement exactly when the metadata that was read still flattens to them |
| FacetRace.StaleCommitUndoesTheCoreWrite | src/lib/cache/write.ts:69-102 | a core write between read and commit is undone in every core key of the metadata but not in the flat columns; they agree only if nothing they show had changed |
| FacetRace.OverlapLosesOneFacet | src/lib/scheduler/tick.ts:134-137 | read, read, commit, commit: the releases list stays the old one in the metadata, and the forms agree only if the rows are the same anyway |
| CreateRace.InterleavingIsSequential | src/lib/cache/write.ts:69-129 | on every interleaving of any number of row writers the table is the one they leave when run one after the other in order of finishing |
| CreateRace.OrderNamesEachFinisherOnce | src/lib/cache/write.ts:69-129 | that order names every writer that finished, exactly once |
| CreateRace.NoWriterFails | src/lib/cache/write.ts:113-128 | without deletes no writer ends in an error |
| CreateRace.OneRowOneWriter | src/lib/cache/write.ts:69-129 | when all have finished there is exactly one row for each slug written and all its core columns come from one writer |
| CreateRace.OtherRowsStay | src/lib/cache/write.ts:69-129 | rows of slugs nobody writes are unchanged |
| CreateRace.RaceEnds | src/lib/cache/write.ts:69-129 | n writers are done after at most 4n statements, and nothing can move exactly when all have finished |
| CreateRace.DeleteMakesUpdateFail | src/lib/cache/write.ts:97-102 | a delete between lookup and update makes the writer fail, so the restriction is needed |
| Pool.TokenPool.PoolStatus | src/lib/github/pool.ts:315-338 | active + exhausted is the pool size; the earliest reset is null exactly when none is exhausted, and is the least one otherwise |
| Pool.TokenPool.PickToken | src/lib/github/pool.ts:164-185 | a usable token of least use, the earliest inserted among equals; none only if all are exhausted |
| Pool.PickInColumns | src/lib/github/pool.ts:164-185 | the picked token has quota left or its reset behind it, and no such token was used less; none is picked exactly if there is none |
| Pool.PickIffActive | src/lib/github/pool.ts:164-185 | a token is picked exactly when the status counts an active one |
| Pool.UsableAfterEarliestReset | src/lib/github/pool.ts:179-185 | with an unchanged pool some token is usable from the earliest reset on |
| Pool.TokenPool.RecordUsage | src/lib/github/pool.ts:187-221 | unknown tokens are ignored; otherwise quota and counters are updated, the token is dropped exactly when its trailing run of reports with nothing remaining and the reset ahead reaches the threshold, its row is then disabled, and every twenty-fifth report flushes |
| Pool.TrailingRunIff | src/lib/github/pool.ts:203-217 | the run is at least k long exactly if the last k reports of the token all said nothing remaining with the reset ahead |
| Pool.TokenPool.PersistQuota | src/lib/github/pool.ts:246-272 | quotas are unchanged, exactly the dirty entries whose write fails or whose row is gone stay dirty, and the rows are those after a flush |
| Pool.FlushInColumns | src/lib/github/pool.ts:246-272 | a flush copies the quota of exactly the dirty entries whose write works, each to its own row, and nothing else |
| Pool.FewAreUnflushed | src/lib/github/pool.ts:187-221 | apart from entries the last flush could not write, fewer than twenty-five tokens differ from their rows, in every state of the pool |
| Pool.CountersFollowHistory | src/lib/github/pool.ts:203-217 | on every history each counter is the trailing run of over-limit reports modulo the threshold |
| Pool.CountersStayBelowThreshold | src/lib/github/pool.ts:203-217 | a counter is always below the threshold and equals the trailing run of a token that was not dropped |
| Pool.BackoffNeverShrinks | src/lib/github/pool.ts:274-279 | each backoff lies between one and sixty seconds and never shrinks between successes |
| Pool.BackoffInFigures | src/lib/github/pool.ts:274-279 | one second, doubled each time, a minute from the seventh on |
| Pool.TokenPool.AddToken | src/lib/github/pool.ts:358-384 | an active row with a token enters or replaces its entry, a disabled one leaves, the others stay |
| Client.GitHubClient.HandleAnswer | src/lib/github/client.ts:337-441 | for every answer: whether the call ends and with what, which quota is reported and when the backoff grows; a spent token is out of reach until its reset |
| Client.GitHubClient.FetchRepoCore | src/lib/github/client.ts:321-446 | while others change the pool between all its steps: picks go on exactly while answers ask for it, tries are left and a token is usable; a spent token is not picked again before its reset unless a change may have restored it; every answer is noted in the pool; the result is the last answer's, or that no token was left, or that three tries failed |
| Client.NotesInAnswers | src/lib/github/client.ts:340-418 | which answers report a quota, of which token and in which unit, and which grow the backoff |
| Client.RotatesAfterRetryableAnswer | src/lib/github/client.ts:400-434 | after a 403 with nothing remaining, a 429 or a 5xx, with tries left and some token usable, there is a next pick, and it is not the spent token if nothing restored that |
| Client.ResultInAnswers | src/lib/github/client.ts:321-446 | for each result exactly the last answers that give it: the repository only by a 200, forbidden only by a 403 with something remaining or no count, and so on |
| Client.GitHubClient.FetchList | src/lib/github/client.ts:178-304 | a list fetch: every rejection asks for another try, whatever its status, and grows the backoff; the result is the answer that resolved, or that no token was usable, or after three tries the library's own error |
| Client.GitHubClient.HandleList | src/lib/github/client.ts:193-238 | one try of it: what is reported to the pool and whether the call ends |
| Client.PickedAgainIffRestored | src/lib/github/pool.ts:187-201 | that condition is exact: while every other token is exhausted, a report on the spent token makes it the one to be picked at some instant before its reset exactly if it may restore it |
| Client.OlderAnswerBringsTheTokenBack | src/lib/scheduler/tick.ts:134-137 | an older answer of a concurrent fetch makes the spent token the next pick a minute before its reset |
| FetchEndings.BranchReachedIff | src/lib/jobs/refresh-one.ts:434-643 | for every branch of the error ladder of a core refresh, exactly which answers of a fetch reach it; the rate-limit branch none, the server-error branch a lost connection only |
| FetchEndings.FailedFetchRow | src/lib/jobs/refresh-one.ts:434-643 | the job row after a failed fetch, from GitHub's answers: which fail it, which count an attempt, and when it is due again |
| FetchEndings.ListFaults | src/lib/jobs/refresh-one.ts:344-427 | a failed list fetch reaches only the unavailable and the last branch of the facet ladder |
| FetchEndings.FacetJobEndsIff | src/lib/jobs/refresh-one.ts:101-166 | without database faults a facet job is done exactly if a try resolved and could be stored; otherwise it is pending thirty seconds later with nothing else changed, and it never fails |
| FetchEndings.RejectedForEver | src/lib/jobs/refresh-one.ts:411-427 | any number of claims whose fetches are rejected leave the job pending, its attempts the number of claims |
| AutoPause.Scheduler.RunTickHead | src/lib/scheduler/tick.ts:78-129 | what a tick does to flag, interval and timer before it claims, and whether it claims |
| AutoPause.Scheduler.OnInterval | src/lib/scheduler/refresh-tick.ts:68-77 | the interval callback does nothing while paused |
| AutoPause.TickSleepsIff | src/lib/scheduler/tick.ts:86-118 | a tick leaves the scheduler asleep exactly when all tokens are exhausted or the pool was emptied while it slept; the wake-up lies past the first reset |
| AutoPause.NeverAsleepWithoutWakeUp | src/lib/scheduler/tick.ts:33-118 | on every interleaving from the beginning, stops and starts included: asleep and resume timer set are the same, and a started scheduler without an interval is asleep |
| AutoPause.AsleepIffIntervalOff | src/lib/scheduler/tick.ts:86-118 | from a start while awake until the next stop, asleep and interval stopped are the same too |
| AutoPause.StopAndStartWhileAsleep | src/lib/scheduler/index.ts:161-171 | a stop and a start leave the interval running during a sleep exactly if there was one, pause and timer untouched |
| AutoPause.WakeUpFindsUsableToken | src/lib/scheduler/tick.ts:33-48 | if the pool does not change after an auto-pause, some token is usable when the timer fires, whatever else happened |
| AutoPause.NoClaimWhileHeld | src/lib/scheduler/tick.ts:86-129 | no tick claims while all tokens are exhausted or while paused by hand |
| AutoPause.TickClaimsIff | src/lib/scheduler/tick.ts:86-129 | an interval tick claims exactly while not paused with some token usable or none at all; a manual tick also during an auto-pause with some token usable |
| AutoPause.WakeUpClaims | src/lib/scheduler/tick.ts:33-48 | after the wake-up ticks come and claim again, until a pause, a stop or an exhausted pool |
| AutoPause.PausedSince | src/lib/scheduler/state.ts:27-42 | a second pause keeps the moment of the first; the wake-up is set one second after the reset |
| AutoPause.PauseIsLiftedIff | src/lib/scheduler/state.ts:27-42 | besides a resume, a pause is lifted exactly by the timer or a manual tick that finds a token, and only during an auto-pause |
| AutoPause.ManualPauseHolds | src/lib/scheduler/refresh-tick.ts:68-77 | with interval-driven ticks a pause made while not auto-paused lasts, and nothing is claimed, until a resume |
| AutoPause.ManualTickLosesThePause | src/app/api/admin/queue/tick/route.ts:51-51 | a run on which a manual tick turns a manual pause into one the timer lifts |
| AutoPause.StopHoldsWithoutTimer | src/lib/scheduler/index.ts:161-171 | after a stop with no timer set nothing is claimed until a start or a manual tick |
| AutoPause.StopSticksIffNoTimer | src/lib/scheduler/index.ts:161-171 | in every reachable state after a first start, a stop lasts by itself exactly when no resume timer was set |
| Restore.Server.LoadAndVerify | src/lib/database/restore.ts:80-100 | passes exactly when no statement fails and the two sets of table names are equal; the live schema is untouched |
| Restore.EqualCountsAndInclusion | src/lib/database/restore.ts:86-100 | equal counts and one inclusion mean equal sets |
| Restore.Server.SwapAll | src/lib/database/restore.ts:102-106 | every intermediate schema is a stage of the swap with nothing dropped; success exactly when no statement fails and no rollback name is taken |
| Restore.Server.DropAll | src/lib/database/restore.ts:108-111 | every intermediate schema is a stage; success leaves no rollback table |
| Restore.Server.PerformRestore | src/lib/database/restore.ts:57-124 | succeeds exactly when no statement fails, the names agree and no rollback name is taken; then live is exactly the backup and the shadow is gone; in every case every intermediate schema is a stage |
| Restore.LiveNamesResolve | src/lib/database/restore.ts:102-111 | at every point each live name resolves, to its old rows or the backup's |
| Restore.NothingLostBeforeTheFirstDrop | src/lib/database/restore.ts:102-111 | before the first drop the old schema comes back by renames alone, whatever failed |
| RateLimit.BucketTable.IncrementBucket | src/lib/db/rate-limit.ts:70-112 | on every history the row of a key holds its last window start and the length of the run of it, and other keys are untouched |
| RateLimit.BucketTable.CheckRateLimit | src/lib/rate-limit/bucket.ts:27-42 | allowed exactly while that count is within the limit; a refusal carries the least whole number of seconds that reaches a fresh window |
| RateLimit.RetryAfterIsLeast | src/lib/db/rate-limit.ts:129-136 | waiting reaches a fresh window exactly from that many seconds on |
| RateLimit.CountIsExactIff | src/lib/db/rate-limit.ts:92-96 | the stored count is the number of checks in the present window exactly when no other window start came in between |
| RateLimit.CountIsChecksInWindow | src/lib/db/rate-limit.ts:92-124 | with one window length and a clock that does not go back, the count is the checks in the present window |
| RateLimit.WindowAllowance | src/lib/rate-limit/bucket.ts:27-42 | in each window exactly the first `limit` requests pass |
| RateLimit.SpanAllowance | src/lib/rate-limit/bucket.ts:27-42 | at most twice the limit passes in any span of one window length |
| RateLimit.SpanAllowanceIsTight | src/lib/rate-limit/bucket.ts:27-42 | that bound is met for every limit and every window of at least two milliseconds |
| RateLimit.TurnsAreNeverLimitedIff | src/lib/rate-limit/bucket.ts:27-54 | a client that takes turns between the minute and the hour route, at any times: every check passes every limit exactly if no two neighbours share a window start, that is, no minute check lies in the first minute of the hour of a neighbouring hour check |
| RateLimit.TurnsOutsideFirstMinutes | src/lib/rate-limit/bucket.ts:27-54 | so away from the first minutes of hours no such client is ever limited, however many checks it makes |
| EnvFile.UpsertEnvLine | src/lib/setup.ts:122-143 | the edit, line by line: replace, insert or append, collapse empty lines, join |
| EnvFile.EditedWhere | src/lib/setup.ts:124-138 | an edit writes over the first line of the key, or before the first blank line or comment, or at the end; all other lines stay in order |
| EnvFile.BlankOrCommentIff | src/lib/setup.ts:130-132 | a line counts as blank or comment exactly if whitespace is all that comes before its end or a `#` |
| EnvFile.CharacterClasses | src/lib/config/settings-store.ts:64-66 | the characters of keys, line ends and whitespace, by code point |
| EnvFile.SplitOfUpsert | src/lib/setup.ts:122-143 | the edited text splits into the edited, cleaned lines, each without the carriage return it may end in |
| EnvFile.ReadEnvFile | src/lib/config/settings-store.ts:60-71 | the map holds for every key what its last matching line says, and nothing else |
| EnvFile.ReadAfterUpsert | src/lib/setup.ts:122-143 | what every key reads as after an edit, on all texts |
| EnvFile.ReadBackIff | src/lib/setup.ts:122-143 | the written value is read back exactly when no line below the first one of the key contradicts it |
| EnvFile.ReadYourWrite | src/lib/setup.ts:122-143 | with one line a key and plain line ends the value is read back and every other key reads as before |
| EnvFile.SecondLineHidesTheWrite | src/lib/config/settings-store.ts:64-69 | with two lines of the key the second one is read |
| EnvFile.StrayCrShowsAnotherKey | src/lib/setup.ts:123-142 | a carriage return that ends the file makes its key readable after editing another key |
| EnvFile.UpsertKeepsShape | src/lib/setup.ts:122-143 | an edit adds a line for a new key only and no stray carriage return |
| EnvFile.UpsertIsIdempotentIff | src/lib/setup.ts:118-143 | editing twice equals editing once exactly for empty or newline-ended text without stray carriage returns outside the edited line |
| Settings.SettingsStore.ReadTunable | src/lib/config/settings-store.ts:75-82 | the file first, then the environment, then empty |
| Settings.SettingsStore.WriteTunables | src/lib/config/settings-store.ts:87-123 | the file is written once with all differing updates, or not at all; applied and changed name exactly those |
| Settings.ReadAfterBatch | src/lib/config/settings-store.ts:87-123 | what every key reads as after any batch, repeated keys included |
| Settings.BatchIsReadable | src/lib/config/settings-store.ts:87-123 | with distinct keys every update is readable, other keys are as before, and `changed` names exactly the keys that read differently |
| Settings.RepeatedKeyLosesTheLastUpdate | src/lib/config/settings-store.ts:99-104 | changing a key and changing it back in one batch keeps the first change |
| Sessions.SessionStore.FindSessionById | src/lib/db/sessions.ts:66-98 | succeeds exactly for an unexpired session of an active user; then at least four hours are left, otherwise the row is gone |
| Sessions.LoginLastsEightHoursIff | src/lib/db/sessions.ts:35-50 | on every run that does not use or end it, a new session of an active user is valid at a later instant exactly within eight hours of the login |
| Sessions.LookupKeepsFresh | src/lib/db/sessions.ts:86-97 | after a successful lookup the expiry lies four to eight hours ahead |
| Sessions.RenewedIff | src/lib/db/sessions.ts:86-97 | a lookup renews exactly a session with less than four hours left, to eight hours, and touches no other |
| Sessions.LookedUpIff | src/lib/db/sessions.ts:66-85 | it succeeds exactly for a session not over of an active user, and deletes any other |
| Sessions.ActiveUserStaysLoggedIn | src/lib/db/sessions.ts:66-98 | any run of lookups less than four hours apart succeeds throughout, whatever other sessions do |
| Sessions.AwayForEightHours | src/lib/db/sessions.ts:72-78 | a gap of eight hours or more ends the session for good |
| Sessions.DisabledLookupIsFinal | src/lib/db/sessions.ts:79-85 | one lookup while the user is disabled ends it for good, even if the user is enabled again |
| Sessions.FourHoursIsAllThatIsPromised | src/lib/db/sessions.ts:86-96 | for every gap from four to eight hours both outcomes occur |
| Mutex.ImportMutex.Acquire | src/lib/import/mutex.ts:19-25 | granted at once exactly when the lock is free; otherwise the caller joins the line |
| Mutex.ImportMutex.Release | src/lib/import/mutex.ts:27-35 | the first in line becomes the only holder; the lock is free exactly if there is none |
| Mutex.ImportMutex.GrantsAreFirstComeFirstServed | src/lib/import/mutex.ts:15-40 | after any calls grants follow arrivals, there are as many as the releases allow, and none waits while the lock is free |
| Webhooks.RetryUnlessDead | src/lib/webhooks/retry.ts:36-46 | there is a next retry exactly until the delivery is given up, and the delays grow; so the fallback for a missing delay is unreachable |
| Webhooks.RetriesInMinutes | src/lib/webhooks/retry.ts:19-46 | 1, 5, 30 and 120 minutes, and none from the fifth attempt on |
| Webhooks.WebhookWorker.ClaimDueDeliveries | src/lib/webhooks/db.ts:140-152 | exactly min(batch, due) pending due rows as they are now, the earliest first |
| Webhooks.ClaimInColumns | src/lib/webhooks/db.ts:140-152 | what a claim takes is pending and due, the earliest first; what it leaves of that kind is later and left only by a full batch |
| Webhooks.WebhookWorker.ProcessOneDelivery | src/lib/webhooks/worker.ts:83-187 | every branch of one claimed row, whatever became of it since the claim: the row, the subscription, the POST |
| Webhooks.ProcessedRow | src/lib/webhooks/worker.ts:83-187 | the row is settled with one more attempt, delivered exactly for a POST that succeeded, no other row moves, and nothing is sent to a disabled subscription |
| Webhooks.ProcessedInColumns | src/lib/webhooks/worker.ts:83-187 | one delivery, column by column and in numbers: the row, the subscription and the POST for every status code and attempt |
| Webhooks.WebhookWorker.RunWorkerTick | src/lib/webhooks/worker.ts:201-215 | a tick that nothing interrupts: the claimed rows are handled in order, each at its own instant, and processed = delivered + failed + dead, each the number of rows that ended so |
| Webhooks.ClaimedRowsLeavePending | src/lib/webhooks/worker.ts:201-215 | in such a tick every claimed row leaves pending with one more attempt |
| WebhookRuns.TickIsARun | src/lib/webhooks/worker.ts:201-215 | such a tick is a run of the step system with the same tables and the same summary, in any state and with any other ticks in flight |
| WebhookRuns.SoundAlongRuns | src/lib/webhooks/worker.ts:201-215 | however ticks and operators interleave, each summary adds up to the rows of its claim that are through |
| WebhookRuns.DeadLetterSilencesTheTick | src/lib/webhooks/worker.ts:142-160 | once a POST of a tick ends dead, that tick sends nothing more to the subscription until it is re-armed, whatever other ticks and operators do |
| WebhookRuns.SilencedUntilReArmedIff | src/lib/webhooks/db.ts:78-93 | a disabled subscription stays disabled on a run exactly until it is re-armed, and no tick sends it anything before that |
| WebhookRuns.RoutesInColumns | src/lib/webhooks/db.ts:78-241 | enqueue, retry, disable and re-arm, column by column |
| WebhookRuns.AttemptsAreClaims | src/lib/webhooks/db.ts:140-212 | conservation on every run: attempts made, rows in the hands of ticks and rows dropped by ticks that broke off are together the claims |
| WebhookRuns.AttemptsNeedRetriesOrOverlaps | src/lib/webhooks/db.ts:140-241 | on every run a row is attempted at most once, once more for each retry by hand, and once more for each claim of it while another tick holds it |
| WebhookRuns.SettledIsForeverIff | src/lib/webhooks/db.ts:145-212 | a row that left pending keeps every column on all runs without a retry of it exactly if no tick in flight holds it |
| WebhookRuns.LimitNeedsFourRetriesOrOverlaps | src/lib/webhooks/retry.ts:36-46 | so a new row reaches the limit of five attempts only after four retries by hand or overlapping claims |
| WebhookRuns.OverlapsReachAnyCount | src/lib/scheduler/index.ts:109-113 | the bound is met: for every n a run from nothing on which a delivery makes n attempts with no retry by hand |
| WebhookRuns.TimeoutsOverlap | src/lib/webhooks/worker.ts:14-62 | a run of two ticks fifteen seconds apart and two rows whose POSTs take ten: the second row is sent twice and its failed row is written again |

## Left out

- JobSystem.InvAlongRuns: assumes that no operator puts back a job that a refresh holds, because otherwise it is false (`JobSystem.OneHolderIffNoHeldRetry`); `SCHEDULER_ENABLED=false`, several processes with clocks that differ, and job rows edited in the database by hand are not modelled.
- QueueRuns.NegativeCacheHolds: assumes that no audit failure overwrites the marker and no operator puts it back, because otherwise it is false; both counterexamples are listed above.
- Attempts.ErrorsAtMostThreePlusRetries: assumes that no operator puts back a job that a refresh holds, because otherwise it is false (`Attempts.HeldRetryBreaksTheAccounts`).
- RefreshOne.Worker.RunJob: one clock reading stands for all those of a refresh, and the counters read before nextDelay are parameters.
- Endings.ResultAgreesWithRow: speaks of a row that is still as it was claimed, and so do the other lemmas of that module except FaultOnDoneIsRetriedIff; by `QueueRuns.CancelIsOverwritten` a cancel meanwhile changes nothing unless the refresh vanishes, and a second holder needs a retry of a held job.
- Store.CacheDb.StoreRepoMetadata: the reading of a date from a text is an input; column widths and the collation of the unique keys are not modelled, and child rows keep the order of the list.
- FacetRace.UndisturbedWritersAgree: etags are not part of the interleaving, and the row is neither deleted nor created during it.
- CreateRace.NoWriterFails: database faults other than the unique key are not part of the race; module Store has them for a writer that runs alone.
- Drain.EstimateIsNeverEarly: assumes ticks that come no later than the tick interval says; a paused scheduler gives no bound.
- Pool.TokenPool.PersistQuota: pool methods run one after the other, so a report that arrives while a flush awaits the database is not modelled (the changes between the tries of a fetch are); loading the pool and the timer-driven flush are left out.
- Client.GitHubClient.FetchRepoCore: the content of answers, the wording of its own messages, the length of a backoff pause and the extra requests for releases and branches are left out; one clock reading stands for those of a try.
- AutoPause.WakeUpFindsUsableToken: assumes an unchanged pool, because removing or resetting tokens can undo it.
- Restore.Server.PerformRestore: the shadow name is new and nobody else creates tables meanwhile; foreign keys can make a statement fail, which is one of the modelled faults; the snapshot before the restore and the database URL are left out.
- RateLimit.BucketTable.IncrementBucket: upsert and read are one step; the bounded retry on deadlock is left out.
- EnvFile.UpsertEnvLine: keys are the upper-case names the reader accepts; a value with a line break is excluded from the theorems.
- Settings.SettingsStore.WriteTunables: values arrive as text; the formatting of numbers and booleans is left out.
- Sessions.SessionStore.FindSessionById: one clock reading stands for three; a session row that another request deletes meanwhile is left out.
- Webhooks.WebhookWorker.RunWorkerTick: has the tables to itself; module WebhookRuns interleaves ticks and operators statement by statement, and `TickIsARun` ties the two.
- WebhookRuns.AttemptsAreClaims: rows and subscriptions are never deleted, as no code of the worker or its routes deletes them; other processes are further ticks.
- FetchEndings.FacetJobEndsIff: whether the library resolves or rejects a 304 is an input, as is what a resolved list holds.
- User interface, reports, dashboards, import planning, authentication, cryptography, logging and audit fan-out: no shared state with the parts above, or easy next to them.
