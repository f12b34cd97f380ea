# DisCloud: a verified model of its stateful core

DisCloud stores the chunks of files as Discord attachments and everything else in PostgreSQL. This project
models the parts of its backend whose correctness depends on whole runs, and proves what they keep. Every
mutex-protected section of the program, and every SQL transaction, is one atomic step; what processes do
between such steps interleaves freely. Code that changes fields or tables in place is modelled by classes
whose methods change fields; each is proved against a function on the abstract state, and the run theorems
are about that function. What each step does, and when, is proved once more without naming the functions that
define it: on the records of the bots, on owners, grants and chains of folders, on the rows of the tables before and
after, and on what was asked for along a run (`SchedulerLaws`, `SchedulerQueues`, `LedgerAccess`, `LedgerEffects`,
`LedgerRefusals`, `ChunkLaws`, `EventStream`, `JobLaws`, `UrlCacheLaws`).

| area | files |
|---|---|
| Bot leases: queues, rotation, cooldowns, drains, wake-ups | `SchedulerState`, `Scheduler`, `SchedulerRuns`, `SchedulerWakeups`, `SchedulerFairness`, `SchedulerRotation`, `SchedulerControlGap`, `SchedulerQueues`, `SchedulerLaws` |
| Chunk deduplication, collection of orphans, durability of files | `ChunkTables`, `ChunkGc`, `ChunkLaws`, `Durability` |
| Attempts to store a part and the retry loop | `UploadAttempts` |
| Node forest, quota ledger, trash, uploads, versions | `Forest`, `ForestEdits`, `LedgerState`, `Ledger`, `LedgerKeeps`, `LedgerCommits`, `LedgerRuns`, `LedgerLaws`, `LedgerExample`, `LedgerTables`, `LedgerEffects`, `LedgerRefusals`, `TrashBin`, `Sums` |
| Access as reachability, and the level each request needs | `Access`, `LedgerAccess` |
| Chunk layout, ranged reading, Range headers, round trip | `ChunkLayout`, `RangeReader`, `ByteRange`, `RoundTrip`, `Arithmetic`, `Text` |
| Attachment URL cache | `UrlCacheSpec`, `UrlCache`, `UrlCacheLaws` |
| Folder batches | `FolderBatch` |
| Rate limiter | `Limiter` |
| Archive paths | `ArchivePaths` |
| Runtime event stream | `EventLog`, `EventStream` |
| Job queue | `JobQueue`, `JobLaws` |

`dafny verify dfyconfig.toml --resource-limit 2000000 --verification-time-limit 0` checks everything.

## What the proofs say about the code

- A control lease starts without a broadcast (`internal/discordstore/controls.go:146-149`), and this can lose a wake-up.
  `ControlLeaseLosesWakeup` is a run in which it leaves a free bot, a waiter whose turn it is, and nothing that will
  wake it; in `CooldownLosesWakeup` the loss only shows when a cooldown ends later. `NoLostWakeupIff` is exact for
  whole runs: no state on the way loses a wake-up, now or after waiting, if and only if every control lease of the
  run is safe when it starts, which `SafeIffAtEnds` decides from finitely many times. Nothing else loses one.
- `Finalize` demands that a session has reserved its full size (`internal/uploads/finalize.go:115-117`), while `Create`
  reserves only the growth when a file is replaced (`internal/uploads/service.go:256-260`). `ReplacementCommitsIff` states
  exactly which accepted replacements can commit: those where the old or the new file is empty (and the display
  name is unchanged); `ReplacementIsRefused` is one that cannot. The ledger is consistent either way.
- Trash followed by restore is the identity unless the owner is over the quota, and then restore refuses
  (`TrashThenRestore`): with a quota lowered below current use, a deletion cannot be taken back until space is freed.
  In the same way restoring a version and then the former one brings every size and counter back, unless the owner was
  over the quota: then the way back is refused (`RestoreThenBack`).
- If a sweep stops between deleting a blob and deleting its row, a later upload of the same content is
  deduplicated onto a blob that is gone; `TornSweepRun` is such a run from the empty store. `BlobsInUseSurviveIff` is
  exact for runs in which processes stop anywhere: nothing in use loses its blob if and only if no upload attaches a
  row whose blob is gone, and runs of whole sweeps never do.
- Dead branches: the cap on the adaptive chunk size (`DesiredNeverExceedsDefault`), the cycle check of a restore
  (`NoCycleOnRestore`), the counter-underflow exits (`CountersNeverUnderflow`) and the removal of a just stored message
  after `Register` (`CleanupNeverNeeded`).
- The retry loop of an upload ends because bot ids carry no surrounding spaces: `StartAttempt` trims them and the
  exclusion list holds them trimmed (`internal/uploads/attempts.go:90`). A turn that offers an untrimmed form of a
  tried id goes on without having changed anything, so the next can be the same (`TryOnce`, last cases).

## Model

| member | source | states |
|---|---|---|
| `Scheduler.Scheduler.SelectAvailableBot` | internal/discordstore/fairness.go:26-65 | the rotation loop over the bots returns the first free bot from `next` on, whether any bot is eligible or busy, and the earliest cooldown end, each defined without the loop |
| `Scheduler.Scheduler.CooldownState` | internal/discordstore/runtime.go:352-368 | forgetting an elapsed cooldown cannot be observed: the abstract state is unchanged and the answer is that of the unpruned table |
| `Scheduler.Scheduler.OldestAssignableWaiter` | internal/discordstore/fairness.go:122-141 | the scan over an unordered set of waiters yields the least assignable waiter number, or 0 |
| `Scheduler.Scheduler.NextAssignableFairWaiter` | internal/discordstore/fairness.go:107-120 | the loop over the rotation returns the waiter whose turn it is, as `NextFairSpec` characterises it |
| `Scheduler.Scheduler.WaiterCanUseAvailableBot` | internal/discordstore/fairness.go:143-164 | true exactly when some bot that the waiter does not exclude is eligible, idle and not cooling |
| `Scheduler.Scheduler.HasFairWaiters` | internal/discordstore/fairness.go:166-173 | true exactly when some operation of the rotation has a waiter |
| `Scheduler.Scheduler.AcquireIteration` | internal/discordstore/scheduler.go:116-235 | one critical section of `Acquire` on the mutable fields takes the abstract state to exactly the next one, with the same verdict and place in the queue |
| `Scheduler.Scheduler.AcquireControlIteration` | internal/discordstore/controls.go:105-151 | one critical section of `AcquireControl` does the same for a control call, without a broadcast when it grants |
| `Scheduler.Scheduler.JoinFairQueue` | internal/discordstore/scheduler.go:154-162 | a fair call without a place queues up, with its exclusions and a broadcast, exactly when fair waiters exist |
| `Scheduler.Scheduler.Enqueue` | internal/discordstore/runtime.go:370-389 | a new, higher waiter number joins the queue of its operation and no other |
| `Scheduler.Scheduler.DequeueAcquireWaiter` | internal/discordstore/fairness.go:77-89 | the waiter leaves its queue and the exclusions, and the answer says whether it was registered |
| `Scheduler.Scheduler.Grant` | internal/discordstore/scheduler.go:174-203 | a grant leaves the queue, moves both cursors, takes the bot and broadcasts exactly when the call was queued or fair waiters remain |
| `Scheduler.Scheduler.Release` | internal/discordstore/scheduler.go:318-347 | the body of the release closure frees the bot, completes its drain and broadcasts |
| `Scheduler.Scheduler.Cooldown` | internal/discordstore/scheduler.go:259-286 | a cooldown only ever extends, with a broadcast when it does; a non-positive duration or an earlier end changes nothing |
| `Scheduler.Scheduler.DisableOrDrain` | internal/discordstore/controls.go:228-258 | the bot leaves service at once, draining exactly when it is leased |
| `Scheduler.Scheduler.Enable` | internal/discordstore/controls.go:39-57 | the bot returns to service and a drain is cancelled |
| `Scheduler.Scheduler.SetHealthy` | internal/discordstore/controls.go:59-76 | health changes and is broadcast; nothing else moves |
| `Scheduler.Scheduler.AddBot` | internal/discordstore/scheduler_dynamic.go:3-20 | a new bot with a token joins the end of the ring, enabled and healthy; a blank id or token and a known bot are refused, each with its error, and change nothing |
| `Scheduler.Scheduler.SelectNext` | internal/discordstore/scheduler.go:68-98 | the lease-free selection picks the next bot and moves the ring, ignoring `busy` |
| `SchedulerState.FirstFreeIffUsable` | internal/discordstore/fairness.go:26-65 | the loop that finds a bot and the loop that tests a waiter agree, though written separately |
| `SchedulerState.FirstFreeSpec` | internal/discordstore/fairness.go:31-62 | the search from the ring's position finds a free bot exactly when one stands at some place of the ring |
| `SchedulerState.AcquireStepFacts` | internal/discordstore/scheduler.go:116-235 | a grant takes a bot that was free and not excluded and adds exactly its lease; no other verdict touches leases, and a parked call holds a queue place and the current channel |
| `SchedulerRuns.RunKeepsInv` | internal/discordstore/scheduler.go:100-251 | over every interleaving of calls, wake-ups, cancellations, releases, administration and time, queues and calls mirror each other and leases stay exact |
| `SchedulerRuns.LeaseSafety` | internal/discordstore/scheduler.go:300-348 | in every reachable state each bot has at most one outstanding lease, `busy` and `leases` name exactly the leased bots, draining implies busy, and a second release of a closure frees nothing |
| `SchedulerRuns.NoLeaseUntilEnabled` | internal/discordstore/controls.go:212-226 | over every run without `Enable`, a drained or disabled bot gets no ordinary lease |
| `SchedulerRuns.DrainTakesOutOfService` | internal/discordstore/controls.go:228-258 | draining takes a bot out of service immediately and leaves its lease running |
| `SchedulerWakeups.NextFairSpec` | internal/discordstore/fairness.go:107-141 | the rotation finds a waiter whenever one is assignable, and it precedes every other in cyclic order of operations, then age |
| `SchedulerWakeups.NoLostWakeupIff` | internal/discordstore/scheduler.go:219-250 | over every run: in all states on the way, now and after any further wait, the waiter whose turn it is runs, or its channel was replaced, or its timer will be due, if and only if every control lease of the run is safe when it starts |
| `SchedulerWakeups.NoLostWakeup` | internal/discordstore/scheduler.go:219-250 | in particular no run without control calls loses a wake-up |
| `SchedulerWakeups.ControlLeaseIsSafeIff` | internal/discordstore/controls.go:146-149 | from any state: after a control lease the turn is awake, and stays so however long nothing else happens, if and only if at every later time, counting the bot as taken, nobody has the turn or its holder is awake already |
| `SchedulerWakeups.SafeIffAtEnds` | internal/discordstore/controls.go:128-149 | that condition can be told before the lease: it holds at all later times exactly when it holds now and at each running cooldown's end |
| `SchedulerWakeups.NoLostWakeupOutsideRotation` | internal/discordstore/scheduler.go:219-250 | for operations outside the rotation every run is safe, control leases or not: while a bot is free for such a waiter, it will be woken |
| `SchedulerWakeups.TurnIsServed` | internal/discordstore/scheduler.go:164-212 | when the waiter whose turn it is runs, it is granted a bot: the fairness test and the bot search cannot disagree |
| `SchedulerControlGap.ControlLeaseLosesWakeup` | internal/discordstore/controls.go:146-149 | a concrete run: a control lease starts without a broadcast, and afterwards a free bot, the waiter whose turn it is and nothing to wake it coexist |
| `SchedulerControlGap.CooldownLosesWakeup` | internal/discordstore/controls.go:146-149 | a second run: after the lease nobody has the turn and nothing is lost yet, but when a cooldown ends the turn is a waiter's whom nothing will wake |
| `SchedulerFairness.PassedOver` | internal/discordstore/fairness.go:91-182 | every fair grant made past an assignable queued waiter lowers 5 times its elders plus its distance from the cursor |
| `SchedulerFairness.BypassBudget` | internal/discordstore/fairness.go:91-182 | along every run, the times a waiter is passed over are paid for by its starting rank and by grants made while no bot suited it |
| `SchedulerFairness.BoundedBypass` | internal/discordstore/fairness.go:91-182 | a waiter that a bot suits at every fair grant is passed over at most 5 * elders + 4 times |
| `SchedulerRotation.ComesNearer` | internal/discordstore/fairness.go:31-62 | handing out another bot brings every bot that was on offer nearer to the ring's position |
| `SchedulerRotation.TurnBudget` | internal/discordstore/scheduler.go:174-203 | along every run on a fixed fleet, the times a bot is passed over are paid for by its distance and by grants for which it was not on offer |
| `SchedulerRotation.EveryBotGetsItsTurn` | internal/discordstore/scheduler.go:174-203 | a bot on offer at every grant is handed out after at most as many grants as there are other bots |
| `SchedulerLaws.GivesUpIff` | internal/discordstore/fairness.go:26-65 | `Acquire` answers `NoUsableBot` if and only if every bot whose record is enabled, healthy and not draining and that is not excluded rests and is not leased |
| `SchedulerLaws.GetsTheFirst` | internal/discordstore/scheduler.go:174-203 | a granted bot is on the ring, not excluded, enabled, healthy, not draining, idle and not resting, and no such bot stands nearer to the ring's position, which moves just behind it |
| `SchedulerLaws.ParksWithTimer` | internal/discordstore/scheduler.go:205-235 | the timer of a parked call rings when the first of the resting bots that suit it is back, if it waits for a bot |
| `SchedulerLaws.WhoGoesFirst` | internal/discordstore/fairness.go:91-182 | while a bot can serve it, a call is granted one if and only if it may pass the queue or stands, in cyclic order of operations and then age, before every other waiter that some bot could serve |
| `SchedulerLaws.WhatAControlCallGets` | internal/discordstore/controls.go:105-151 | a control call gets its bot if and only if the bot is known, idle and not resting, in whatever order it is, and parks if and only if it is leased |
| `SchedulerLaws.AddedMayServe` | internal/discordstore/scheduler_dynamic.go:3-20 | a new bot stands last on the ring and may serve at once |
| `SchedulerLaws.HealthFollowsRequests` | internal/discordstore/controls.go:59-76 | after any run a bot's health is what was last reported of it: calls, leases, releases, drains and time do not touch it |
| `SchedulerLaws.ServiceFollowsRequests` | internal/discordstore/controls.go:39-57 | after any run a bot is in service exactly if that was asked for last: the end of a lease completes a drain and nothing else |
| `SchedulerLaws.RestFollowsRequests` | internal/discordstore/scheduler.go:259-286 | after any run a bot rests at a time if and only if one of the cooldowns it was given lasts beyond that time |
| `SchedulerLaws.DrainsWhenLeased` | internal/discordstore/controls.go:228-258 | disabling a bot in service drains it if it is leased and disables it otherwise |
| `SchedulerLaws.SelectsTheNext` | internal/discordstore/scheduler.go:68-98 | the lease-free selection finds nothing if and only if no bot that is not excluded and not resting is in good order, and otherwise picks the nearest on the ring, leased or not |
| `SchedulerLaws.HandedOutInGoodOrder` | internal/discordstore/fairness.go:31-62 | no call and no selection ever hands out a bot whose record is not enabled, healthy and not draining, or that rests |
| `SchedulerLaws.NotHandedOutWhileUnhealthy` | internal/discordstore/controls.go:212-226 | over every run without a report of health, an unhealthy bot gets no ordinary lease and is not selected |
| `SchedulerQueues.NothingIsLeftBehind` | internal/discordstore/fairness.go:77-89 | over every run, when all calls have ended, granted, failed or cancelled, no queue holds a place and no exclusions stay registered |
| `SchedulerQueues.CallsTellWhen` | internal/discordstore/scheduler.go:116-235 | a pass of `Acquire` broadcasts if and only if it grants to a call that had queued or past others that still do, gives up a place, or takes one |
| `SchedulerQueues.ChangesTellWhen` | internal/discordstore/controls.go:39-76 | an administrative or background change broadcasts if and only if it changed a record, a cooldown or the ring |
| `ChunkTables.Store.FindByDigest` | internal/chunks/repository.go:63-79 | the row of a content, if there is one, uniqueness making it the only one |
| `ChunkTables.Store.Register` | internal/chunks/repository.go:98-149 | insert or find by content: one row a content, and `created` tells which |
| `ChunkTables.Store.AttachPart` | internal/uploads/parts.go:284-341 | a part is attached exactly to an open session that has no such part and to a known row, which is then in use; otherwise nothing changes |
| `ChunkTables.Store.RemoveCandidate` | internal/orphangc/service.go:232-283 | the row goes exactly if nothing refers to it any more; stale parts of closed sessions go with it |
| `ChunkTables.Store.FinalizeCommit` | internal/uploads/finalize.go:198-275 | an open session closes, its parts become the rows of the file and of a version, and all of these are ready; any other session changes nothing |
| `ChunkTables.Store.RestoreVersionCommit` | internal/files/versions.go:179-222 | the file takes over the rows of one of its own versions, recorded as a new version; all older versions stay |
| `ChunkTables.Store.PurgeCommit` | internal/nodes/purge.go:161-295 | files, their versions and references go; an active upload stops everything |
| `ChunkGc.BlobsInUseSurviveIff` | internal/orphangc/service.go:78-127 | in every interleaving of uploads, sweeps, crashes at any point, commits, cancellation, expiry, restore and purge: the blob of every chunk that a file, a version or an open session refers to is there with that chunk's content, and file and version chunks are ready, in all states on the way, if and only if no upload attaches a row whose blob is gone |
| `ChunkGc.AttachIsSafeIff` | internal/uploads/parts.go:284-341 | attaching keeps that promise if and only if the blob of the attached row is there |
| `ChunkGc.BlobsInUseSurvive` | internal/orphangc/service.go:78-127 | in particular no interleaving of whole sweeps breaks it |
| `ChunkGc.RunKeepsInv` | internal/orphangc/service.go:78-127 | every interleaving, torn sweeps included, keeps tables, locks and the knowledge of every process consistent |
| `ChunkGc.CandidateStaysUnreferenced` | internal/orphangc/service.go:199-230 | once loaded under the digest lock, a candidate stays unreferenced whatever all other processes do |
| `ChunkGc.RemovalCompletes` | internal/orphangc/service.go:232-283 | the row deletion that follows a blob deletion always finds the row removable |
| `ChunkGc.CleanupNeverNeeded` | internal/uploads/parts.go:221-230 | under the lock `Register` always inserts, so the branch that deletes the message just stored is never taken |
| `ChunkGc.Exclusion` | internal/chunks/lock.go:13-67 | no two processes are inside the critical section of one content |
| `ChunkGc.TornSweepLosesData` | internal/orphangc/service.go:101-108 | from any consistent state: if a sweeper stops between deleting blob and row, a later upload of the same content is deduplicated onto the missing blob |
| `ChunkGc.TornSweepRun` | internal/orphangc/service.go:101-108 | the whole run, from the empty store to a lost part |
| `ChunkLaws.PurgeDoes` | internal/nodes/purge.go:252-295 | on the tables before and after: unless a session to be closed goes on, exactly the doomed files and their versions are gone, with the closed sessions and their parts; a row is gone if and only if a doomed file or version used it and nothing left does; all else is unchanged |
| `ChunkLaws.RegisterDoes` | internal/chunks/repository.go:98-149 | a content that has a row keeps it and nothing changes; a new content gets one unfinished row |
| `ChunkLaws.AttachDoes` | internal/uploads/parts.go:284-341 | the part is there afterwards and nothing else changed, if the session is open and has no such part and the row exists; otherwise nothing changed |
| `ChunkLaws.RemoveCandidateDoes` | internal/orphangc/service.go:232-283 | the parts of closed sessions let go of the row, and it goes if and only if it is unfinished and no file, version or open session uses it |
| `ChunkLaws.FinalizeDoes` | internal/uploads/finalize.go:198-275 | on the tables: the session is completed, its parts are gone and are the rows of the file and of a new version, and exactly these rows became ready |
| `ChunkLaws.RestoreVersionDoes` | internal/files/versions.go:179-222 | on the tables: file and new version have the rows of the source, which must be a version of that file; nothing else changes |
| `ChunkLaws.LoadDecides` | internal/orphangc/service.go:199-230 | a sweep goes on to delete a row if and only if it is unfinished, older than the grace period and not used by a file, a version or an open session |
| `ChunkLaws.RowsGoOnlyThen` | internal/orphangc/service.go:232-283 | in every step a row disappears only by a purge of its last user or at the end of a sweep, and never while it is in use |
| `ChunkLaws.BlobsGoOnlyThen` | internal/orphangc/service.go:101-127 | in every step a stored message is deleted only by a sweep of the unfinished and unused row that names it |
| `ChunkLaws.SweepCollects` | internal/orphangc/service.go:78-127 | an undisturbed sweep of an orphan deletes its row and its message and releases the lock |
| `ChunkLaws.InspectDecides` | internal/uploads/parts.go:101-152 | under the digest lock an upload goes on if and only if the session is open and lacks the part, and stores a message only if its content has no row |
| `ChunkLaws.UploadArrives` | internal/uploads/parts.go:132-341 | an undisturbed upload attaches a row of its content; it stores a message exactly if the content had no row |
| `Durability.VersionEndures` | internal/files/versions.go:143-232 | over every run a version that is still there is made of the same rows, of the same contents, at the same places in the store |
| `Durability.ContentEndures` | internal/uploads/finalize.go:198-275 | after a complete upload is finalized and anything else happens, as long as no upload attaches a row whose blob is gone and the version is not purged, its file is well laid out in the store and its content is the uploaded parts, joined |
| `Durability.DownloadLater` | internal/files/reader.go:53-181 | so a download at any later time, whole or of a range, gets the uploaded parts or that slice of them; only a failing store interrupts it |
| `UploadAttempts.LastCountsBots` | internal/uploads/attempts.go:153-162 | the greatest attempt number of a part equals the number of bots tried: numbers have no gaps and bots no repeats |
| `UploadAttempts.Table.UsedBotIds` | internal/uploads/attempts.go:46-82 | the bots tried for a part, never more than five; a negative part number is refused |
| `UploadAttempts.Table.StartAttempt` | internal/uploads/attempts.go:84-222 | accepted if and only if the session is there, open and in time, the part one it expects, the trimmed id not blank and untried, and fewer than five were tried; the new row has the next number; each refusal has its reason |
| `UploadAttempts.Table.FinishAttempt` | internal/uploads/attempts.go:224-288 | the first outcome stays: repeating it succeeds without effect, contradicting it is refused |
| `UploadAttempts.Table.TryOnce` | internal/uploads/parts.go:132-260 | one turn, for any bot id: it goes on only with a bot that then counts as tried by its trimmed id; that is progress exactly when the trimmed id was untried, and a bot offered under an untrimmed form of a tried id makes the turn go on with nothing changed |
| `UploadAttempts.Table.Deliver` | internal/uploads/parts.go:132-260 | with bot ids free of surrounding spaces the retry loop ends whatever rival calls start meanwhile, sends to each bot at most once and to at most those left of five, leaves every earlier attempt failed, and ends as the last turn explains |
| `Forest.Descend` | internal/search/service.go:188-198 | a recursive query with `UNION` returns exactly the nodes reachable downward over undeleted children |
| `Forest.SubtreeBytes` | internal/nodes/trash.go:258-287 | a recursive query with `UNION ALL` counts each active file below a node exactly once |
| `Forest.ActiveIsLive` | internal/nodes/trash.go:258-287 | active below a node and live from the root agree under a live node |
| `ForestEdits.TrashLive` | internal/nodes/trash.go:48-73 | deleting a node takes exactly the part active under it out of life, for its owner only |
| `ForestEdits.RestoreLive` | internal/nodes/trash.go:176-224 | restoring brings exactly that part back, and keeps the graph a forest |
| `ForestEdits.MoveLive` | internal/nodes/service.go:490-513 | moving between live folders changes nobody's live nodes and keeps the graph a forest |
| `ForestEdits.InsertLeaf` | internal/nodes/service.go:87-166 | a new child adds exactly itself to the live nodes of its owner |
| `ForestEdits.PurgeForest` | internal/nodes/purge.go:161-295 | removing a whole subtree leaves every other ancestor chain as it was |
| `ForestEdits.PurgeLive` | internal/nodes/purge.go:161-295 | purging a deleted subtree touches nobody's live nodes |
| `Access.ResolveByWalk` | internal/acl/service.go:311-370 | the upward walk yields the owner's, the administrator's or the best granted level, or nothing unless a root is reached over undeleted nodes |
| `Access.ScoreIsMaximum` | internal/acl/service.go:326-340 | the score on a live chain is attained by some ancestor and exceeded by none |
| `Access.VisibleIffResolves` | internal/search/service.go:154-204 | the downward fixpoint contains a node if and only if the upward walk gives it at least View |
| `Access.FindActiveGrants` | internal/search/service.go:154-181 | walking up from every grant finds exactly the grants on live folders |
| `Access.FindStructuralRoots` | internal/search/service.go:176-187 | the live roots the user owns, or all of them for an administrator, and the active grants |
| `Access.StructuralAccess` | internal/search/service.go:154-204 | the set computed by the query, grants upward and then nodes downward, decides viewing for every node |
| `Access.ListedChildLevel` | internal/nodes/browser.go:217-233 | the level computed incrementally for a listed child is the one resolved from scratch |
| `Access.AccessInherited` | internal/acl/service.go:311-370 | access never shrinks on the way down a live path |
| `LedgerRuns.RunsKeepTheLedger` | internal/adminops/storage.go:171-213 | from empty tables, after any sequence of seventeen kinds of request the nodes form a rooted forest with unique sibling names and every used and reserved counter equals the recursively derived sum |
| `LedgerRuns.Run` | internal/nodes/trash.go:33-234 | any sequence of requests, committed or refused, ends in tables that satisfy the invariant |
| `LedgerRuns.StepKeepsLedger` | internal/nodes/trash.go:33-234 | every committed transaction keeps forest, names, references and counters, and none but `SetQuota` puts an owner over the quota |
| `LedgerRuns.CountersNeverUnderflow` | internal/uploads/service.go:647-669 | on a consistent ledger no request ever leaves through a counter-underflow exit |
| `LedgerRuns.QuotaHolds` | internal/uploads/service.go:687-707 | a user within the quota stays within it over every sequence of requests without a quota change |
| `LedgerKeeps.TrashKeeps` | internal/nodes/trash.go:33-89 | trashing takes exactly the bytes of the files that stop being live off the owner's counter |
| `LedgerKeeps.RestoreKeeps` | internal/nodes/trash.go:91-234 | restoring, in place or elsewhere and perhaps renamed, adds exactly the bytes that come back, within the quota |
| `LedgerKeeps.NoCycleOnRestore` | internal/nodes/trash.go:140-174 | a deleted node lies on no live chain, so the cycle check of a restore never fires |
| `LedgerKeeps.MoveKeeps` | internal/nodes/service.go:424-524 | moving keeps the ledger: no cycle, no change of owner, no counter to adjust |
| `LedgerKeeps.RenameKeeps` | internal/nodes/service.go:349-422 | renaming keeps the ledger |
| `LedgerKeeps.CreateFolderKeeps` | internal/nodes/service.go:87-166 | a new folder keeps the ledger |
| `LedgerKeeps.AddFoldersKeeps` | internal/nodes/batch.go:54-116 | a batch of new folders, in the order of its parents, keeps the ledger and touches no counter |
| `LedgerKeeps.CreateSessionKeeps` | internal/uploads/service.go:161-364 | a session reserves, within the quota, exactly what its row says |
| `LedgerKeeps.CancelKeeps` | internal/uploads/service.go:391-447 | cancelling gives back exactly the reservation, once |
| `LedgerKeeps.ExpireKeeps` | internal/uploads/service.go:505-563 | expiry always commits and gives back the reservation of a session that was still pending |
| `LedgerCommits.FinalizeKeeps` | internal/uploads/finalize.go:86-304 | a finalization turns a reservation into used bytes, for a new file or a new version |
| `LedgerCommits.FinalizeCountersHold` | internal/uploads/finalize.go:86-304 | its exits for a counter too small or a changed owner are unreachable |
| `LedgerCommits.PurgeKeeps` | internal/nodes/purge.go:161-295 | purging deleted nodes changes no counter |
| `LedgerCommits.RestoreVersionKeeps` | internal/files/versions.go:143-232 | restoring a version charges exactly the difference of sizes, within the quota when it grows |
| `LedgerCommits.ReconcileChangesNothing` | internal/adminops/storage.go:121-279 | on a consistent ledger reconciliation of any users writes back what is there |
| `LedgerLaws.ReplacementCommitsIff` | internal/uploads/finalize.go:115-117 | an accepted, complete replacement upload commits if and only if the old or the new file is empty, the display name is unchanged and the counter has room |
| `LedgerExample.ReplacementIsRefused` | internal/uploads/finalize.go:115-117 | an instance, from empty tables: an accepted replacement of a five-byte file by seven bytes whose finalization, all parts present, is refused |
| `LedgerLaws.NewUploadCommits` | internal/uploads/finalize.go:138-260 | an accepted, complete upload of a new file commits if and only if the counter stays within a bigint |
| `LedgerLaws.CancelUndoesCreate` | internal/uploads/service.go:391-447 | cancelling right after creating restores every table, but for the closed session row |
| `LedgerLaws.TrashThenRestore` | internal/nodes/trash.go:33-234 | restore undoes trash on every table, unless the owner was over the quota: then it is refused |
| `LedgerAccess.CheckMeans` | internal/nodes/service.go:525-556 | the access check passes for an administrator, for the owner, and for whoever has a grant of at least the level somewhere on the undeleted chain; with a lower grant it says forbidden, with none not found |
| `LedgerAccess.ChangesAreEntitled` | internal/nodes/service.go:537-556 | whatever request with an actor changes the tables, the actor owns, administers or has the grant that it needs: 2 on the node, on both ends of a move, on the destination of a restore and on the folder of uploads and batches, 3 to grant |
| `LedgerAccess.OthersAreRefused` | internal/nodes/service.go:537-556 | a request that gets as far as its check is refused without it: forbidden if the actor may view the node, not found otherwise |
| `LedgerAccess.MoveNeedsDestination` | internal/nodes/service.go:457-513 | the same at the far end of a move |
| `LedgerAccess.RestoreNeedsDestination` | internal/nodes/trash.go:113-174 | the same at the destination of a restore, where an invisible destination is reported as a missing target |
| `LedgerEffects.CreateFolderIff` | internal/nodes/service.go:87-166 | a folder is created if and only if the actor may edit the parent, which is an undeleted folder without an undeleted child of that name key |
| `LedgerEffects.CreateFolderDoes` | internal/nodes/service.go:87-166 | exactly one row is new: a folder of that name under the parent, owned by the owner of the parent |
| `LedgerEffects.RenameIff` | internal/nodes/service.go:349-422 | a rename commits if and only if the actor may edit the node, it is no root and no other undeleted child of its parent has the key |
| `LedgerEffects.RenameDoes` | internal/nodes/service.go:349-422 | name and key of that node change and nothing else |
| `LedgerEffects.MoveIff` | internal/nodes/service.go:424-524 | a move commits if and only if the actor may edit both ends, the owner stays the same, the destination is not below the node and the name is free there; moving to where it is always does |
| `LedgerEffects.MoveDoes` | internal/nodes/service.go:424-524 | the parent of that node changes and nothing else |
| `LedgerEffects.TrashIff` | internal/nodes/trash.go:33-89 | a node is trashed if and only if the actor may edit it and it is no root |
| `LedgerEffects.TrashDoes` | internal/nodes/trash.go:33-89 | that node alone is marked deleted |
| `LedgerEffects.RestoreIff` | internal/nodes/trash.go:91-234 | a restore commits if and only if the actor may, the name is free at the destination and the quota has room for what comes back |
| `LedgerEffects.RestoreDoes` | internal/nodes/trash.go:176-224 | that node alone is undeleted, at its destination and under its new or old name |
| `LedgerEffects.PurgeIff` | internal/nodes/purge.go:39-75 | a purge commits if and only if the node is deleted, the actor owns it or administers, and no upload goes on in it |
| `LedgerEffects.PurgeDoes` | internal/nodes/purge.go:161-295 | exactly the node and all below it are gone, with their sizes, versions, grants and sessions; everything else is unchanged |
| `LedgerEffects.EmptyTrashDoes` | internal/nodes/purge.go:77-159 | emptying the trash takes all nodes of the owner that are deleted or below a deleted one, and is refused if and only if it is not the actor's or an upload goes on in it |
| `LedgerEffects.CreateSessionIff` | internal/uploads/service.go:161-364 | an upload is accepted if and only if the actor may edit the folder, the name is free or the target is the file of that name, and the quota has room for the growth |
| `LedgerEffects.CreateSessionDoes` | internal/uploads/service.go:161-364 | the new row is open, the actor's, and its reservation, the growth, is charged to the owner of the folder |
| `LedgerEffects.CancelDoes` | internal/uploads/service.go:391-447 | an open session becomes cancelled and its reservation is given back; a cancelled or expired one changes nothing; others, and those of strangers, are refused |
| `LedgerEffects.ExpireDoes` | internal/uploads/service.go:505-563 | an open session whose time is up becomes expired and gives back its reservation; nothing else happens to any other |
| `LedgerEffects.FinalizeIff` | internal/uploads/finalize.go:86-304 | a finalization commits if and only if the session is the actor's, complete, in time, fully reserved, its folder editable, and the file or the version it makes fits; a completed one commits without effect |
| `LedgerEffects.FinalizeMakesFile` | internal/uploads/finalize.go:138-260 | a new upload makes one node, its size and its first version, completes the session and moves its size from reserved to used |
| `LedgerEffects.FinalizeReplaces` | internal/uploads/finalize.go:138-260 | a replacement gives the target the new size and a new version of it and charges the difference |
| `LedgerEffects.RestoreVersionIff` | internal/files/versions.go:143-232 | a version is restored if and only if the actor may edit the file, the version is one of that file and the quota has room with its size |
| `LedgerEffects.RestoreVersionDoes` | internal/files/versions.go:169-222 | file and new version have exactly the size of the source version, the owner's counter moves by that size minus the old one, and every other row is unchanged |
| `LedgerEffects.RestoreThenBack` | internal/files/versions.go:143-232 | restoring a version and then the former one brings back every size and counter, unless the owner was over the quota: then the way back is refused |
| `LedgerEffects.SetGrantDoes` | internal/acl/service.go:168-360 | a grant is set or taken by whoever may manage the folder, for another user than its owner, and is the only one that changes |
| `LedgerEffects.CreateUserDoes` | internal/adminusers/service.go:85-200 | a new user starts with empty counters and an own root folder, and nothing else changes |
| `LedgerEffects.SetQuotaDoes` | internal/adminusers/service.go:403-432 | the limit of that user changes and nothing else |
| `LedgerEffects.ReconcileRepairs` | internal/adminops/storage.go:121-279 | whatever the counters said before, those of the chosen users equal the derived sums afterwards, and the others are as they were |
| `LedgerEffects.AddFoldersDoes` | internal/nodes/batch.go:54-116 | a committed batch adds each folder it lists, under its parent, with its name and the owner of the parent, and nothing else |
| `LedgerRefusals.CreateFolderRefuses` | internal/nodes/service.go:87-166 | each refusal names what is the case: hidden parent, no folder, read-only, id in use, name taken; there is no other |
| `LedgerRefusals.RenameRefuses` | internal/nodes/service.go:349-422 | likewise: hidden, root, read-only, name taken |
| `LedgerRefusals.MoveRefuses` | internal/nodes/service.go:424-524 | likewise for both ends: a cycle only if the destination is below the node, a foreign owner told to administrators and hidden from others |
| `LedgerRefusals.TrashRefuses` | internal/nodes/trash.go:33-89 | likewise: hidden, root, read-only; on a valid ledger the counter is never the reason |
| `LedgerRefusals.RestoreIntoRefuses` | internal/nodes/trash.go:91-174 | likewise for node, home and destination; a destination that is missing or hidden is one answer, and a cycle is never the reason |
| `LedgerRefusals.RestoreRefuses` | internal/nodes/trash.go:176-234 | once the destination is accepted: name taken, or no room for exactly the bytes that would come back |
| `LedgerRefusals.PurgeRefuses` | internal/nodes/purge.go:39-75 | likewise: not there or somebody else's, root, not deleted, an upload going on below it |
| `LedgerRefusals.ReservationRefuses` | internal/uploads/service.go:220-275 | a name held by another file, held by a folder, and a target that is not there are told apart |
| `LedgerRefusals.CreateSessionRefuses` | internal/uploads/service.go:161-364 | likewise for the whole acceptance: over the quota only if the growth does not fit |
| `LedgerRefusals.CancelRefuses` | internal/uploads/service.go:391-447 | refused only if the session is unknown or a stranger's, or no longer open |
| `LedgerRefusals.ChecksRefuse` | internal/uploads/finalize.go:86-137 | each check of a finalization that fails names what is the case; counter and owner are never the reason |
| `LedgerRefusals.NewFileRefuses` | internal/uploads/finalize.go:138-260 | the commit of a new file is refused only for ids in use, a name taken or a counter too large |
| `LedgerRefusals.ReplacementRefuses` | internal/uploads/finalize.go:138-260 | the commit of a replacement only for a target that is gone, has moved, was renamed or changed owner, an id in use or a counter too large |
| `LedgerRefusals.FinalizeRefuses` | internal/uploads/finalize.go:86-304 | first strangers, then the checks, then the commit decide on the answer |
| `LedgerRefusals.RestoreVersionRefuses` | internal/files/versions.go:143-232 | likewise: hidden or no file, read-only, no such version, id in use, no room at the size of the version |
| `LedgerRefusals.SetGrantRefuses` | internal/acl/service.go:168-360 | likewise: an invalid level or the owner, no folder, not managed by the actor, nobody there |
| `Ledger.QuotaAllowsMeans` | internal/uploads/service.go:687-707 | the stepwise comparison without overflow is the comparison of the whole sum |
| `TrashBin.EmptyTrashRemovesTheDead` | internal/nodes/purge.go:77-159 | emptying the trash removes exactly the owner's nodes that are deleted or under a deleted node, or refuses because of an active upload |
| `LedgerTables.FolderContains` | internal/nodes/service.go:597-622 | the walk meets the target if and only if it is an ancestor |
| `LedgerTables.SubtreeIds` | internal/nodes/purge.go:168-190 | the downward query regardless of deletion is the set of all descendants |
| `LedgerTables.TrashRoots` | internal/nodes/purge.go:96-131 | each of the owner's deleted nodes without deleted ancestor, once |
| `LedgerTables.UsedBytes` | internal/adminops/storage.go:171-200 | the walk down from the owner's roots sums exactly the live files |
| `LedgerTables.Tables.Trash` | internal/nodes/trash.go:33-89 | the updates on the tables reach exactly the specified state or, refused, none |
| `LedgerTables.Tables.Restore` | internal/nodes/trash.go:91-234 | the same for a restore, with its order of refusals |
| `LedgerTables.Tables.Move` | internal/nodes/service.go:424-524 | the same for a move |
| `LedgerTables.Tables.PurgeTx` | internal/nodes/purge.go:161-295 | the ordered deletes with their cascades remove exactly the subtree and what hangs on it |
| `LedgerTables.Tables.EmptyTrash` | internal/nodes/purge.go:77-159 | the loop over the trash roots never meets an id already purged: its only refusals are a foreign trash and an active upload, and then nothing changed |
| `LedgerTables.Tables.Finalize` | internal/uploads/finalize.go:86-304 | the sequence of inserts and updates reaches exactly the specified state or, refused, none |
| `LedgerTables.Tables.ReconcileQuota` | internal/adminops/storage.go:121-279 | the loop sets the counters of one user or of all to the derived sums and leaves the others; an unknown user is refused |
| `ChunkLayout.PlanWithinBounds` | internal/uploads/chunk_planner.go:44-74 | the planned chunk lies between the clamped minimum and the default and makes no more parts than the default would or than there are slots |
| `ChunkLayout.DesiredNeverExceedsDefault` | internal/uploads/chunk_planner.go:64-71 | the branch that cuts the adaptive size down to the default is dead |
| `ChunkLayout.PlanIsSmallest` | internal/uploads/chunk_planner.go:44-74 | the planned chunk is the default or the least size in bounds that makes no more parts than the free bots can take |
| `ChunkLayout.PartCountIsLeast` | internal/uploads/service.go:709-729 | the number of parts is the least whose parts cover the file |
| `ChunkLayout.PartsTile` | internal/uploads/parts.go:353-361 | expected parts are non-empty, no larger than a chunk, adjacent, and end at the end of the file |
| `ChunkLayout.CompleteIff` | internal/uploads/finalize.go:315-342 | the count, maximum and mismatch checks accept if and only if the rows are exactly 0 to n - 1 with their expected sizes |
| `ChunkLayout.ValidateParts` | internal/uploads/finalize.go:315-342 | one pass over the rows decides completeness |
| `RangeReader.PartIsSlice` | internal/files/reader.go:114-151 | within a part the file is the blob, shifted |
| `RangeReader.Reader.ChunkFor` | internal/files/reader.go:153-181 | the sliding metadata window answers with the row of the wanted part and is never indexed out of range |
| `RangeReader.Reader.OpenCurrent` | internal/files/reader.go:114-151 | what is opened is the content ahead; on a well-laid file the storage-invariant exits are unreachable, and only a failing store fails |
| `RangeReader.Reader.Read` | internal/files/reader.go:53-102 | for any buffer, short reads and position, the bytes delivered are the next of the file; end of file exactly at the end; no empty read without an error |
| `RangeReader.OpenFile` | internal/files/service.go:193-209 | accepted exactly for spans inside the file, unless the store fails |
| `RangeReader.ReadAll` | internal/files/reader.go:53-102 | reading to the end with buffers of any sizes delivers exactly the span, and gets to the end if the store does not fail |
| `ByteRange.AcceptedIsInside` | internal/files/range.go:23-76 | an accepted header names a non-empty span inside the file |
| `ByteRange.BetweenParses` | internal/files/range.go:54-75 | first and last position written in decimal read back as that span, cut at the end of the file |
| `ByteRange.FromParses` | internal/files/range.go:54-75 | a first position alone runs to the end |
| `ByteRange.SuffixParses` | internal/files/range.go:40-52 | a suffix length names the last bytes |
| `ByteRange.BackwardsIsRefused` | internal/files/range.go:54-75 | a range ending before its start is invalid, but unsatisfiable when it starts beyond the file |
| `ByteRange.FormParses` | internal/files/range.go:23-52 | a header of one unit `bytes`, in any case, and two texts around the first dash is read by its two texts |
| `ByteRange.OtherwiseInvalid` | internal/files/range.go:23-38 | a blank header asks for everything, and every other header not of that form is invalid |
| `ByteRange.FromMeans` | internal/files/range.go:54-75 | a start and an end are accepted exactly for a start inside the file and no end, an end beyond the file, or one not before the start |
| `ByteRange.NumbersOnly` | internal/files/range.go:40-75 | only an optional sign and digits within 64 bits are a number, of the value they say |
| `ByteRange.NumbersRead` | internal/files/range.go:40-75 | and all of those are |
| `Text.TrimSpaceMeans` | internal/files/range.go:23-26 | exactly the spaces around a string go |
| `Text.CutMeans` | internal/files/range.go:28-36 | a string is split at the first such character, if it has one |
| `ByteRange.ChunkRangeMeans` | internal/discordstore/store.go:390-404 | the range header sent to the blob store asks for exactly the wanted bytes under the same rules |
| `RoundTrip.FileIsItsParts` | internal/uploads/finalize.go:315-342 | a finalized upload is well laid out and its content is all its parts joined in order |
| `RoundTrip.Download` | internal/files/reader.go:53-181 | every accepted range of a finalized file reads back that slice of the uploaded parts; only a failing store interrupts it |
| `UrlCache.Cache.Get` | internal/discordstore/cdn_url_cache.go:43-66 | map and list, sharing their entries, step exactly as a recency-ordered sequence does |
| `UrlCache.Cache.Set` | internal/discordstore/cdn_url_cache.go:68-117 | storing refreshes in place or pushes in front and evicts from the far end, as the sequence does |
| `UrlCache.Cache.Delete` | internal/discordstore/cdn_url_cache.go:119-130 | one location leaves both structures |
| `UrlCache.Cache.DeleteMessage` | internal/discordstore/cdn_url_cache.go:132-146 | all attachments of one message and no others leave both structures |
| `UrlCacheSpec.RunKeepsInvariant` | internal/discordstore/cdn_url_cache.go:43-166 | after any run locations are distinct and at most `maxEntries` |
| `UrlCacheSpec.HandedOutUrlsAreSafe` | internal/discordstore/cdn_url_cache.go:52-57 | after any run a URL handed out with a known expiry has more than the safety window left |
| `UrlCacheSpec.HitsAreCorrect` | internal/discordstore/cdn_url_cache.go:43-66 | a hit answers what a cache without bound would answer |
| `UrlCacheSpec.RecentEntriesSurvive` | internal/discordstore/cdn_url_cache.go:108-116 | an entry is evicted only after `maxEntries` other locations have been used more recently |
| `UrlCacheLaws.StoredIsHandedOut` | internal/discordstore/cdn_url_cache.go:68-117 | a URL stored is handed out until its time is up as long as fewer than the maximum of other locations are used meanwhile |
| `UrlCacheLaws.HitIsKept` | internal/discordstore/cdn_url_cache.go:43-66 | a hit counts as use: the entry stays while fewer than the maximum of other locations are used after it |
| `UrlCacheLaws.HitIsTheLastStored` | internal/discordstore/cdn_url_cache.go:43-146 | after any run a hit is the last URL stored for that location, not deleted since, by location or message, and its time is not up |
| `UrlCacheLaws.UnboundedHoldsTheLast` | internal/discordstore/cdn_url_cache.go:43-146 | without a bound the cache holds exactly what was stored last and not removed since nor found out of date |
| `FolderBatch.Normalize` | internal/nodes/batch.go:146-189 | the map-building loop accepts exactly the batches with fit and distinct ids, fit names, distinct places and known parents |
| `FolderBatch.MetAgain` | internal/nodes/batch.go:70-83 | a folder met again while being resolved is its own ancestor |
| `FolderBatch.Batch.Resolve` | internal/nodes/batch.go:70-115 | the recursion ends, resolves parents first and fails as invalid only for references that run into a cycle |
| `FolderBatch.Batch.ResolveFolder` | internal/nodes/batch.go:191-219 | an undeleted folder of that name is reused, a file of that name is a conflict, otherwise a folder is created and counted |
| `FolderBatch.Batch.DistinctFolders` | internal/nodes/batch.go:117-135 | distinct client ids get distinct folders, created or found |
| `FolderBatch.Batch.BelowTarget` | internal/nodes/batch.go:85-101 | every resolved folder lies strictly below the target |
| `FolderBatch.CheckTarget` | internal/nodes/batch.go:45-68 | the target must be there, a folder, and open to the actor for editing, refused in that order |
| `FolderBatch.StepsAreTransaction` | internal/nodes/batch.go:54-115 | the folders created one by one amount to the ledger's batch transaction |
| `FolderBatch.CreateBatch` | internal/nodes/batch.go:39-144 | into a target that takes it, an acceptable batch is made if and only if its parent references contain no cycle and no file stands where a folder should be; a made batch is the ledger's transaction |
| `Limiter.RateLimiter.Allow` | internal/ratelimit/limiter.go:53-86 | the method on the entry map is one step of the bounded limiter and answers by the tokens there |
| `Limiter.RateLimiter.EnsureCapacity` | internal/ratelimit/limiter.go:94-123 | entries idle for a window go, and if that is not enough one updated longest ago |
| `Limiter.RateLimiter.Reset` | internal/ratelimit/limiter.go:88-92 | forgets the key and nothing else |
| `Limiter.AdmissionBound` | internal/ratelimit/limiter.go:53-86 | over any interval a key is admitted at most capacity plus elapsed refill times |
| `Limiter.BoundedAdmissionBound` | internal/ratelimit/limiter.go:53-123 | the same bound for the bounded limiter from empty, for keys neither reset nor evicted as oldest |
| `Limiter.RetryAfterIsExact` | internal/ratelimit/limiter.go:71-85 | after a denial the key is admitted at a later time if and only if at least `retryAfter` has passed |
| `Limiter.StepAgrees` | internal/ratelimit/limiter.go:94-123 | sweeping entries idle for a window cannot be observed against a limiter that forgets nobody |
| `Limiter.BoundedLikeUnbounded` | internal/ratelimit/limiter.go:53-123 | over any run a key never evicted as oldest is admitted exactly as often as without a bound |
| `Limiter.EntriesBounded` | internal/ratelimit/limiter.go:94-123 | the table never exceeds its maximum |
| `Limiter.ConfiguredAs` | internal/ratelimit/limiter.go:25-51 | the bucket holds the limit and gains as much a window; a limit, window or maximum below one falls back |
| `Limiter.EnoughTokensAdmit` | internal/ratelimit/limiter.go:53-86 | whoever has tokens for all its calls is admitted at each: nothing but its own calls spends them |
| `Limiter.FullBucketAdmits` | internal/ratelimit/limiter.go:53-86 | a key that is new or idle for a window may call as often as the capacity says, at any times |
| `Limiter.RoomMeans` | internal/ratelimit/limiter.go:94-123 | a full table forgets exactly its idle entries, or else exactly one updated longest ago; a table with room forgets nothing |
| `ArchivePaths.UniqueSegment` | internal/folders/path.go:30-43 | the first unused candidate is found within one more try than there are used names |
| `ArchivePaths.CandidatesDiffer` | internal/folders/path.go:45-53 | suffixes of different numbers differ whatever the case |
| `ArchivePaths.JoinInjective` | internal/folders/service.go:282-296 | parent and segment can be read back from a joined path, whatever the case |
| `ArchivePaths.BuildArchive` | internal/folders/service.go:237-312 | succeeds exactly on parent-first trees of archivable names; every path extends its parent's by one slash-free segment, the sanitised name or its first numbered form that is free among its siblings; entries keep ids, kinds and sizes |
| `ArchivePaths.EntriesDiffer` | internal/folders/service.go:237-312 | no two entries have paths that differ only in case |
| `ArchivePaths.ValidateLimits` | internal/folders/service.go:321-346 | the running check accepts exactly the archives whose entries and total fit, and says too large only when one of them does not |
| `ArchivePaths.CandidateIs` | internal/folders/path.go:30-53 | the first name tried is the name itself; the n-th has the number before the extension of a file, unless that is all of its name, and at the end otherwise |
| `EventLog.Log.Emit` | internal/discordstore/runtime.go:432-452 | the ring gets the event, subscribers with room get it, the others drop it |
| `EventLog.Log.EventsSince` | internal/discordstore/runtime.go:221-241 | the window of later events still held |
| `EventLog.Log.Subscribe` | internal/discordstore/runtime.go:243-262 | a new channel with the wanted or the default buffer |
| `EventLog.SinceIsSuffix` | internal/discordstore/runtime.go:225-240 | a replay holds consecutive ids up to the latest |
| `EventLog.ReplayGapMeans` | internal/httpapi/admin_bots.go:361-372 | a gap is announced if and only if the next event is no longer, or not yet, in the log |
| `EventLog.WriteReplay` | internal/httpapi/admin_bots.go:178-196 | the replay loop writes the reset, if any, and then the events |
| `EventLog.NoSilentLoss` | internal/httpapi/admin_bots.go:145-235 | however emissions, drops, subscription, replay and reading interleave, the ids written to a client are consecutive between resets, and the ring holds the latest |
| `EventLog.DrainedIsCurrent` | internal/httpapi/admin_bots.go:198-235 | a client that missed nothing and has read everything is up to date |
| `EventStream.SentIsGenuine` | internal/httpapi/admin_bots.go:145-235 | over every run, what a client is sent was emitted under that id, and every reset stands for a real gap: ids missing after its position, or a position ahead of the log |
| `EventStream.NothingWithheld` | internal/httpapi/admin_bots.go:198-235 | over every run in which the channel never dropped, after the opening exactly one message is sent for each id from the first owed to the client's position, in order, and no reset |
| `EventStream.ChannelsKeepTheirRoom` | internal/discordstore/runtime.go:432-452 | over every run only a full channel drops, and none holds more than its room |
| `EventStream.NextEventArrives` | internal/httpapi/admin_bots.go:205-222 | a client waiting for the next event is sent that event when it is emitted |
| `EventStream.NewClientWaits` | internal/httpapi/admin_bots.go:145-196 | a new client of an empty log is told so and waits for the first event |
| `JobQueue.Table.SelectCandidate` | internal/jobs/repository.go:24-58 | the first eligible job in claim order that no other claim has locked |
| `JobQueue.Table.Claim` | internal/jobs/repository.go:24-58 | exactly one eligible job becomes running under the worker with one more attempt; a blank worker name is refused |
| `JobQueue.Table.Touch` | internal/jobs/repository.go:60-75 | refreshes the lock exactly while the lease is held |
| `JobQueue.Table.Finish` | internal/jobs/repository.go:77-117 | completes or fails the job exactly while the lease is held |
| `JobQueue.Table.Retry` | internal/jobs/repository.go:119-145 | requeues the job, or lets it die when attempts are spent, exactly while the lease is held |
| `JobQueue.Table.RecoverStale` | internal/jobs/repository.go:147-177 | every stale lease is requeued or dies, nothing else changes, and none stays stale |
| `JobQueue.Run` | internal/jobs/worker.go:55-157 | any interleaving of workers, schedulers of jobs and recovery keeps rows, claims and workers consistent |
| `JobQueue.RowsAlwaysOk` | internal/jobs/repository.go:24-177 | after any run attempts never exceed the maximum, and running is exactly having an owner |
| `JobQueue.LeaseIsCurrentClaim` | internal/jobs/worker.go:55-157 | over every interleaving of workers, an accepted lease belongs to the job's current claim |
| `JobQueue.LostStaysLost` | internal/jobs/repository.go:147-177 | a claim ended or recovered never becomes current again |
| `JobQueue.TerminalIsFinal` | internal/jobs/repository.go:77-177 | completed, failed and dead jobs never change |
| `JobQueue.RecoveredWorkerIsLockedOut` | internal/jobs/worker.go:101-157 | after a recovery none of the old worker's later calls on that job succeeds |
| `JobLaws.CandidateMeans` | internal/jobs/repository.go:24-58 | the job to claim is due, waiting, has attempts left, is not locked by another claim, and none of those goes before it by priority, due time, creation and id |
| `JobLaws.ClaimDoes` | internal/jobs/repository.go:24-58 | on the rows: it runs under a named worker from now on, with one more attempt; no other row changes |
| `JobLaws.WorkerDoes` | internal/jobs/repository.go:60-145 | on the rows: only a worker that still holds its job ends, requeues or refreshes it, and only that row changes, as the request says |
| `JobLaws.RecoveryDoes` | internal/jobs/repository.go:147-177 | recovery ends exactly the running jobs whose lock is older than the timeout, and touches no other row |
| `JobLaws.FreshLeaseIsKept` | internal/jobs/repository.go:147-177 | over every run, a worker whose lock never looked older than the timeout to a recovery keeps its lease, whatever others do |
| `JobLaws.AttemptsCountClaims` | internal/jobs/repository.go:24-177 | over every run the attempts of a job are the times it was claimed, at most its maximum, and its task never changes |

## Left out

- SchedulerWakeups.NoLostWakeupIff: control calls are for operations outside the rotation, as the one caller of `AcquireControl` makes them.
- Scheduler.Scheduler.AddBot: display data and the emitted event are not modelled; the token is only compared with the blank one.
- Scheduler.Scheduler.Release: the once-guard around the closure is modelled by the set of outstanding leases in `SchedulerRuns`; emitted runtime events, throughput metrics and snapshots are not modelled.
- Scheduler.Scheduler.Enable: administration of bot ids that were never configured (default control records, errors for unknown ids) is not modelled.
- ChunkGc.BlobsInUseSurviveIff: part size and digest comparison on re-upload are dropped, contents are abstract, and a failing store call ends the process.
- ChunkTables.Store.AttachPart: the size check, the comparison with an existing part and the access check are dropped.
- Durability.ContentEndures: for uploads that make a new file; the kept version of a replacement is covered by `VersionEndures`.
- UploadAttempts.Table.Deliver: requires bot ids without surrounding spaces, because for others the loop need not end (see `TryOnce`); attaching the part afterwards is modelled in `ChunkGc`; error classes and messages are dropped, and recording the outcome of an attempt is assumed not to fail for lack of a connection.
- LedgerTables.Tables.Finalize: completeness of the parts is a parameter, decided by `ChunkLayout.ValidateParts`; the hash of the content, enqueued jobs and audit rows are dropped.
- LedgerTables.Tables.ReconcileQuota: the reported totals before and after are dropped.
- LedgerCommits.RestoreVersionKeeps: the access test before the transaction and the transaction are one step.
- LedgerKeeps.RenameKeeps: normalised names and name keys are given; case folding and Unicode normalisation are not modelled.
- LedgerTables.TrashRoots: the order of trash roots is arbitrary; deletion times are not modelled.
- FolderBatch.CreateBatch: name normalisation is a parameter, ids of new rows are drawn from a supply, and the audit row is dropped.
- ArchivePaths.BuildArchive: lower-casing is any map on characters that fixes digits and sends nothing but the slash to the slash; sizes and dates are carried, not interpreted.
- Limiter.RetryAfterIsExact: over the reals; rounding of `float64` is not modelled.
- EventLog.NoSilentLoss: heartbeats and failed writes, which end the connection, are not modelled.
- JobQueue.Table.Claim: `SKIP LOCKED` is a given set of jobs locked by others; the delay before a retry is a parameter.
- RangeReader.Reader.Read: the store is a map from locations to bytes behind streams with arbitrary short reads, early ends and failures; errors of closing a stream count as failures of the store.
- UrlCache.Cache.Get: calls on a nil cache and locking are not modelled.
- Access.StructuralAccess: collections, shares, similarity ranking and paging of the search are dropped.
- Database isolation below the level of a transaction, crash recovery, and identifiers drawn by the database (given, and refused when already used).
- HTTP routing, cookies, JSON, the Discord client, media processing, sessions, multi-factor login and administrator records: plumbing or one-statement transitions.
- Cryptography: digests are abstract.
- Thumbnails, public shares and collections.
