# Control plane of pm_robot, modelled in Dafny

pm_robot discovers Polymarket wallets, promotes them through levels L0 to L6 and collects their trading history
with several loops and processes around one SQLite database. This project models the shared state that those loops
drive and proves what the database statements, triggers, heaps and files promise together. Each SQL statement or
`BEGIN IMMEDIATE` block is one atomic step, a table is a map, floats are reals and the clock is an input.

| file | component |
|---|---|
| `PlannerRow.dfy` | the cached eligibility decision of one wallet: what it means, how long it lasts, the cheap sighting patch |
| `PlannerCache.dfy` | the cache protocol of one wallet: triggers, dirty generations, claim, read, replace and patch, interleaved in any order |
| `PlannerTables.dfy` | the planner's functions over the whole tables, each shown to be the protocol's steps wallet by wallet |
| `PlannerRuns.dfy` | runs over the whole tables, writers between any two statements, and what the protocol's results say of them |
| `LeaseQueue.dfy` | the job queue: leases, retries, refunds, recovery, priority aging without starvation |
| `RecentSample.dfy`, `RtdsRows.dfy` | the samples of the real-time buffer: the streamed top ten, batches on samples, the qualification rule |
| `RtdsOperations.dfy` | what each operation does to the whole buffer, as relations that leave nothing open; eviction, expiry, room |
| `RtdsRuns.dfy` | runs of flushes and drains under failing reads and writes: what is kept, written, retried, and how soon |
| `RtdsBuffer.dfy` | the buffer itself, with lazy-deletion heaps, shown to perform exactly those operations |
| `RelativeSelection.dfy` | promotion quotas and the round-robin allocator with its slow lane |
| `RateLimit.dfy` | request pacing across processes and the in-process bucket |
| `ArtifactGc.dfy` | the artifact archive and its two-phase, crash-safe collection |
| `SplitPaging.dfy` | paging with interval splitting |
| `ValidationMetrics.dfy` | drawdown, burst count and profit concentration |
| `WebSocketFrames.dfy` | framing, after sections 5.2 and 5.3 of RFC 6455 |
| `WalletIngress.dfy` | sightings with and without snapshots, and the level event log |

`dafny verify dfyconfig.toml` checks everything.

## What the proofs found

- **A sighting can be lost before a wallet's first planner row.** The sighting trigger fires only when a state row
  exists (`src/pm_robot/migrations/0076_wallet_history_planner_sighting_queue.sql:40-43`). A sighting between the
  planner's read of the level and its first replace therefore queues nothing, and the row built from the older
  sighting may never fall due. `StepKeepsSightingsQueuedIff` shows that this step is the only one that loses a
  sighting, `StepHealsIff` which steps make up for it, and `RunKeepsSightingsQueuedIff` that a whole run leaves sightings
  queued exactly when it has no such race without a later remedy. `FirstBuildRaceLosesASighting` gives the run,
  `NextSightingHealsTheRace` its usual end. Selection never becomes unsound by it: `SelectedIsEligibleNow` has no such
  exception.
- **The expiry rule needs a clock past six hours.** Future times are kept only when positive, so profit evidence
  captured at 0 goes stale unannounced; `DecisionsLastExactlyFromSixHours` is the exact condition. The sighting patch
  has the same kind of guard, with its condition in `FirstSightingPatchIsValidIff`.
- **A truncated window can be reported complete.** A short last page is cut to the rows still wanted before its
  shortness is taken as proof that the range is finished. `CutWindowReportedComplete` gives the input: 5400 trades in
  one second and 4900 in the next, of which 10000 come back as a complete window. `CutButCompleteIff` is the exact
  condition: every part of the halved window fits the pages, and the rows beyond the cap are fewer than those on the
  last page of the last part (and than those by which a range split on the way to it exceeds 5500). So fewer than 500
  rows can be missing unannounced. `TruncationReportedCompleteIff` is the condition for one page loop.
- **A snapshot's first-seen time can drift** from a stored 0 (`FirstSeenAgreesIff`); tables and results are unaffected.
- **Re-enqueueing a queued job restarts its aging**, because it rewrites `updated_at` (`EnqueueRestartsAging`), and so a
  job enqueued again often enough is never claimed however often its lane is served (`ReenqueuedJobStarves`).
  `OvertakingIsBounded`, `ClaimsAheadAreBounded` and `AgedJobIsServed` are therefore about jobs that are left alone.

## Model

| member | source | states |
|---|---|---|
| PlannerRow.EarliestOrZero | src/pm_robot/orchestration/wallet_history_pipeline.py:1045 | the expiry is the least future due time, or 0 when there is none |
| PlannerRow.TemporalValidity | src/pm_robot/orchestration/wallet_history_pipeline.py:451-1045 | on clocks past six hours: before `next_refresh_at` (or for ever when it is 0) eligibility, lane and urgency are those of a fresh evaluation of the same evidence |
| PlannerRow.NextRefreshIsTight | src/pm_robot/orchestration/wallet_history_pipeline.py:995-1045 | when the expiry arrives, a deferral has ended or an activity or profit refresh has become needed: it is never early |
| PlannerRow.DecisionsLastExactlyFromSixHours | src/pm_robot/orchestration/wallet_history_pipeline.py:1034-1045 | the expiry rule is sound at time t if and only if t is at least six hours past the epoch, the guard on future times being the reason |
| PlannerRow.UndatedPnlExpiresUnannounced | src/pm_robot/orchestration/wallet_history_pipeline.py:1034-1044 | the failing case: a profit row captured at 0 becomes stale without any expiry announcing it |
| PlannerRow.EligibleIffWanted | src/pm_robot/orchestration/wallet_history_pipeline.py:1048-1073 | a row is eligible exactly when work is wanted and neither risk, an active job, a terminal scope nor a deferral forbids it |
| PlannerRow.LaneIsJustified | src/pm_robot/orchestration/wallet_history_pipeline.py:1076-1092 | an eligible row's lane names a reason that holds, in the order of precedence; no lane exactly when not eligible |
| PlannerRow.UrgencyRespectsLevel | src/pm_robot/orchestration/wallet_history_pipeline.py:1095-1124 | on the same evidence a higher level is never less urgent |
| PlannerRow.EligibilityOnlyGrows | src/pm_robot/orchestration/wallet_history_pipeline.py:850-971 | time and sightings only enable: an eligible wallet stays eligible until its evidence changes |
| PlannerRow.FreshRowIsValid | src/pm_robot/orchestration/wallet_history_pipeline.py:392-448 | a freshly built row is the right decision for its own last sighting until it is due |
| PlannerRow.PatchKeepsValidity | src/pm_robot/orchestration/wallet_history_pipeline.py:338-384 | moving last_seen and pulling the expiry forward, without recomputing, leaves a row that is right until due |
| PlannerRow.FirstSightingPatchIsValidIff | src/pm_robot/orchestration/wallet_history_pipeline.py:360-376 | the first patch after a summary is right if and only if its activity window ends at a positive time, the branch's own guard |
| PlannerCache.StepKeepsInvariant | src/pm_robot/storage/wallet_history_planner_state.py:311-358 | every step of writers and planner keeps: a clean row describes the current evidence, and what a refresh in flight has read is current unless overtaken |
| PlannerCache.StepKeepsSightingsQueuedIff | src/pm_robot/migrations/0076_wallet_history_planner_sighting_queue.sql:33-59 | a lagging clean row keeps its sighting queued under a step if and only if the step is not the first build of a row that raced a sighting |
| PlannerCache.StepHealsIff | src/pm_robot/migrations/0076_wallet_history_planner_sighting_queue.sql:33-59 | a step makes up for a lost sighting if and only if it is a newer sighting, a write that dirties the wallet, a deletion of its level or a rebuild |
| PlannerCache.RunKeepsInvariant | src/pm_robot/storage/wallet_history_planner_state.py:101-358 | the invariant over every interleaving of enabled steps |
| PlannerCache.RunKeepsSightingsQueuedIff | src/pm_robot/migrations/0076_wallet_history_planner_sighting_queue.sql:33-59 | after a run a lagging clean row has its sighting queued if and only if no first build of the run raced a sighting without any later step making up for it (and a start without the sighting was made up for) |
| PlannerCache.CoherentAfterEveryRun | src/pm_robot/orchestration/wallet_history_pipeline.py:392-448 | after every run a wallet has a full-dirty row, no state row, or a row right for its current evidence until due |
| PlannerCache.SelectedIsEligibleNow | src/pm_robot/orchestration/wallet_history_pipeline.py:331-335 | a wallet selected from a ready cache would be selected by a fresh evaluation now, whatever sightings are pending |
| PlannerCache.HeldBackIsQueuedOrDue | src/pm_robot/orchestration/wallet_history_pipeline.py:338-384 | unless such a race was never made up for, a wallet wrongly held back has a queued sighting or a due row |
| PlannerCache.QuietRowIsFresh | src/pm_robot/orchestration/wallet_history_pipeline.py:392-448 | with nothing pending, no race left open and before it is due, the stored decision equals the fresh one at the current last_seen |
| PlannerCache.FirstBuildRaceLosesASighting | src/pm_robot/migrations/0076_wallet_history_planner_sighting_queue.sql:33-43 | a concrete ten-step run after which a wallet is ready, has no pending work, never falls due, and is wrongly held back |
| PlannerCache.NextSightingHealsTheRace | src/pm_robot/migrations/0076_wallet_history_planner_sighting_queue.sql:33-59 | the next sighting of such a wallet queues it |
| PlannerCache.OvertakenStaysDirty | src/pm_robot/storage/wallet_history_planner_state.py:311-358 | a write that lands after the claim leaves its dirty row behind when the refresh ends |
| PlannerCache.WriteOvertakesRefresh | src/pm_robot/migrations/0075_wallet_history_planner_state.sql:54-397 | every evidence write to a planned wallet invalidates a refresh in flight and clears its sighting |
| PlannerTables.SelectFirst | src/pm_robot/storage/wallet_history_planner_state.py:101-162 | the first `limit` wallets in (time, wallet) order, each once |
| PlannerTables.ReadyWalletByWallet | src/pm_robot/storage/wallet_history_planner_state.py:165-190 | the table-wide readiness test is readiness of every wallet |
| PlannerTables.ReplacedWalletByWallet | src/pm_robot/storage/wallet_history_planner_state.py:311-358 | replacing a batch is, wallet by wallet, the protocol's replace step |
| PlannerTables.AppliedWalletByWallet | src/pm_robot/storage/wallet_history_planner_state.py:231-285 | applying a batch of sightings is, wallet by wallet, the protocol's apply step and changes no other wallet |
| PlannerTables.Tables.SelectRefreshWallets | src/pm_robot/storage/wallet_history_planner_state.py:101-162 | dirty wallets in the order they were marked, then due ones by due time, then missing ones by level; of each list exactly as many from the front as there was room for when it was read, the dirty ones first of all up to the limit, a wallet of several lists using room in each; with room every dirty wallet is claimed, and a round with room that claims nothing finds the cache ready |
| PlannerTables.Tables.ReplaceStateRows | src/pm_robot/storage/wallet_history_planner_state.py:311-358 | the new state and dirty tables, generation guard included |
| PlannerTables.Tables.RefreshState | src/pm_robot/orchestration/wallet_history_pipeline.py:392-448 | one refresh round: exactly such a batch is claimed, its rows are those of a fresh evaluation, its dirty rows are gone, nothing else changes; with room no dirty wallet is left, and a round with room that claims nothing finds the cache ready |
| PlannerTables.Tables.SelectSightings | src/pm_robot/storage/wallet_history_planner_state.py:193-217 | the oldest applicable sightings, all of them when they fit, each with the state columns the patch needs |
| PlannerTables.Tables.ApplySightings | src/pm_robot/storage/wallet_history_planner_state.py:231-285 | guarded patch of last_seen and expiry, then removal of the claimed generations only |
| PlannerTables.Tables.RefreshSightings | src/pm_robot/orchestration/wallet_history_pipeline.py:338-384 | one sighting round: the oldest applicable sightings are applied and gone, all of them when they fit the limit |
| PlannerRuns.EveryWalletMakesAStep | src/pm_robot/storage/wallet_history_planner_state.py:101-358 | a writer's transaction, a claiming query, a chunk of reads, a batch replace or a batch apply is for every wallet a step that the protocol allows, or nothing |
| PlannerRuns.WalletRuns | src/pm_robot/orchestration/wallet_history_pipeline.py:392-448 | one wallet's share of any run over the tables is a run of the protocol that ends in that wallet's rows |
| PlannerRuns.TablesStayCoherent | src/pm_robot/orchestration/wallet_history_pipeline.py:392-448 | after any run over the tables every wallet has a full-dirty row, no state row, or a row right for its current evidence until due |
| PlannerRuns.ReadyTablesSelectSoundly | src/pm_robot/orchestration/wallet_history_pipeline.py:322-335 | when the two readiness queries find nothing, every eligible row is eligible under a fresh evaluation at any later time |
| PlannerRuns.ReadyTablesQueueTheRest | src/pm_robot/orchestration/wallet_history_pipeline.py:322-335 | a wallet that ready tables hold back wrongly has a queued sighting or a due row, unless its first build raced a sighting and nothing has made up for that since |
| PlannerRuns.RebuildRoundIsARun | src/pm_robot/orchestration/wallet_history_pipeline.py:392-448 | an uninterrupted refresh round is such a run: claim, five reads, replace |
| PlannerRuns.SightingRoundIsARun | src/pm_robot/orchestration/wallet_history_pipeline.py:338-384 | an uninterrupted sighting round is such a run |
| LeaseQueue.RunKeepsInvariant | src/pm_robot/storage/repository.py:271-485 | over every run ids stay unique and attempts stay within the budget that each status allows |
| LeaseQueue.QueuedIsNeverStuck | src/pm_robot/storage/repository.py:333-398 | a due queued job can always be claimed: if it is not the one picked, another is |
| LeaseQueue.UnexpiredLeaseIsExclusive | src/pm_robot/storage/repository.py:333-398 | until a lease expires only its holder owns the job, through every run |
| LeaseQueue.TakenOverWorkerIsPowerless | src/pm_robot/storage/repository.py:401-485 | a worker whose lease was taken over can neither complete nor retry the job |
| LeaseQueue.OwnershipHasNoGap | src/pm_robot/storage/repository.py:424-485 | what retry reads before its guarded update is still true if the guard passes |
| LeaseQueue.FinishedIsFinal | src/pm_robot/storage/repository.py:297-315 | no queue step changes a row that is done or terminally failed |
| LeaseQueue.AtMostOneResult | src/pm_robot/orchestration/wallet_history_pipeline.py:1404-1434 | in every run at most one completion of a job row succeeds, so at most one result is committed |
| LeaseQueue.AttemptsAreConserved | src/pm_robot/storage/repository.py:355-485 | attempts equal claims minus refunds since the last reset, below the budget when queued and at it when failed |
| LeaseQueue.DeferralIsFree | src/pm_robot/storage/repository.py:440-485 | a claim followed by an upstream deferral gives the attempt back |
| LeaseQueue.OvertakerIsExpiredOrOlder | src/pm_robot/storage/repository.py:348-390 | whoever is claimed ahead of an aged job holds an expired lease or is no younger |
| LeaseQueue.OvertakingIsBounded | src/pm_robot/storage/repository.py:348-390 | queued jobs overtake an untouched aged job at most as often as there were jobs ahead when it aged |
| LeaseQueue.ClaimsAheadAreBounded | src/pm_robot/storage/repository.py:348-390 | while a due and aged job waits untouched, all claims of its type and shard, re-claims of expired leases included, are no more than the attempts left to the jobs running or ahead of it |
| LeaseQueue.AgedJobIsServed | src/pm_robot/storage/repository.py:348-390 | no starvation: one claim more and the job has been claimed or rewritten |
| LeaseQueue.EnqueueRestartsAging | src/pm_robot/storage/repository.py:297-330 | after an enqueue a queued job is aged only a full aging time from now, however long it had waited |
| LeaseQueue.ReenqueuedJobStarves | src/pm_robot/storage/repository.py:271-398 | the failing run, of any length: a job enqueued again every second, claimable at each of as many claims of its lane, is passed over by all of them for the same other job |
| LeaseQueue.PipelineJobs.Enqueue | src/pm_robot/storage/repository.py:271-330 | insert, refresh of a queued row, reset of a cooled failed row, or nothing, by the conflict guard |
| LeaseQueue.PipelineJobs.Claim | src/pm_robot/storage/repository.py:333-398 | leases the first claimable job in the claim order, or none exactly when there is none |
| LeaseQueue.PipelineJobs.Complete | src/pm_robot/storage/repository.py:401-421 | done for the lease owner, nothing for anyone else |
| LeaseQueue.PipelineJobs.Retry | src/pm_robot/storage/repository.py:424-485 | queued, failed or terminally failed, with or without refund, for the lease owner only |
| LeaseQueue.PipelineJobs.Recover | src/pm_robot/ops.py:907-970 | every stale lease is released or failed, other rows untouched |
| RecentSample.StreamingKeepsTheNewest | src/pm_robot/orchestration/rtds_discovery.py:112-130 | trimming after every trade keeps exactly the ten newest distinct trades of the whole history, each with its last row |
| RecentSample.ArrivalOrderIsIrrelevant | src/pm_robot/orchestration/rtds_discovery.py:120-141 | the kept keys depend only on the set of keys ever added |
| RecentSample.WalletSample.Add | src/pm_robot/orchestration/rtds_discovery.py:112-130 | the object's rows after an add are the streamed rows of the longer history |
| RtdsOperations.EverythingFitsIff | src/pm_robot/orchestration/rtds_discovery.py:193-211 | nothing is evicted or refused in a batch if and only if there is room for the wallets of the buffer and of the batch together |
| RtdsOperations.GatheredIsFullOrComplete | src/pm_robot/orchestration/rtds_discovery.py:190-211 | after a batch either the buffer is full, or it holds exactly the surviving and the new wallets, each with what survived and all its rows |
| RtdsOperations.GatheredSampleStreams | src/pm_robot/orchestration/rtds_discovery.py:193-211 | however full the buffer, a sample is what survived plus every row of the batch, or every row since the wallet was last admitted in it |
| RtdsOperations.PinnedAbsorbs | src/pm_robot/orchestration/rtds_discovery.py:193-211 | a pinned wallet is never evicted by a batch and takes every row of it |
| RtdsOperations.EvictsInOrder | src/pm_robot/orchestration/rtds_discovery.py:368-379 | evictions of a batch go by age: an unpinned wallet never outlives one inserted later |
| RtdsRuns.BufferedIsWrittenOrWaits | src/pm_robot/orchestration/rtds_discovery.py:181-225 | a wallet of a flushed batch that is buffered by its end is written whole, or waits whole after a failed write, exactly when its sample qualifies; otherwise it is buffered, not pending, and due again by the end of its cooldown when the database knows it |
| RtdsRuns.BatchIsWrittenOrWaits | src/pm_robot/orchestration/rtds_discovery.py:721-758 | the same from the batch and the buffer before it alone: a wallet that is pinned or has room is judged, and then written or kept, with what survived and all its rows |
| RtdsRuns.FailedFlushStartsTheWait | src/pm_robot/orchestration/rtds_discovery.py:721-758 | a wallet of the batch that qualifies in a flush whose write fails waits from then on: pending, due and buffered with the newest of what it had and of the batch; with room, of all of both |
| RtdsRuns.FailedDrainStartsTheWait | src/pm_robot/orchestration/rtds_discovery.py:761-793 | the same for a wallet first found to qualify in a drain whose write fails |
| RtdsRuns.QualifiedIsKept | src/pm_robot/orchestration/rtds_discovery.py:721-793 | over every run of flushes and drains, whatever reads and writes fail: until an operation writes it, a qualified wallet stays pending, due and buffered with the newest of all rows given since |
| RtdsRuns.QualifiedIsWrittenWhole | src/pm_robot/orchestration/rtds_discovery.py:721-793 | what is finally written for it is the ten newest distinct trades of everything it was given, each with its last row |
| RtdsRuns.BatchIsWrittenInTheEnd | src/pm_robot/orchestration/rtds_discovery.py:721-793 | from a batch to the database through any run: after a flush whose write fails, the next write of a wallet that deserved it has the ten newest distinct trades of what was buffered, of the batch and of all it was given since |
| RtdsRuns.FlushCarries | src/pm_robot/orchestration/rtds_discovery.py:721-758 | one flush carries a pending wallet: written with its whole sample, or pending, due no later and buffered with it; written when it traded and the database works |
| RtdsRuns.DrainCarries | src/pm_robot/orchestration/rtds_discovery.py:761-793 | the same for one due drain; written when it is among the first due and the database works |
| RtdsRuns.PendingIsWrittenSoon | src/pm_robot/orchestration/rtds_discovery.py:406-429 | a due pending wallet is written within as many working drains as serve the wallets ahead of it and itself, whatever is buffered or fails to be read or flushed meanwhile: nobody gets ahead of it |
| RtdsRuns.WrittenOncePerCooldown | src/pm_robot/orchestration/rtds_discovery.py:264-352 | between two writes of a stored candidate the clock of some operation shows the cooldown of the first over, through any run |
| RtdsRuns.NothingIsForgotten | src/pm_robot/orchestration/rtds_discovery.py:181-327 | without expiry and with room for all, over every run from the empty buffer: the first write of a wallet has the ten newest distinct trades of all rows ever given for it, and until then the buffer has them |
| RtdsBuffer.Buffer.Run | src/pm_robot/orchestration/rtds_discovery.py:721-793 | any sequence of the buffer's own operations is a run in the sense of these results |
| RtdsBuffer.Buffer.FirstDue | src/pm_robot/orchestration/rtds_discovery.py:406-425 | despite stale and repeated heap entries: exactly the first `max_wallets` due wallets in (due, wallet) order |
| RtdsBuffer.Buffer.DropStale | src/pm_robot/orchestration/rtds_discovery.py:406-414 | only stale entries are dropped, and the new top is live |
| RtdsBuffer.Buffer.MakeRoom | src/pm_robot/orchestration/rtds_discovery.py:368-379 | evicts the unpinned wallet inserted first; fails exactly when the buffer is full of pinned wallets |
| RtdsBuffer.Buffer.Expire | src/pm_robot/orchestration/rtds_discovery.py:354-366 | drops exactly the unpinned wallets whose live entry is past, and forgets the announced times that came up, of pinned wallets too |
| RtdsBuffer.Buffer.PrunePersisted | src/pm_robot/orchestration/rtds_discovery.py:381-391 | keeps exactly the cooldowns that still matter |
| RtdsBuffer.Buffer.Decide | src/pm_robot/orchestration/rtds_discovery.py:264-301 | qualifies by pending, first volume gate or finished cooldown; otherwise a known wallet is due when its cooldown ends, if not earlier |
| RtdsBuffer.Buffer.QualifiedRows | src/pm_robot/orchestration/rtds_discovery.py:252-314 | the rows of exactly the qualifying wallets, each pinned and due; every other known wallet asked for is due when its cooldown ends; all times and cooldowns of the new state are fixed |
| RtdsBuffer.Buffer.Add | src/pm_robot/orchestration/rtds_discovery.py:193-211 | the wallet's sample takes the row, a new wallet starts with it; a new wallet is refused only when every buffered wallet is pinned; the whole new state is that of the row's step |
| RtdsBuffer.Buffer.ConsumeQualifiedRows | src/pm_robot/orchestration/rtds_discovery.py:181-225 | the rows are buffered one by one after expiry, then exactly the wallets of the batch that qualify are returned, each with its whole sample, pinned and due, and every other known one is due again; a failed read returns nothing and leaves the rows buffered |
| RtdsBuffer.Buffer.DueRows | src/pm_robot/orchestration/rtds_discovery.py:227-250 | exactly the first due wallets are taken, and of them exactly those that qualify are returned, with their whole samples; when the read fails nothing is taken, and with nothing due only expired samples go |
| RtdsBuffer.Buffer.MarkPersisted | src/pm_robot/orchestration/rtds_discovery.py:316-327 | exactly the persisted wallets leave, and start their cooldown; the cooldowns of others stay as long as they matter |
| RtdsBuffer.Buffer.RestoreDue | src/pm_robot/orchestration/rtds_discovery.py:431-435 | after a failed flush the buffered wallets of its rows are due again, the others unchanged |
| RtdsBuffer.Buffer.FlushPendingBatch | src/pm_robot/orchestration/rtds_discovery.py:721-758 | the batch is buffered; with the database up exactly the qualifying wallets of it are written, whole, and leave; after a failed write they stay pending and due, after a failed read the batch is only buffered; every part of the new state is fixed |
| RtdsBuffer.Buffer.FlushDueBuffer | src/pm_robot/orchestration/rtds_discovery.py:761-793 | the same for the first due wallets: a drain writes exactly those that qualify, or makes them due again untouched; every part of the new state is fixed |
| RelativeSelection.LeadsIffFewAreBetter | src/pm_robot/orchestration/wallet_level_selection.py:620-645 | a wallet is within its group's quota exactly when fewer rows than the quota beat it |
| RelativeSelection.RankCountsTheBetter | src/pm_robot/orchestration/wallet_level_selection.py:646-650 | a row's rank is one more than the number of rows of its group that beat it |
| RelativeSelection.TalliesFindTheBucket | src/pm_robot/orchestration/wallet_level_selection.py:886-897 | the counted dictionaries lead to the narrowest group with at least three references |
| RelativeSelection.Tally | src/pm_robot/orchestration/wallet_level_selection.py:605-610 | the dictionaries count every exact and source group |
| RelativeSelection.FirstSelectable | src/pm_robot/orchestration/wallet_level_selection.py:702-718 | the first row not blocked, and none exactly when all are blocked |
| RelativeSelection.TakingKeepsSane | src/pm_robot/orchestration/wallet_level_selection.py:669-681 | popping the first selectable row keeps: nothing is lost, better rows of a bucket go first unless blocked, at most two slow rows from different sources |
| RelativeSelection.ClearingKeepsSane | src/pm_robot/orchestration/wallet_level_selection.py:682-683 | clearing a bucket without a selectable row loses nothing that could ever be picked |
| RelativeSelection.TurningIsFair | src/pm_robot/orchestration/wallet_level_selection.py:665-686 | at any moment of a turn a bucket with a selectable row trails no other by more than the one pick of an earlier turn |
| RelativeSelection.Allocate | src/pm_robot/orchestration/wallet_level_selection.py:661-686 | capped, sane and fair; with capacity left every candidate not picked is slow and blocked for ever |
| RelativeSelection.CandidateBuckets | src/pm_robot/orchestration/wallet_level_selection.py:652-659 | exactly the eligible pending rows, each in its bucket, best first |
| RelativeSelection.OnlyEligibleArePicked | src/pm_robot/orchestration/wallet_level_selection.py:652-686 | selected wallets are as many as the picks, and all eligible |
| RelativeSelection.SelectRelative | src/pm_robot/orchestration/wallet_level_selection.py:588-699 | the decisions of a cohort; nothing is selected when promotions or the fraction are not positive |
| RateLimit.WindowHoldsAtMostCapacity | src/pm_robot/clients/http.py:59-69 | any half-open window of the pacing length holds at most `capacity` grants |
| RateLimit.TokenBucket.TryTake | src/pm_robot/clients/http.py:60-67 | grants exactly when fewer than `capacity` events are recent, and stays paced |
| RateLimit.TokenBucket.Wait | src/pm_robot/clients/http.py:59-69 | returns at the first reading that grants; every window of the log holds at most `capacity` |
| RateLimit.GrantsAreSpaced | src/pm_robot/storage/api_rate_limit.py:126-210 | successive scheduled times of a scope are an interval apart, whatever clock reading each process passes |
| RateLimit.SharedWindowHoldsAtMostCapacity | src/pm_robot/storage/api_rate_limit.py:126-210 | a scope of fixed capacity and window is granted at most its capacity in any half-open window |
| RateLimit.GrantHasItsEntry | src/pm_robot/storage/api_rate_limit.py:102-210 | the reservation a call goes ahead with owns the entry of the grants that follows those of all earlier places, so different calls own different entries |
| RateLimit.GrantedCallsFitTheWindow | src/pm_robot/storage/api_rate_limit.py:102-210 | of the calls that go ahead, in however many processes, no half-open window holds more slots than the capacity |
| RateLimit.NoGrantDuringCooldown | src/pm_robot/storage/api_rate_limit.py:228-281 | nothing reserved after a cooldown is scheduled before it ends |
| RateLimit.PermitsCountGrants | src/pm_robot/storage/api_rate_limit.py:174-200 | total_permits counts exactly the grants |
| RateLimit.Normalize | src/pm_robot/storage/api_rate_limit.py:504-510 | one scope per name, with the longest interval given for it |
| RateLimit.SharedApiRateLimiter.Reserve | src/pm_robot/storage/api_rate_limit.py:126-210 | one transaction over all scopes at the first free time; a deferred call changes nothing |
| RateLimit.SharedApiRateLimiter.RecordCooldown | src/pm_robot/storage/api_rate_limit.py:228-281 | raises next permit and cooldown of every scope, never lowers them |
| RateLimit.SharedApiRateLimiter.Wait | src/pm_robot/storage/api_rate_limit.py:102-124 | the table is that of a run of the others' events and one reservation a round; each round ends as its reservation and the cooldowns say; a call goes ahead only with a granted reservation of its own, no earlier than its slot, and no cooldown under way by then; a deferral exceeds the blocking limit |
| ArtifactGc.StepKeepsInvariant | src/pm_robot/storage/wallet_history_store.py:386-537 | every step, crash included, keeps one active row a wallet, a file behind every row without intent, and `keep` unmarked newer rows before every marked one |
| ArtifactGc.ArchiveIsSafe | src/pm_robot/storage/wallet_history_store.py:122-180 | after every interleaving of writers, collections and crashes from the empty archive: the same, and the newest `keep` superseded rows bear no intent |
| ArtifactGc.SelectedIsSheltered | src/pm_robot/storage/wallet_history_store.py:414-447 | a row ranked below `keep` unpurged rows has `keep` unmarked ones ahead, although some ranked rows are marked |
| ArtifactGc.MarkingKeepsShelter | src/pm_robot/storage/wallet_history_store.py:471-481 | marking one sheltered row leaves all others sheltered |
| ArtifactGc.DeletionIsJustified | src/pm_robot/storage/wallet_history_store.py:471-499 | a file disappears only if uncatalogued, or superseded with its intent committed before |
| ArtifactGc.DepthNeverDrops | src/pm_robot/storage/wallet_history_store.py:87-146 | an active history stays active or is replaced, and deep is never replaced by light, over every run |
| ArtifactGc.SelectForPurge | src/pm_robot/storage/wallet_history_store.py:414-447 | the first `limit` collectable rows, interrupted purges before all others |
| ArtifactGc.InterruptedAreSelected | src/pm_robot/storage/wallet_history_store.py:436-440 | interrupted purges that fit in the limit are all selected |
| ArtifactGc.Archive.CollectOne | src/pm_robot/storage/wallet_history_store.py:463-503 | a file with another checksum stays and nothing changes; otherwise the row is purged and the file gone |
| ArtifactGc.Archive.PruneSuperseded | src/pm_robot/storage/wallet_history_store.py:386-514 | a collection is a run of the steps; it settles the first `limit` collectable rows and touches no other, and a rerun finishes every interrupted purge that fits in the limit |
| SplitPaging.FetchPages | src/pm_robot/orchestration/l6_validation_pipeline.py:525-543 | the first rows of the range up to the row cap and the offset cap, and which cap ended it |
| SplitPaging.TruncationReportedCompleteIff | src/pm_robot/orchestration/l6_validation_pipeline.py:535-537 | a cut answer is reported complete exactly when the cap falls inside the last, short page |
| SplitPaging.FetchRange | src/pm_robot/orchestration/l6_validation_pipeline.py:511-570 | an answer calls itself complete exactly when every part fits the pages and fewer rows are missing than the rows on the last page of the last part (or than a split range has above 5500); then it holds the first `max_rows` rows, part by part; it always has as many rows as the pages of the parts reach; a sparse range is complete and exact |
| SplitPaging.FetchWindow | src/pm_robot/orchestration/l6_validation_pipeline.py:490-508 | the same for the whole window, and when a window that is too large comes back complete, as an equivalence |
| SplitPaging.CutButCompleteIff | src/pm_robot/orchestration/l6_validation_pipeline.py:535-570 | a cut answer calls itself complete if and only if every part fits and the missing rows are fewer than would be noticed, which is fewer than a page |
| SplitPaging.CutWindowReportedComplete | src/pm_robot/orchestration/l6_validation_pipeline.py:490-570 | the failing input: 5400 rows in one second and 4900 in the next, 10000 of 10300 rows returned as complete |
| ValidationMetrics.MaxDrawdown | src/pm_robot/research/l6_validation.py:360-368 | the largest fall from an earlier to a later cumulative profit, the empty prefix included |
| ValidationMetrics.LongestBurst | src/pm_robot/research/l6_validation.py:385-391 | two pointers find the longest stretch of positions a window apart |
| ValidationMetrics.MaxEventsInWindow | src/pm_robot/research/l6_validation.py:381-391 | the maximum number of positive timestamps in any closed interval of the window's length, attained |
| ValidationMetrics.TotalsAreConserved | src/pm_robot/research/l6_validation.py:125-137 | every entry is its group's total; weekly totals sum to realized profit, market and day totals both to the total gain |
| ValidationMetrics.Accumulate | src/pm_robot/research/l6_validation.py:125-137 | the loop builds exactly those dictionaries |
| ValidationMetrics.TopShare | src/pm_robot/research/l6_validation.py:144-145 | the best entry over the total, in [0, 1], and 0 without gains |
| ValidationMetrics.Concentration | src/pm_robot/research/l6_validation.py:125-145 | both shares lie in [0, 1] and are those of the best market and the best day |
| WebSocketFrames.NumberRoundTrip | src/pm_robot/clients/websocket.py:157-176 | a length that fits its field reads back as itself |
| WebSocketFrames.MaskingTwiceIsIdentity | src/pm_robot/clients/websocket.py:164-180 | masking twice with the same mask gives the payload back |
| WebSocketFrames.FrameRoundTrip | src/pm_robot/clients/websocket.py:151-180 | decoding an encoded frame, masked or not, gives the frame and leaves the rest of the stream, for all three length encodings |
| WebSocketFrames.Socket.ReadExact | src/pm_robot/clients/websocket.py:189-196 | exactly `size` bytes however the network cuts them, or an error when the peer closes first |
| WebSocketFrames.Socket.SendFrame | src/pm_robot/clients/websocket.py:151-165 | the bytes sent are the frame's encoding; a payload of 2^64 bytes or more is refused |
| WebSocketFrames.Socket.ReadFrame | src/pm_robot/clients/websocket.py:167-181 | reading piece by piece is decoding the whole stream |
| WebSocketFrames.Socket.ReadFrames | src/pm_robot/clients/websocket.py:167-196 | any sequence of frames, masks and chunk sizes reads back as it was sent |
| WalletIngress.MergeKeepsTheNewest | src/pm_robot/orchestration/wallet_sightings.py:579-606 | a merge keeps the ten newest of the trades of both lists, newest first, each key once and with its last normalized trade |
| WalletIngress.LogReplaysToLevels | src/pm_robot/storage/wallet_levels.py:139-301 | over every run of level operations the event log replays to the current levels, by single promotions and reclassifications downwards |
| WalletIngress.SnapshotModeRefinesDirectMode | src/pm_robot/orchestration/wallet_sightings.py:139-275 | a sighting on agreeing snapshots writes the same tables, returns the same result and keeps them agreeing |
| WalletIngress.SnapshotBatchRefinesDirectBatch | src/pm_robot/orchestration/wallet_sightings.py:139-275 | the same for a whole batch |
| WalletIngress.FirstSeenAgreesIff | src/pm_robot/orchestration/wallet_sightings.py:350-379 | a snapshot's first-seen time stays that of the row if and only if the row has one |
| WalletIngress.StampDoesNotMatter | src/pm_robot/orchestration/wallet_sightings.py:499-504 | trust in a candidate does not depend on the timestamp of its status |
| WalletIngress.SightKeepsLog | src/pm_robot/orchestration/wallet_sightings.py:139-275 | a sighting keeps the event log replayable |
| WalletIngress.Ingress.EnsureLevel | src/pm_robot/storage/wallet_levels.py:84-136 | row and snapshot are created at L0 or touched alike |
| WalletIngress.Ingress.RecordObservation | src/pm_robot/orchestration/wallet_sightings.py:322-418 | the row keeps its promotion and first-seen columns; the snapshot mirrors the rest |
| WalletIngress.Ingress.AdvanceLevel | src/pm_robot/storage/wallet_levels.py:139-236 | exactly one level up, guarded from L0, with errors for downgrades, jumps and unknown wallets |
| WalletIngress.Ingress.RecordSighting | src/pm_robot/orchestration/wallet_sightings.py:139-275 | the tables, snapshots and result of one sighting |

## Left out

- Assumptions of the planner proofs: one planner at a time, stored summaries are light or deep with a positive
  `updated_at`, wallets are distinct rows. Within one refresh round `PlannerTables` reads the evidence tables at one
  moment; `PlannerCache` and `PlannerRuns` let writers in between any two of these reads.
- Assumptions of the queue proofs: a clock that does not go back, distinct worker ids, and one `max_attempts` per job key.
- RtdsBuffer: a wallet's sample is held as a value, with `WalletSample.Add` proved for the object; the aliasing of a
  sample between the buffer and a caller is not modelled. A heap is the multiset of its entries and its top their least.
- RtdsBuffer.Buffer.Expire: not every buffered wallet keeps an expiry entry, since a pinned wallet's entry is discarded
  when it comes up; the state says which times are still announced.
- RtdsRuns.NothingIsForgotten: with expiry or too little room samples that do not qualify may go; then `EvictsInOrder`,
  `GatheredIsFullOrComplete` and `Buffer.Expire` say which.
- Rows without a wallet or a trade key, which the buffer skips; discovery counters other than backpressure, evictions
  and deferred rows.
- RateLimit.Normalize: the alphabetical order in which scopes are visited is left open; no result depends on it.
- RateLimit.SharedApiRateLimiter.Wait: the rounds are given, so that it may still be waiting when they end; failed SQLite
  transactions and the counting of cooldowns are not modelled.
- The level-selection writers around the allocator (review state, cooldowns, SQL reference cohorts).
- Artifact contents, Parquet, fsync and path safety: a file is present or absent with an abstract checksum. Orphan
  deletion by the audit command is not modelled.
- ArtifactGc.Archive.PruneSuperseded: the class runs without other processes in between; the step machine has them.
- SplitPaging.FetchRange: which rows of the range an incomplete answer holds is not stated beyond their number. The ledger
  does not change while paging.
- ValidationMetrics: the other metrics of the validation (ratios, churn, anomaly flags), which one branch settles.
- WebSocketFrames: the handshake, proxies, timeouts and the reassembly of fragmented messages, which the client does
  not do; exclusive or is defined bit by bit on numbers below 256.
- WalletIngress: splitting text columns at `|`, cutting them at 4000 characters, lower-casing, and merging of the
  provenance rows per source (they are kept as a log of calls). Columns that are sums or counts of the recent trades are
  computed from them.
- Deferred admission of observed wallets, history scoring, the planner's fair ordering of targets and its SQL batching.
- Scoring with logarithms, quality thresholds, configuration, web, command line, imports, backups and health reports.
