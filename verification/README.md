# A verified model of the sync engine

This project models the part of the system that pulls items out of GitHub and Google Drive and
keeps them: the drain of one sync unit into the manifest and the object store, the worker pool
that drives a connection's units, the AIMD admission limiter, mark-and-sweep discovery, the
erasure outbox, run control, the coalescing event broker, and the API's identity cache. It proves
what these parts keep over every run, every interleaving and every way a call can be cut short.

Code that works by updating state is modelled by classes and methods with loops
(`UnitStore`/`Emitter`, `Driver`, `Limiter`, `CatalogStore`, `Store`, `Connection`, `Cache`,
`Hub`). Each is proved against a relation or function on plain values, and the theorems over whole
runs are lemmas about those. Every choice of the environment (an error, a crash, a cancellation,
which signal arrives) is an arbitrary input, and every choice of a scheduler (which future
completes) a nondeterministic branch, so a contract holds for all of them, and says which failure
leads to which result.

| module | part |
|---|---|
| `SourceStream`, `Drain` | the listing as an ordered stream; what any sequence of interrupted drains keeps |
| `Paging`, `Orbits`, `Finite`, `Wrappers` | where an uninterrupted call stops, and how many calls reach the end of the stream; iteration and counting |
| `Answers`, `IssueFold`, `UnitDrain`, `Connectors` | the answers a drain gets, the concurrent page fold, the emit closure, both paging loops, the SyncUnit activity |
| `LivePaging`, `MovingListing`, `PullStretch` | what an edit during a call does to page-numbered reading; which listings are never finished |
| `ConnectionRun`, `ConnectionDriver` | event logs of the worker pool, and the driver that produces them |
| `Admission` | the limiter's statements and their interleavings |
| `Discovery` | generations, the degraded-discovery guard, the sweep and the collection of tombstones |
| `Outbox`, `PurgeGrace`, `Reconnect` | purge passes, the maintenance loop; the grace before erasure; reconnecting |
| `RunControl`, `Reauth` | the start of a run, the settle rollup; sticky needs_reauth over the workflow's life |
| `FreshRun` | driver and drain together |
| `IdentityCache` | the LRU and TTL cache |
| `Broker` | subscriptions, and the protocol between notifications and watching streams |

## Assumptions

- Cursor strings are natural numbers ordered as the strings are, with 0 for the empty string.
- Ids and hashes are numbers, since only their equality (and the order of unit ids) matters. The
  content hash is an arbitrary function; only `StoredBytes` asks that it be free of collisions.
- A source lists its items in ascending updated-at order with an inclusive lower bound, stamps no
  item later than its own clock, and between calls stamps created or edited items no earlier than
  the clock was. The listing holds still during one call; `LivePaging` shows that this is needed.
- An issue whose comments were degraded to none counts as carrying that document as its body.
- Drains and purges are separate runs, since a purge may take the bytes of a row it does not list
  (`LiveBytesFate`), and two attempts of one activity do not overlap.
- Apart from `Discovery` and `RunControl`, which allow for it, no drain left over from a failed
  execution is still running when a later workflow starts: the results on the driver, on needs_reauth
  over lives and on the drain of a unit are about workflows after which none was
  (`Reauth.BookRuns`).
- Each step of a drain that can go wrong takes the next of an arbitrary stream of answers: fine, a
  failure of some kind, cancelled, or a crash. Loading and marking a unit is one such step, and so is
  an emit's look at the context and the stored hash; any step may fail with any kind of failure.
- SQL statements are atomic steps. The statements on `sync_unit` and `connector_connection` are
  taken from `integrations/internal/database/queries/`.

## Where the code does less than its comments say

- A listing that changes under a call by page number can skip an item for good: when an item on a
  page already read is edited or deleted and the listing goes on (`ShiftSkipsIff`, with
  `EditSkipsIff` for an edit). `SkippedForGood` says why no later call repairs it, `EditHidesThird`
  is an instance.
- A stretch of `hardCap` pages without an issue newer than the cursor, with more behind it, is
  never left (`StuckIffBarren`, `NeverDoneIffBarren`). `BarrenListing` says which listings have one;
  with the defaults, twenty thousand pull requests hide every issue behind them
  (`PullRequestsHideIssue`).
- When the history bound trips, an observed stop, disconnect or trigger is dropped
  (`CleanEndings`), and the next execution may go on launching (`StopIsDropped`). A coalesced trigger
  does not run once more: it restarts the workflow in its waiting loop, and only a new trigger or
  the timer leads to a run. A run that needed a hand-over ends the workflow when it settles, unless
  such a trigger restarts it (`SettledRunLeadsTo`, `NextRunNeedsNewTrigger`).
- The limiter's release is deferred on the activity's own context, so a stopped drain may fail to
  give its slot back, and nothing ever returns a lost slot (`AcquirableIffFewerLeaks`); as many
  stopped drains as the bucket starts with slots starve it for good (`StoppedDrainsStarve`).
- A later throttle replaces an earlier cooldown even if it asks for less (`ThrottleReopensIff`); a
  `Retry-After` of zero or less clears it (`ThrottleClearsIff`, `ZeroRetryAfterReopens`), while a
  missing header counts as a minute.
- The discovery guard compares the length of the listing, not the units that stay live
  (`GuardIsNotLiveness`). A tombstone is never revived; a unit that keeps being listed, or a
  connection whose selection keeps being saved, does not have it collected either
  (`TombstoneIsFinal`, `TombstoneCollectedIff`, `RelistedNeverCollected`). Apart from a disconnect,
  artifacts are marked only by a pass that removes something, so a crash between sweep and marking
  leaves them behind (`QueuedOnlyBySweepOrDisconnect`, `CrashLeavesArtifact`), and passes alone no
  longer reach them once the unit's row is collected (`OrphanQueuedOnlyIf`).
- The outbox query does not look at the deadline: bytes are erased in their grace (`ErasedInGrace`),
  unless the rows past their deadline fill the batch (`GraceKeptIff`), or all fifty of a maintenance
  pass (`MaintenanceKeepsGraceIff`). A batch's worth of old failing rows blocks it (`BlockedForever`,
  `LockedObjectsBlock`), and erasing a row takes the bytes of a live row with the same content
  (`LiveBytesFate`, `SharedBytesLost`).
- Reconnecting before the purge shows a connection's files again but leaves them queued, and the
  next maintenance pass erases them (`ReconnectDoesNotResurrect`, `ShownFileErased`), unless the
  disconnect's marking, whose error is ignored, was lost (`ResurrectedIff`).
- A control activity that fails ends the workflow with drains still in flight. The next workflow's
  discovery can then overwrite needs_reauth (`RestartLosesReauth`), and such a drain can revive a
  tombstone (`TombstoneIsFinal`).
- A degraded discovery writes back the status it read at its start, so a user's new authorisation in
  between is undone (`AuthorisationLasts`, `AuthorisationUndone`).
- `uncommitted > errored` is narrower than the documented meaning of backfilling
  (`BackfillingVersusPromise`), and `connected_warnings` can hide units that never committed.

The comment on `min3` promises to ignore non-positive values, which the code does not; the two
differ only on values no bucket has (`SizeIsDocumentedIff`, `LiveSizeIsDocumented`).

## Model

| member | source | states |
|---|---|---|
| `SourceStream.SinceIsFilter` | integrations/internal/connectors/github.go:420-428 | on an ascending listing the inclusive `since` query is exactly the filter by timestamp, order and uniqueness kept |
| `SourceStream.PendingIsFilter` | integrations/internal/connectors/github.go:494-509 | what a call must emit: exactly the non-pull items at or after the cursor, ascending, each once |
| `SourceStream.HighWaterIsMax` | integrations/internal/activity/activity.go:508-532 | the mark carried by emits bounds every emitted stamp and is one of them or the starting cursor |
| `Drain.StoredKept` | integrations/internal/activity/activity.go:451-470 | an item stored before a call, wherever the cursor is, or among the items the call emitted, is stored in its current version after it |
| `Drain.CallKeepsInv` | integrations/internal/activity/activity.go:443-546 | a call cut anywhere leaves no unstored item strictly below the persisted cursor, and the cursor no lower |
| `Drain.SourceKeepsInv` | integrations/internal/connectors/github.go:420-428 | changes of the source between calls keep the resume invariant |
| `Drain.RunIsGapless` | integrations/internal/activity/activity.go:438-546 | gapless resume over every sequence of interrupted calls, source changes and rows hidden or shown again: no gap below the cursor at any moment, cursor monotone, no manifest row lost, commitment permanent |
| `Drain.DoneIsComplete` | integrations/internal/activity/activity.go:412-432 | a call that reports done leaves every non-pull item of the source in the manifest with its current hash and its object stored, whatever cut the earlier calls |
| `Drain.CompleteKept` | integrations/internal/activity/activity.go:451-470 | later calls on the same listing keep a complete unit complete |
| `Drain.StoredBytes` | integrations/internal/activity/activity.go:472-480 | with a collision-free hash the object under a stored item's key is that item's bytes |
| `Drain.VisibleOnlyAfterFullPass` | integrations/internal/database/gen/artifact.sql.go:123-136 | an item is listable only if at some earlier moment a full pass stored the whole source of that moment; nothing was visible before, and of that source exactly the rows not soft-deleted at the moment are listable |
| `Paging.StuckIffBarren` | integrations/internal/connectors/github.go:457-482 | an uninterrupted call that is not done leaves the cursor where it was if and only if the first `hardCap` pages hold no issue newer than the cursor and more pages follow |
| `Paging.CallShrinksNewer` | integrations/internal/connectors/github.go:460-470 | a call that moves the cursor leaves strictly fewer items newer than it |
| `Paging.FruitfulCallsBounded` | integrations/internal/connectors/github.go:398-482 | the measure over interrupted calls: until one is done, the items newer than the cursor plus the uninterrupted calls started away from a barren stretch never exceed the newer items at the beginning |
| `Paging.CallsToDoneIsExact` | integrations/internal/connectors/github.go:398-482 | the number of calls to the end of the stream is computed exactly: the n-th call is the first one done, or none ever is |
| `Paging.NeverDoneIffBarren` | integrations/internal/connectors/github.go:477-482 | repeated calls never finish if and only if one of them starts at a barren stretch |
| `Paging.RepeatedCallsComplete` | integrations/internal/connectors/github.go:398-482 | termination under interruption: in any sequence of calls cut anywhere, once more uninterrupted calls than there were newer items have started away from a barren stretch, one of them was done and the whole source has been stored ever since |
| `PullStretch.BarrenListing` | integrations/internal/connectors/github.go:460-482 | a stretch of numbered pages is barren exactly when the listing from the cursor fills the ceiling's pages and each item on them is a pull request or carries the cursor's own timestamp |
| `PullStretch.PullStretchNeverDone` | integrations/internal/connectors/github.go:505-507 | a listing that starts like that is never finished, however often the unit is drained |
| `PullStretch.PullRequestsHideIssue` | integrations/internal/connectors/github.go:399-411 | an instance with the default page size, budget and ceiling: an issue behind twenty thousand pull requests is reached by no call |
| `IssueFold.FoldIssuePage` | integrations/internal/connectors/github.go:493-558 | for every scheduling of the comment workers a page succeeds if and only if every decode and every comment fetch does, and is then the in-order list of the page's issues; otherwise it reports the first answer that was not fine; never more than eight fetches at once |
| `UnitDrain.Emitter.Emit` | integrations/internal/activity/activity.go:443-546 | bytes before the row, row and cursor together, unchanged content only moves the cursor, the cursor moves forward only, a failure leaves row and cursor both old or both new, every row keeps its object; it returns the first of its answers that is not fine, and fails for no other reason |
| `UnitDrain.EmitNext` | integrations/internal/connectors/github.go:449-456 | one emit extends the persisted prefix of the pending items by exactly the next one, or cuts the call, with the cursor inside the persisted prefix and the answer that cut it returned |
| `UnitDrain.EmitPage` | integrations/internal/connectors/github.go:449-456 | a folded page is persisted in order, and the loop's local mark equals the emitter's |
| `UnitDrain.EmitFiles` | integrations/internal/connectors/gdocs.go:182-208 | the same for a page of Drive files, with a stop or a failed export possible before each file |
| `UnitDrain.ChunkIsPaging` | integrations/internal/connectors/github.go:457-459 | pages of `per_page` items joined together are the listing |
| `UnitDrain.PageOfIsChunk` | integrations/internal/connectors/github.go:424-425 | the page requested by number is that page of the listing, and it is short exactly when it is the last |
| `Connectors.IssuePage` | integrations/internal/connectors/github.go:417-456 | fetch, fold and emit of one page: its issues are appended to the persisted prefix, or the call is cut by the first answer that is not fine |
| `Connectors.FilePage` | integrations/internal/connectors/gdocs.go:157-208 | the same for one page of Drive files |
| `Connectors.SyncRepoIssues` | integrations/internal/connectors/github.go:398-482 | however the call ends it persisted a prefix of the pending issues; it returns the first answer that was not fine; with all of them fine it is done exactly when the stop page is the last page, and leaves the cursor exactly where that page reaches unless an unchecked cursor write was lost |
| `Connectors.SyncDrive` | integrations/internal/connectors/gdocs.go:135-231 | the same for the token-paged listing, for every way the provider may cut it, empty pages included |
| `Connectors.SyncUnit` | integrations/internal/activity/activity.go:335-436 | the unit's rows move by a drained prefix whatever happens; it is committed, or synced at the end, only by a call that emitted everything (or was synced and untouched); the result is determined by the first answer that was not fine: a stop exactly if the context was cancelled during or right after the source call, otherwise every failure the source reported is classified under its own kind, and recorded rejected credentials, and nothing else, set needs_reauth; with all answers fine it is caught up exactly when the clean call counted in `Paging` is, and leaves its rows |
| `Connectors.Finish` | integrations/internal/activity/activity.go:388-436 | what follows the source call: a cancelled context wins, then a failure is classified under its kind, then a call that is not done leaves more, and a done one is committed unless a statement fails |
| `Connectors.Classify` | integrations/internal/activity/activity.go:662-683 | rejected credentials set needs_reauth and are the only failure not to be retried, a throttle changes nothing, any other failure makes the unit an error; if the write fails nothing is recorded |
| `Connectors.Commit` | integrations/internal/database/queries/sync_unit.sql:82-97 | the stamp, synced status and the count of rows that are not soft-deleted come together exactly if the statement succeeds; a failure after them is reported though they stand |
| `Connectors.CommitKeepsDrained` | integrations/internal/database/queries/sync_unit.sql:82-97 | stamping a fully drained unit leaves it fully drained |
| `LivePaging.PageIsSlice` | integrations/internal/connectors/github.go:424-425 | page `p` of a listing is its slice from `p` times the page size on |
| `LivePaging.SeenIsSplice` | integrations/internal/connectors/github.go:416-429 | a call under which the listing changes after `page` pages reads the head of the old listing and the tail of the new one |
| `LivePaging.ShiftSkipsIff` | integrations/internal/connectors/github.go:416-436 | an item that leaves its place during a call, edited or deleted, makes the call miss an untouched item if and only if that place was on a page already read and the listing went on behind those pages |
| `LivePaging.EditSkipsIff` | integrations/internal/connectors/github.go:416-436 | the case of an edit |
| `LivePaging.SkippedForGood` | integrations/internal/connectors/github.go:415-459 | when the call goes on to emit a newer issue, the item so skipped ends up strictly below the cursor, and no listing of any later source, from that cursor or a later one, contains it again unless it is edited |
| `LivePaging.EditHidesThird` | integrations/internal/connectors/github.go:415-459 | an instance: three issues, two to a page, the first edited after page one |
| `MovingListing.StaysBehindIff` | integrations/internal/connectors/github.go:416-429 | any number of items leave at once: exactly the first items behind the pages already read, as many as left those pages, slip onto them |
| `MovingListing.MissedAtMostDepartures` | integrations/internal/connectors/github.go:416-436 | the listing changes before every page: a call that reads to the end misses at most one untouched item for every item that left a page already read |
| `ConnectionRun.PoolAccounting` | integrations/internal/workflow/connection.go:293-405 | at every moment launched = processed + in flight, at most 32 in flight, refills only before the bound and never after a stop, at most 1000 + 31 launches in an execution |
| `ConnectionRun.InFlightWithinLargestP` | integrations/internal/workflow/connection.go:324-329 | the pool never exceeds the largest P read so far |
| `ConnectionRun.NoLaunchAfterStop` | integrations/internal/workflow/connection.go:237-258 | once a stop or a disconnect is observed nothing more is launched in the execution |
| `ConnectionRun.NoDoubleLaunch` | integrations/internal/workflow/connection.go:338-351 | between two launches of one unit it finished, so no unit is in flight twice |
| `ConnectionRun.SyncedOnce` | integrations/internal/activity/activity.go:275-282 | a unit that left the pool synced is not launched again in the execution |
| `ConnectionDriver.NextUnitBatch` | integrations/internal/activity/activity.go:275-305 | the batch is the first P runnable units in id order: each is selected, due and idle, queued or syncing, and if fewer than P came every such unit is among them |
| `ConnectionDriver.LimitNotReached` | integrations/internal/workflow/connection.go:367-371 | pigeonhole: if all ids of a batch limited to P are in flight and fewer than P are, every runnable unit is in flight |
| `ConnectionDriver.BatchSize` | integrations/internal/activity/activity.go:595-613 | P is between 1 and 32, within both limits unless it is the floor, and no smaller than the least ceiling |
| `ConnectionDriver.SizeIsDocumentedIff` | integrations/internal/activity/activity.go:602-613 | the code's batch size is the documented one exactly when both ceilings are positive or one of them is one |
| `ConnectionDriver.LiveSizeIsDocumented` | integrations/internal/activity/activity.go:576-599 | on every pair of buckets the limiter can have, and a connector's positive seed, they agree |
| `ConnectionDriver.CapacityUsesLimits` | integrations/internal/activity/activity.go:576-599 | the learned limit counts once the bucket has one and the connector's start before; P is one of the three ceilings or the floor |
| `ConnectionDriver.Driver.LaunchBatch` | integrations/internal/workflow/connection.go:337-366 | launches units of the batch and no others, each once, until the pool is full: if a slot is still free afterwards, all of them are in flight |
| `ConnectionDriver.Driver.Refill` | integrations/internal/workflow/connection.go:321-373 | a refill that stops with a free slot has every unit its last query could have returned in flight; P is the batch size of the limits read now; it fails only if its own capacity or batch activity does |
| `ConnectionDriver.Driver.AwaitOne` | integrations/internal/workflow/connection.go:353-363 | one completion frees one slot and is counted once; the wait is never on an empty pool |
| `ConnectionDriver.Driver.DrainSignals` | integrations/internal/workflow/connection.go:237-258 | exactly what the signal channels hold is logged and accumulates in the flags; a disconnect is also a stop |
| `ConnectionDriver.Driver.CheckBound` | integrations/internal/workflow/connection.go:450-455 | the bound has tripped exactly if a thousand units are processed or it was late at some turn; a tripped bound stays tripped |
| `ConnectionDriver.Driver.Drain` | integrations/internal/workflow/connection.go:301-405 | the drain terminates; unless one of its control activities failed, with an empty pool, one reading of the signals per completed unit, and only because nothing is runnable, a stop was observed or the bound tripped, which it has exactly if a thousand units were processed or it was late |
| `ConnectionDriver.RunConnection` | integrations/internal/workflow/connection.go:207-443 | every execution, for every behaviour of activities, source and user, has a legal log and an ending that fits it, and fails only if a control activity does; it hears exactly what the signal channels brought; a fresh one begins with the selected terminal units re-armed, a resumed one neither launches nor resets a unit that was synced, units not launched stay as they were unless tombstoned, and a unit selected in no table of the execution is never launched |
| `ConnectionDriver.OneCompletionPerRun` | integrations/internal/workflow/connection.go:262-278 | across continue-as-new, a unit that finished synced is never launched or reset by a later execution of the same run |
| `ConnectionDriver.RunRechecks` | integrations/internal/activity/run.go:44-64 | a run that settles unstopped, however many executions it took, has launched, and brought to a terminal state, every unit that was selected when it began and is selected, due and not tombstoned at the end, including those already terminal before |
| `FreshRun.SyncedIsComplete` | integrations/internal/activity/activity.go:335-436 | over the attempts made on a unit, retries included, one that was not synced and ends synced was drained in full by one of them and is complete for the source that one saw |
| `FreshRun.RunStores` | integrations/internal/workflow/connection.go:207-443 | driver and drain together, hand-overs included: when a run settles unstopped, every unit selected when it began, and selected, due and not tombstoned at the end, is in error or committed and complete for the source one of the run's attempts read |
| `ConnectionDriver.CleanEndings` | integrations/internal/workflow/connection.go:375-431 | an execution ends with an empty pool; a settle with no stop means nothing was runnable; an observed stop settles, a disconnect ends the workflow and a trigger asks for a rerun exactly if the bound had not tripped, and all are dropped if it had |
| `ConnectionDriver.StopIsDropped` | integrations/internal/workflow/connection.go:396-404 | an instance of what the guarantees of an execution admit: a run whose first execution observes a stop and whose second launches a unit |
| `ConnectionDriver.SettledRunLeadsTo` | integrations/internal/workflow/connection.go:427-442 | after a settled run the workflow is never in another run; it is alive, in its waiting loop, exactly if no disconnect was observed and the run needed no hand-over or coalesced a trigger without a stop |
| `ConnectionDriver.NextRunNeedsNewTrigger` | integrations/internal/workflow/connection.go:113-198 | in every life of the workflow a new trigger or a due timer lies between a settled run and the next one, whatever the settled run coalesced |
| `Admission.Limiter.Acquire` | integrations/internal/database/gen/admission.sql.go:13-20 | seeds on first use and takes a slot exactly if fewer are in flight than the limit and the cooldown, if any, is at or before now; other buckets untouched |
| `Admission.Limiter.Release` | integrations/internal/admission/admission.go:64-68 | gives a slot back, never below zero; no row, no effect |
| `Admission.Limiter.RecordSuccess` | integrations/internal/database/gen/admission.sql.go:37-43 | additive increase near the ceiling only, never past the cap |
| `Admission.Limiter.RecordThrottle` | integrations/internal/database/gen/admission.sql.go:59-65 | halves the limit, floored at one, and replaces the cooldown |
| `Admission.Perform` | integrations/internal/activity/activity.go:366-410 | any schedule of attempts by any workers, performed on the table by the limiter: exactly the attempts the state they meet allows take place, and they are a feasible and safe run whose bucket is the row; other buckets are untouched |
| `Admission.StepIsSafe` | integrations/internal/database/gen/admission.sql.go:138-142 | each statement keeps the limit and slot bounds, and a paired release lowers the count by exactly one: the clamp does not fire |
| `Admission.RunIsSafe` | integrations/internal/activity/activity.go:366-373 | under every interleaving of workers, throttles, successes and lost holders 1 <= limit <= bound and in_flight = live holders + leaked slots <= bound |
| `Admission.FreshIsSafe` | integrations/internal/database/gen/admission.sql.go:156-160 | the same from a freshly seeded bucket |
| `Admission.AcquirableIffFewerLeaks` | integrations/internal/activity/activity.go:373-373 | some future acquire can succeed if and only if fewer slots leaked than the limit, or a live holder is left and fewer leaked than the cap |
| `Admission.StoppedDrainsStarve` | integrations/internal/activity/activity.go:373-373 | under every budget, from a fresh bucket: as many stopped drains as it starts with slots, and no acquire ever succeeds again |
| `Admission.ThrottlesHalve` | integrations/internal/database/gen/admission.sql.go:59-65 | any run with k throttles and no success takes the limit L to max(1, L div 2^k) |
| `Admission.SuccessesAdd` | integrations/internal/database/gen/admission.sql.go:37-43 | any run with n successes under saturating load and no throttle takes it to min(cap, L + n), or leaves it at L above the cap |
| `Admission.IdleNeverGrows` | integrations/internal/database/gen/admission.sql.go:51-53 | successes of a bucket that is not near its ceiling never raise the limit |
| `Admission.CooldownIsLatest` | integrations/internal/admission/admission.go:84-97 | the cooldown in force is the latest throttle's, no acquire succeeds before it ends, and no earlier one matters |
| `Admission.SlotIffFreeAndCooled` | integrations/internal/database/gen/admission.sql.go:13-20 | after any interleaving a worker without a slot gets one if and only if the slots held and leaked are fewer than the limit and the latest throttle's time plus its wait is not after now |
| `Admission.ThrottleReopensIff` | integrations/internal/connectors/gdocs.go:304-320 | a throttle opens the bucket earlier than the cooldown in force would have exactly when that one is still running and the response asks for a shorter wait |
| `Admission.ThrottleClearsIff` | integrations/internal/connectors/gdocs.go:306-320 | a throttle leaves no cooldown exactly when the response has a Retry-After of zero or less |
| `Admission.ThrottleOpensAsAsked` | integrations/internal/connectors/gdocs.go:304-320 | a throttled bucket opens exactly when the response says: after its Retry-After, else at a reset time ahead, else after a minute |
| `Admission.ZeroRetryAfterReopens` | integrations/internal/admission/admission.go:84-97 | an instance with GitHub's budget: a minute's cooldown cleared by a second holder's Retry-After of zero, and a third worker gets in at once |
| `Discovery.CatalogStore.DiscoverUnits` | integrations/internal/activity/activity.go:128-229 | every pass is a `Pass`: a generation above all stamps, exactly the listed units marked, status changes only by the sweep; one that no statement cuts short is refused exactly if the listing has less than half as many units as were live, and sweeps and queues otherwise |
| `Discovery.CatalogStore.MaxUnitGeneration` | integrations/internal/database/queries/sync_unit.sql:132-138 | the greatest generation in the table, 0 when there is none |
| `Discovery.PassOnUnit` | integrations/internal/database/queries/sync_unit.sql:7-20 | a unit is removed after a pass if and only if it was removed before, or the pass swept and did not list it; otherwise status and selection are kept; a new one was listed, and is idle and not selected |
| `Discovery.GuardHolds` | integrations/internal/activity/activity.go:170-189 | a pass that did not sweep changed no status and queued no artifact; one that swept listed at least half the live count, one that was refused less than half |
| `Discovery.LiveAfterSweep` | integrations/internal/activity/activity.go:191-198 | the live units after a sweep are exactly the listed ones that were live or new |
| `Discovery.GuardIsNotLiveness` | integrations/internal/activity/activity.go:175-179 | a healthy pass can leave nothing live: a listing of old tombstones passes the guard |
| `Discovery.TombstonedByHealthyPass` | integrations/internal/activity/activity.go:128-207 | over any sequence of passes, collections, saved selections, drains, purges and disconnects, a unit is tombstoned only by a pass past the guard that did not list it |
| `Discovery.SelectionIsLastSaved` | integrations/internal/database/queries/sync_unit.sql:54-58 | over every run a unit is selected exactly if the last saved selection picked it and it has been in the table ever since: a unit found anew, or again after a collection, is not |
| `Discovery.TombstoneIsFinal` | integrations/internal/database/queries/sync_unit.sql:7-20 | no pass, selection or new run revives a tombstone, only a drain left over from a failed execution can; otherwise it stays while no collection finds it untouched for the grace |
| `Discovery.TombstoneCollectedIff` | integrations/internal/activity/erasure.go:175-193 | a collection removes a tombstone exactly if, for the whole grace before it, it was not made, no pass marked it, no selection of the connection was saved and no left-over drain wrote it |
| `Discovery.CollectionKeepsLive` | integrations/internal/database/queries/sync_unit.sql:195-200 | a collection leaves every unit that is no tombstone, and every artifact, as it was |
| `Discovery.RelistedNeverCollected` | integrations/internal/database/queries/sync_unit.sql:195-200 | over every run, a tombstone touched within each collection's grace stays a tombstone for good, unless a left-over drain revives it |
| `Discovery.ListingRefreshes` | integrations/internal/database/queries/sync_unit.sql:7-20 | being listed moves a tombstone's age to now |
| `Discovery.OnlyRemovedQueued` | integrations/internal/database/gen/artifact.sql.go:372-380 | a pass queues an artifact only if its unit is tombstoned, and takes none back |
| `Discovery.SweepQueuesAll` | integrations/internal/activity/activity.go:199-207 | a sweep that tombstones something and marks queues every artifact of every tombstoned unit; one that tombstones nothing queues none |
| `Discovery.QueuedOnlyBySweepOrDisconnect` | integrations/internal/activity/activity.go:199-207 | over every run an unqueued artifact is queued later only by a pass that tombstones some unit, or by a disconnect |
| `Discovery.DisconnectQueuesForGood` | integrations/internal/database/gen/artifact.sql.go:352-370 | over every run, an artifact that was there at a disconnect is queued from then on, until the outbox drops it |
| `Discovery.CrashLeavesArtifact` | integrations/internal/activity/activity.go:191-207 | for every catalog and every listing past the guard that misses a live unit: a crash before the marking, a healthy pass with the same listing and a collection leave the unit's artifacts unqueued and its row gone |
| `Discovery.ArtifactLeftBehind` | integrations/internal/activity/activity.go:191-207 | an instance of it with two units |
| `Discovery.OrphanQueuedOnlyIf` | integrations/internal/database/gen/artifact.sql.go:352-380 | once the unit's row is gone, its artifact is queued only after a disconnect, after a drain wrote the artifact again, or after one pass marked the unit again and a later one tombstoned it |
| `Outbox.ListPurgePending` | integrations/internal/database/gen/artifact.sql.go:201-206 | the listing is the first `limit` pending rows by deadline, rows without one last, all of them if fewer |
| `Outbox.Store.Delete` | integrations/internal/storage/storage.go:151-167 | it succeeds exactly if the key is well formed and the attempt works; the object is then gone, as it may be after an error, and no other is |
| `Outbox.Store.PurgeRow` | integrations/internal/activity/erasure.go:71-88 | a row without a key is orphaned, one whose key is malformed or whose delete errs fails, any other is deleted and its object gone |
| `Outbox.Store.PurgeListed` | integrations/internal/activity/erasure.go:69-89 | the listed rows split into cleared and failed, a row failing exactly if it has a key and that is malformed or its delete errs; deleted + orphaned + failed counts them all, orphaned exactly the rows without a key; only listed rows' objects disappear |
| `Outbox.Store.PurgeArtifacts` | integrations/internal/activity/erasure.go:58-100 | exactly the cleared rows leave when the confirmation went through, none when it did not; it goes through unless there is something to confirm and the statement fails |
| `Outbox.RowsLeaveAfterBytes` | integrations/internal/activity/erasure.go:58-100 | over every run of passes, failures and crashes a row has left only if its object is gone or its key was empty |
| `Outbox.FailedStayPending` | integrations/internal/activity/erasure.go:79-85 | a row whose delete failed stays, unchanged and pending |
| `Outbox.LiveBytesFate` | integrations/internal/activity/activity.go:476-477 | in a pass without failures a live row keeps its bytes if and only if no listed row shares its object key |
| `PurgeGrace.SharedBytesLost` | integrations/internal/activity/activity.go:476-477 | an instance: erasing one row takes the bytes of a live one |
| `Outbox.ClearedLeave` | integrations/internal/database/gen/artifact.sql.go:16-18 | a confirmed pass takes exactly the cleared rows off the outbox |
| `Outbox.KeylessLeave` | integrations/internal/activity/erasure.go:71-78 | a confirmed pass takes exactly the listed rows without an object off that part of the outbox, as many as it reports orphaned |
| `Outbox.FewFailuresDoNotBlock` | integrations/internal/activity/erasure.go:59-95 | with fewer failing rows than the batch, a pass clears at least min(good rows left, batch minus failing) |
| `Outbox.ManyFailuresBlock` | integrations/internal/database/gen/artifact.sql.go:201-206 | with a batch's worth of failing rows older than all others a pass clears nothing |
| `Outbox.BlockedForever` | integrations/internal/database/gen/artifact.sql.go:201-206 | and no row ever leaves, whatever is queued behind them, as long as they keep failing; only rows queued ahead of them could |
| `PurgeGrace.LockedObjectsBlock` | integrations/internal/database/gen/artifact.sql.go:201-206 | an instance at the real batch size: two hundred rows whose deletes fail keep a good row behind them out of every listing |
| `Outbox.MaintenancePurge` | integrations/internal/workflow/maintenance.go:42-56 | a maintenance pass is a chain of confirmed batches ending after fifty or at one that cleared nothing, cut short only by a confirmation that fails, in each of which exactly the rows whose deletes err fail; without failures it takes N pending rows to max(0, N - 10000); in any case the outbox does not grow, and the rows with an object that left are exactly as many as it reports deleted |
| `Outbox.NothingFails` | integrations/internal/workflow/maintenance.go:39-56 | where every delete works and every pending key is well formed or empty, no row of any batch fails |
| `Outbox.MaintenanceClears` | integrations/internal/workflow/maintenance.go:39-56 | with f < 200 failing rows a whole maintenance pass takes at least min(good rows, 50 * (200 - f)) off the outbox |
| `PurgeGrace.ListedExactly` | integrations/internal/database/gen/artifact.sql.go:201-206 | every listing has a pending row exactly if at most `limit` rows are not after it, some listing has it exactly if fewer than `limit` are earlier; the clock plays no part |
| `PurgeGrace.GraceFate` | integrations/internal/activity/activity.go:90-95 | in a confirmed pass without failures a row in its grace is erased if at most `limit` pending rows are not after it and spared if `limit` are earlier |
| `PurgeGrace.GraceKeptIff` | integrations/internal/activity/erasure.go:52-57 | such a pass spares every row in its grace if and only if there is none or the rows past their deadline fill the batch |
| `PurgeGrace.MaintenanceKeepsGraceIff` | integrations/internal/workflow/maintenance.go:39-56 | a whole maintenance pass without failures spares every row in its grace if and only if there is none or ten thousand rows are past their deadline |
| `PurgeGrace.ErasedInGrace` | integrations/internal/activity/erasure.go:52-57 | an instance: a row a week from its deadline is erased |
| `Reconnect.DisconnectedGoFirst` | integrations/internal/database/gen/artifact.sql.go:352-370 | no grace after a disconnect: the rows it queues are in every listing that has a row still in its grace |
| `Reconnect.SurvivesIff` | integrations/internal/activity/erasure.go:58-100 | a maintenance pass without failures that gets through the queue leaves exactly the rows that were not queued |
| `Reconnect.ReconnectDoesNotResurrect` | integrations/internal/server/server.go:645-646 | whatever lies between a disconnect whose marking went through and the next such pass, a reconnect that shows the files again included, every file the connection had is erased |
| `Reconnect.ResurrectedIff` | integrations/internal/server/server.go:307-312 | a reconnected file survives exactly if it was not queued before and the disconnect's unchecked marking was lost |
| `Reconnect.ShownFileErased` | integrations/internal/server/server.go:307-312 | an instance with one file |
| `RunControl.RollupMeaning` | integrations/internal/activity/run.go:89-152 | what each resting status says about the units, in both directions |
| `RunControl.RollupOnColumns` | integrations/internal/activity/run.go:89-152 | the same on the columns: each resting status holds exactly for the unit tables described by selection, commitment and status alone |
| `RunControl.BackfillingVersusPromise` | integrations/internal/activity/run.go:103-109 | the reported backfilling implies the documented one, and the two differ exactly when healthy first-pass units exist but do not outnumber failing committed ones |
| `RunControl.BackfillingGap` | integrations/internal/activity/run.go:143-148 | the difference occurs: two units suffice |
| `RunControl.Connection.StartRun` | integrations/internal/activity/run.go:26-64 | re-arms exactly the selected synced and errored units, keeps commitment, and shows syncing unless the status is needs_reauth, disabled or stopping |
| `RunControl.Connection.SettleConnection` | integrations/internal/activity/run.go:112-174 | settles to the rollup, never over needs_reauth; the last success moves only for connected states |
| `RunControl.RunInv` | integrations/internal/activity/run.go:166-174 | while discovery or settle holds a status it read, no drain is in flight and needs_reauth was not missed, unless one has read while a drain was in flight |
| `RunControl.NeedsReauthIsSticky` | integrations/internal/activity/activity.go:662-667 | once set, no start, discovery (degraded or not), drain or settle of any later run clears needs_reauth, unless a discovery or settle read the status while a drain was in flight; only the user does |
| `RunControl.AuthorisationLasts` | integrations/internal/activity/activity.go:180-188 | a new authorisation lasts until the source rejects the credentials again, unless a discovery that had read needs_reauth before it ends degraded and writes that back |
| `RunControl.AuthorisationUndone` | integrations/internal/activity/activity.go:180-188 | such a discovery does put the connection back into needs_reauth |
| `Reauth.ScriptRuns` | integrations/internal/workflow/connection.go:301-418 | played as status steps, with drains' rejections and the user's steps falling anywhere between, a legal log reads the status for its settle only with an empty pool |
| `Reauth.LifeRuns` | integrations/internal/workflow/connection.go:99-199 | the same for every life of the workflow: no drain is in flight whenever a discovery or a settle has read the status, and a life none of whose executions failed leaves none behind |
| `Reauth.BookRuns` | integrations/internal/server/server.go:103-123 | the same for lives one after the other, as long as none but the last had an execution fail |
| `Reauth.NeedsReauthSticksForLife` | integrations/internal/activity/run.go:166-174 | over all those lives needs_reauth, wherever it is set, stays until a step of the user's |
| `Reauth.RestartLosesReauth` | integrations/internal/workflow/connection.go:325-336 | an instance of the exception: a drain left in flight by a failed execution reports rejected credentials, and the next workflow's discovery overwrites it |
| `RunControl.OverlapLosesReauth` | integrations/internal/activity/activity.go:180-188 | with a drain in flight both discovery and settle could overwrite it, so the empty pool is what the result rests on |
| `IdentityCache.Cache.Get` | api/internal/auth/cache.go:40-55 | on the real structure: the answer is what the whole history of calls says, and a hit is the identity last inserted, within its lifetime |
| `IdentityCache.Cache.Add` | api/internal/auth/cache.go:57-76 | the structure goes on mirroring the history of calls |
| `IdentityCache.Cache.Lookup` | api/internal/auth/cache.go:40-55 | refines the functional step, list and index in bijection, and answers as the functional list does |
| `IdentityCache.Cache.Insert` | api/internal/auth/cache.go:57-76 | refines the functional step: refresh in place and move, or push and evict the back when over capacity |
| `IdentityCache.Cache.Remove` | api/internal/auth/cache.go:78-85 | unlinks exactly one entry from list and index |
| `IdentityCache.StateMeaning` | api/internal/auth/cache.go:11-20 | after every history: at most `max` entries, one per key, most recently used first, each what its key's last insertion put there |
| `IdentityCache.HitIsLastAdd` | api/internal/auth/cache.go:38-55 | a hit answers with the identity last inserted for the key, never after that insertion's time plus ttl |
| `IdentityCache.LeavesExpiredOrLeastRecent` | api/internal/auth/cache.go:48-76 | an entry leaves only by a lookup past its expiry, or by an insertion after which `max` other keys, all used since its own last use, fill the cache |
| `IdentityCache.HitGuarantee` | api/internal/auth/cache.go:40-76 | an insertion keeps answering while its key is looked up within ttl and fewer than `max` other keys are called between two uses |
| `Broker.Hub.Subscribe` | integrations/internal/events/events.go:36-45 | a fresh empty channel under an unused id is added for the tenant, every other subscription keeps its channel |
| `Broker.Hub.Unsubscribe` | integrations/internal/events/events.go:46-55 | that subscription goes and every other one of any tenant keeps its channel; its tenant goes with the last one |
| `Broker.Hub.Publish` | integrations/internal/events/events.go:58-68 | every channel of the tenant holds a signal afterwards, no other tenant's channel is touched |
| `Broker.DroppedUndoesAdded` | integrations/internal/events/events.go:36-56 | unsubscribing restores the table subscribing found |
| `Broker.TableIsStanding` | integrations/internal/events/events.go:36-56 | after any interleaving of subscribing and unsubscribing the table holds exactly the subscriptions taken and not given back, each with its own channel |
| `Broker.StepKeepsInv` | integrations/internal/server/server.go:424-439 | every step, publications running interleaved with streams, keeps each stream either caught up or bound to list again before it waits |
| `Broker.NoLostWakeUp` | integrations/internal/server/server.go:424-452 | after every interleaving a stream waiting on an empty channel has sent a snapshot at least as new as every change whose publication to its tenant is over |
| `Broker.MissedNotificationDelays` | integrations/internal/events/events.go:70-74 | a committed change that is never published leaves a waiting stream behind |
| `Broker.BurstsCoalesce` | integrations/internal/events/events.go:20-23 | a stream's own steps are bounded by, and until it leaves together with what it owes equal to, its joins and the signals that found its channel empty: signals into a full channel cost nothing |

## Left out

- Project boards (`syncProjectItems`), which have no cursor: a drain without resume, done exactly when its pages end within the budget.
- The HTTP, GraphQL, S3, Postgres and Temporal clients: the source is a sequence, storage a map, SQL statements atomic steps, activities nondeterministic completions.
- Token encryption, OAuth state, app credentials and token refresh.
- Metrics, logging, tracing, migrations, heartbeats, process wiring, RPC proxying and the user interface.
- Tenant onboarding, feature flags, audit listing, schedules and total estimates: settled by reading one statement each.
- Progress under permanent throttling or rejected credentials: units left syncing are relaunched, so only the bound per execution is proved.
- Overlapping attempts of one activity, and a drain interleaved with a purge of the same rows: the invariants do not hold there.
- The waiting loop's schedule, selection changes and discover-only refresh: its selector is reduced to what starts a run, what ends the workflow and everything else.
- ConnectionDriver.Driver.Finish: a unit counts as finished synced when its row is synced at that moment; the drains inside are not replayed there but modelled by `Connectors.SyncUnit`.
- Connectors.SyncUnit: the limiter's calls around a drain are not repeated there; a refused slot is one of its answers, and the calls themselves are the steps of `Admission`.
- Broker.Hub.Publish: runs in one piece; the interleaving of a publication with receiving streams is modelled by the protocol steps `Begin`, `Wake` and `End`.
- IdentityCache.Cache.Lookup: the mutex is not modelled, each call is one atomic step, and the time is a parameter.
