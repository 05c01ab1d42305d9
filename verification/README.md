# A verified model of MongoRescue's core

This project models the parts of MongoRescue whose correctness does not show in any one
function, and proves what they promise over every input, every run and every
interleaving: the tamper-evident audit log, the login throttle, the encrypted dump
pipeline and the collection filter of a backup, the takeover and the HTTP front of
active-passive HA, the copy queue, effective access, and the desktop quit machine.

`dafny verify dfyconfig.toml` checks the whole project.

## How it is built

- Code that computes a value is a function, and its promises are lemmas. Code that works
  by changing things is a class or a method with loops, proved against such functions.
- A protocol is a state machine: a `State`, a `Step`, `Enabled` and `Apply`, and `Runs`
  for the runs. What every step keeps is `Inv`; `InvStep` and `RunsInv` prove it. Each
  step is one critical section or one channel or storage operation of the source, so a
  run is any interleaving of them.
- Hashes, digests and glob matching are parameters. Clocks, storage answers, the store's
  contents between two calls, saves that fail and answers that are lost are inputs of the
  steps or methods, and range over everything.
- Strings are sequences of Unicode characters; limits the source states in bytes are
  counted in UTF-8 bytes. Times are nanoseconds. Integers are unbounded; counters and
  epochs are never large enough to wrap around in 64 bits.

| files | model |
|---|---|
| `Numbers`, `Ordering`, `Decimal`, `Calendar`, `Json`, `Text` | shared numbers, string order, decimal numbers, canonical times, JSON strings, trimming and lengths |
| `AuditEvent`, `AuditChain`, `AuditLog`, `AuditRuns`, `AuditWalks`, `AuditPages` | audit events, their canonical form, the hash chain, verification, also during a run, paging |
| `Coalesce`, `Refusals`, `AuditWriter`, `AuditSummaries` | coalescing of refusals, the asynchronous writer, the summaries of its runs |
| `LoginThrottle`, `ThrottleRuns`, `ThrottlePruning` | the sign-in throttle |
| `EncryptPipeline`, `CollectionFilter` | the encryption stage and the collection filter of a backup |
| `Snapshots`, `Takeover`, `ClusterLease`, `HaFront` | HA snapshots, takeover, the lease over a cluster, the HTTP front and role loop |
| `VerifyingStream`, `CopyQueue`, `CopyRuns`, `ChunkPass`, `ChunkRuns` | copies of archives and oplog chunks, over single attempts and whole lives |
| `Access`, `QuitMachine` | scopes, connections and single sign-on roles; quitting the desktop app |

## Where the code does not keep a promise

Each of these is stated with its exact condition, and with a concrete case.

- Normalising an event twice is not always normalising it once: an outcome made only of
  characters that cannot be stored becomes empty, and a second pass replaces it
  (`AuditEvent.NormalizeIdempotent`,
  `AuditEvent.NormalizeTwiceExample`).
- Verification walks the log in several queries. An intact log is reported broken exactly
  when retention removes entries the walk has not read yet (`AuditWalks.VerifyRun`,
  `AuditWalks.OvertakenExample`).
- A rewritten collection filter trims the names it excludes. A listed collection with
  surrounding white space then takes a requested one with it
  (`CollectionFilter.MeaningKeptIff`, `CollectionFilter.WhiteSpaceExample`).
- A copy that was done and is queued again as damaged is no longer known to have an object
  once an attempt fails without storing one (`CopyQueue.TrackingKept`,
  `CopyRuns.DroppedExactlyBy`, `CopyRuns.RequeuedObjectForgotten`).
- A copy recorded on a deleted backup is said to be removed by its purge. A purge can leave an
  object behind exactly when it looks at a failed copy without one while a retry of it has
  stored one or is still uploading: the copy is then recorded on a purged backup
  (`CopyRuns.LeftExactlyIf`, `CopyRuns.PurgeLeavesNothing`, `CopyRuns.PassedOverExample`).
- A mapped group replaces the default role of single sign-on, also by a lower one
  (`Access.AddedGroupLowers`, `Access.AddedGroupLowersExample`).
- `ConnectionSet.Covers` differs from its description for a set that holds the empty ID
  (`Access.CoversExactly`, `Access.CoversExample`). Sets of normalised lists hold none
  (`Access.CoversNormalized`).
- `Background.Close` is described as ending a soft quit without quitting; a quit that is
  already on its way can go ahead, and no other one does (`QuitMachine.ClosedMayStillQuit`,
  `QuitMachine.ClosedNeverQuits`, `QuitMachine.QuitsAfterClose`).

## Model

| member | source | states |
|---|---|---|
| `Calendar.TimeRoundTrip` | internal/auditlog/chain.go:35-42 | parsing the canonical text of an instant gives the instant back, in every year, also before year 0 and beyond year 9999 |
| `Json.ReadStringRoundTrip` | internal/auditlog/chain.go:60-78 | reading back an escaped string gives it and exactly what followed it, for every string |
| `AuditEvent.Clean` | internal/auditlog/auditlog.go:472-488 | the result holds storable characters only and fits the byte limit |
| `AuditEvent.CleanFixpoint` | internal/auditlog/auditlog.go:472-488 | a string is unchanged if and only if every character is storable and it fits the limit |
| `AuditEvent.NormalizeTargets` | internal/auditlog/auditlog.go:451-464 | the loop over the sorted keys of the targets computes the normalised map, with its cap on the number of targets |
| `AuditEvent.NormalizeStores` | internal/auditlog/auditlog.go:432-467 | every event is storable after normalising: each field within its limit, at most 16 targets, a count of at least one |
| `AuditEvent.NormalizeFixpoint` | internal/auditlog/auditlog.go:432-467 | an event is unchanged if and only if it is storable and has an outcome |
| `AuditEvent.NormalizeIdempotent` | internal/auditlog/auditlog.go:432-467 | a second pass changes nothing if and only if the first did not empty a non-empty outcome |
| `AuditEvent.NormalizeTwiceExample` | internal/auditlog/auditlog.go:447-450 | an outcome of a line feed alone becomes empty in the first pass and is filled in by the second |
| `AuditChain.CanonicalRoundTrip` | internal/auditlog/chain.go:16-33 | a parser of the fixed field order with sorted targets recovers every hashed field of every event from its canonical document |
| `AuditChain.CanonicalInjective` | internal/auditlog/chain.go:54-78 | two events with one canonical document differ at most in the stored hash |
| `AuditLog.Store.constructor` | internal/auditlog/auditlog.go:196-210 | a new store is an empty log anchored at the genesis hash |
| `AuditLog.Store.Append` | internal/store/auditlog.go:25-61 | the entry gets the next ID after the head and the hash chained to the head, also when every earlier entry was pruned |
| `AuditLog.Store.Prune` | internal/store/auditlog.go:166-194 | the rows up to the newest expired one are removed and that row becomes the anchor; nothing changes when none is expired |
| `AuditLog.Store.List` | internal/store/auditlog.go:64-140 | reading the rows from one end and stopping at the limit gives the first matching rows, in the order asked for |
| `AuditLog.PageHolds` | internal/store/auditlog.go:64-140 | a listing holds only matching rows, in strict ID order, at most limit of them; a matching row is missing only when the limit is reached, and then every listed row comes before it |
| `AuditLog.SelectResume` | internal/auditlog/auditlog.go:546-569 | asking again after the k-th result gives exactly the results after it, for any filter |
| `AuditLog.SelectBefore` | internal/auditlog/auditlog.go:500-528 | asking again before the k-th result gives exactly the results ahead of it |
| `AuditLog.CheckPage` | internal/auditlog/auditlog.go:639-651 | one page of the walk moves the head to the last entry that follows its predecessor, or stops at the first that does not and names it |
| `AuditLog.Verify` | internal/auditlog/auditlog.go:601-636 | OK if and only if IDs are consecutive from the anchor and each hash chains to its predecessor; otherwise the first entry that does not is named; the head and the number checked are those of the longest intact prefix; the warning appears exactly for an anchor newer than the retention |
| `AuditLog.SameHeadSameDocuments` | internal/auditlog/chain.go:83-92 | two logs chained from one anchor to one head hash have equal documents and hashes entry by entry, or exhibit two inputs with one hash |
| `AuditLog.HeadPinsLog` | internal/auditlog/auditlog.go:601-651 | two logs that verify from one anchor to the same head ID and hash are equal entry by entry, or exhibit a collision of the hash |
| `AuditRuns.RunIsHistorySuffix` | internal/auditlog/auditlog.go:199-209 | after every run of appends and prunes the stored log is the whole history without a prefix, whose last entry is the anchor |
| `AuditRuns.RunVerifies` | internal/auditlog/auditlog.go:601-683 | after every run the log verifies: every kept entry is checked, the head is the last append ever made, and with unchanged retention and a clock that does not go back no warning appears |
| `AuditRuns.RunStore` | internal/store/auditlog.go:25-194 | the store's methods, run in place in any order, give the log of the run |
| `AuditRuns.RunAndVerify` | internal/auditlog/auditlog.go:601-636 | Verify on the store after any run answers OK without a warning, with the head of the last append and the number of kept entries |
| `AuditRuns.VerifyDuring` | internal/auditlog/auditlog.go:601-636 | over logs that grow and are pruned between the queries of the walk, a break is reported if and only if some query is overtaken by the retention, and then as a missing range |
| `AuditRuns.EndsBrokenIff` | internal/auditlog/auditlog.go:601-636 | a walk ends with a break exactly when one of its queries finds entries but misses some it had not read |
| `AuditWalks.RunIsObserved` | internal/auditlog/auditlog.go:601-636 | the logs of every run of appends and prunes, at every increasing choice of points, are logs such a walk may observe |
| `AuditWalks.VerifyRun` | internal/auditlog/auditlog.go:601-636 | Verify during any run, its anchor and pages read at any increasing points of it, reports a break if and only if at some page the retention has removed entries not yet read while later ones are there |
| `AuditWalks.OvertakenExample` | internal/auditlog/auditlog.go:601-683 | under the shortest retention of 30 days, a run of 501 appends and, 40 days later, one more and a prune, and a walk over it, whose intact log is reported broken |
| `AuditWalks.ExportRun` | internal/auditlog/auditlog.go:546-569 | Export during any run, its pages read at any increasing points of it, gives entries of the history with strictly increasing IDs, and once done every matching one that was in the log at its first and at its last query; it stops at the first entry the callback fails on |
| `AuditPages.Deliver` | internal/auditlog/auditlog.go:546-569 | the callback is given the page in order up to the first entry it fails on |
| `AuditPages.Export` | internal/auditlog/auditlog.go:546-569 | reading in pages of 500 gives every matching entry once, oldest first, or stops exactly at the first entry the callback fails on |
| `AuditPages.PageLimit` | internal/auditlog/auditlog.go:500-528 | a page size between 1 and 1000 whatever is asked for |
| `AuditPages.List` | internal/auditlog/auditlog.go:500-528 | a page is the newest matching entries before the cursor; the next cursor is 0 if and only if nothing is left, and otherwise leaves exactly the rest |
| `AuditPages.FollowPages` | internal/auditlog/auditlog.go:500-528 | following the next cursor until it is 0 gives every matching entry once, newest first |
| `Coalesce.RefusalKeyInjective` | internal/auditlog/coalesce.go:47-58 | two stored events share a window if and only if caller, action, outcome, status and reason agree, the name counting only for known callers |
| `Coalesce.WindowSound` | internal/auditlog/coalesce.go:60-77 | every window built by counting keeps at most ten names that fit a target |
| `Coalesce.WindowStandsFor` | internal/auditlog/coalesce.go:60-77 | a window holds the total count of the refusals counted into it, and the names it did not keep are exactly those counted as more |
| `Coalesce.SummaryKeepsEverything` | internal/auditlog/coalesce.go:82-107 | normalising a summary changes nothing: no target is lost to the cap of 16 and the count is the suppressed one |
| `Coalesce.SummaryNames` | internal/auditlog/coalesce.go:96-104 | every name the window kept is in the summary under its number |
| `Coalesce.SummaryKeepsKey` | internal/auditlog/coalesce.go:82-107 | a summary has the window key of the refusals it stands for |
| `Refusals.TakenCount` | internal/auditlog/coalesce.go:144-157 | taking windows moves exactly their suppressed counts into the summaries |
| `Refusals.CoalescedCount` | internal/auditlog/coalesce.go:112-140 | suppressed counts plus flushed summaries grow by exactly the count of a joined refusal, in all three branches |
| `Refusals.CoalescedBounded` | internal/auditlog/coalesce.go:131-134 | the index never holds more than 4096 windows |
| `Refusals.Index.Take` | internal/auditlog/coalesce.go:144-157 | the loop removes exactly the closed windows and returns their summaries, each once, oldest first |
| `Refusals.Index.Coalesce` | internal/auditlog/coalesce.go:112-140 | the section under the mutex joins, or replaces the own window and flushes a full index, as the relation the lemmas are about says |
| `AuditWriter.InvStep` | internal/auditlog/auditlog.go:295-398 | each step of recorders, flushes and the writer keeps: every submitted event in exactly one place, recorded counts conserved, the queue bounded and empty while no writer runs |
| `AuditWriter.RunsInv` | internal/auditlog/auditlog.go:295-398 | the same in every interleaving, by induction over runs |
| `AuditWriter.ReturnedStaysEmpty` | internal/auditlog/auditlog.go:366-398 | once Run returned the queue stays empty, whatever is recorded or flushed afterwards |
| `AuditWriter.AtRest` | internal/auditlog/auditlog.go:319-398 | with nobody in the middle of a call, every submitted event was stored or reported as failed exactly once, and recorded counts are those plus what open windows suppress |
| `AuditSummaries.NoSummaryLosesAnything` | internal/auditlog/coalesce.go:82-140 | in every run of the writer, the summary of every open window is unchanged by normalising, has the suppressed count, and has the key the window is filed under |
| `LoginThrottle.LockoutIsCappedDoubling` | internal/auth/throttle.go:213-218 | the lockout after k failures beyond the budget is min(30 s·2^k, 15 min) for every k, although the code shortcuts large k |
| `LoginThrottle.LockoutMonotone` | internal/auth/throttle.go:213-218 | more failures never lock for less time |
| `LoginThrottle.Throttle.Prune` | internal/auth/throttle.go:221-242 | only idle entries are removed, without attempts in flight and not locked: the stale ones, and others only if the table is still full, until half of it is free or none is left |
| `LoginThrottle.Throttle.Reserve` | internal/auth/throttle.go:88-113 | an attempt is granted or refused with the time to wait, and the table changes at the two keys only |
| `LoginThrottle.Throttle.Settle` | internal/auth/throttle.go:117-192 | only the first settlement of an attempt counts, and it releases both keys |
| `LoginThrottle.Throttle.CountFailure` | internal/auth/throttle.go:164-180 | the failures of a key within its window are counted against its budget |
| `ThrottleRuns.RunsFlights` | internal/auth/throttle.go:88-192 | in every run each key's attempts in flight are its unsettled attempts, at most one per pair |
| `ThrottleRuns.LockoutHolds` | internal/auth/throttle.go:88-159 | once a failure locked a pair until some time, no attempt for it is granted before then, whatever else settles and whichever prune phase runs |
| `ThrottleRuns.FailureLocks` | internal/auth/throttle.go:128-150 | a failure at or beyond the budget of its pair, one while the address is noisy and five else, locks the pair until exactly the capped, doubled lockout from now; below it the lock is unchanged |
| `ThrottleRuns.FailureRate` | internal/auth/throttle.go:128-150 | a pair whose counter reads n has spent at least the sum of the lockouts of its failures beyond the free ones since the first, also when the noisy-address budget switches on and off |
| `ThrottlePruning.PruningUnobservable` | internal/auth/throttle.go:206-242 | while the table stays below its limit after the first phase and counting windows are at most the forget time, every answer over a whole run equals that of a throttle that never prunes |
| `EncryptPipeline.InvStep` | internal/backup/engine.go:645-668 | each step of mongodump, the encryption goroutine with its failures, the storage driver and the aborts of a cancelled, stalled or timed out run, at any time, keeps what has been read, encrypted and consumed in step |
| `EncryptPipeline.RunsInv` | internal/backup/engine.go:680-729 | the same in every interleaving, by induction over runs |
| `EncryptPipeline.EndMeansComplete` | internal/backup/engine.go:1274-1289 | the consumer is given end of stream only after mongodump was reaped successfully and everything up to the sealed last chunk was read |
| `EncryptPipeline.SuccessMeansComplete` | internal/backup/engine.go:951-1016 | a run classified as a success stored the sealed ciphertext of the complete dump, also when the driver returned early or kept an error to itself |
| `EncryptPipeline.SuccessIff` | internal/backup/engine.go:951-983 | a run is a success if and only if the driver returned without error and the stage sealed the dump |
| `EncryptPipeline.EndIsKept` | internal/backup/engine.go:1299-1306 | a driver that read to the end and stored it is never called a failure by the abort that follows |
| `CollectionFilter.CollectTrimmed` | internal/backup/engine.go:1019-1027 | the loop gives the trimmed, non-empty names once each in order |
| `CollectionFilter.ExpandPatterns` | internal/backup/engine.go:1064-1088 | the nested loops expand every pattern over the listing in order, and fail exactly when a pattern must match and does not |
| `CollectionFilter.ExpandIn` | internal/backup/engine.go:1064-1088 | a listed collection is in the expanded filter if and only if some entry of the filter names it literally or as a pattern |
| `CollectionFilter.RewriteFilter` | internal/backup/engine.go:1156-1179 | the loops check every wanted name against the listing and build the exclusions |
| `CollectionFilter.ExpandFilter` | internal/backup/engine.go:1117-1180 | the whole decision: unchanged, refused, expanded or rewritten |
| `CollectionFilter.FilterKeepsMeaning` | internal/backup/engine.go:1117-1180 | with listed non-system names free of surrounding white space, mongodump dumps such a collection if and only if the applied filter asks for it, if and only if the request does |
| `CollectionFilter.UnlistedKeepsMeaning` | internal/backup/engine.go:1117-1141 | a filter accepted without a listing already means what it says, for every name |
| `CollectionFilter.IncludedExist` | internal/backup/engine.go:1156-1160 | every collection an accepted filter includes is in the listing |
| `CollectionFilter.AppliedIsRequested` | internal/backup/engine.go:1117-1153 | the applied filter asks for a listed collection if and only if the request does, literally or by a pattern |
| `CollectionFilter.MeaningKeptIff` | internal/backup/engine.go:1117-1180 | for every accepted request and listing, what is dumped is what is asked for if and only if each listed non-system name with surrounding white space is itself requested; for a request that comes to one collection, if and only if its name is clean or it is all there is; always for literal exclusions |
| `CollectionFilter.WhiteSpaceExample` | internal/backup/integrity.go:201-206 | requesting two collections a and b where a name that is a with white space around it exists too does not dump a, such as a, b and " a" |
| `CollectionFilter.AcceptedArgs` | internal/backup/engine.go:1194-1239 | the arguments of an accepted filter never name two collections nor combine a collection with exclusions or with users and roles |
| `CollectionFilter.FilterManifest` | internal/backup/integrity.go:193-198 | the captured collections are filtered in order by what is dumped |
| `CollectionFilter.ManifestMatchesRequest` | internal/backup/integrity.go:176-206 | the manifest keeps a captured, listed collection, as often as captured, if and only if the request asks for it |
| `Snapshots.SelectSnapshots` | internal/ha/snapshotheader.go:318-350 | the loop with its early stop computes the selection |
| `Snapshots.SelectedVerified` | internal/ha/snapshotheader.go:318-350 | the verified snapshots selected are the first ones of the listing, as many as wanted |
| `Snapshots.SelectedAhead` | internal/ha/snapshotheader.go:337-339 | a failure ahead is reported if and only if a check failed before any verified snapshot |
| `Snapshots.SelectedComplete` | internal/ha/snapshotheader.go:341-347 | a complete selection settled every snapshot, and saw a header of the cluster if and only if there is one |
| `Snapshots.NewestIsNewest` | internal/ha/snapshotheader.go:251-262 | the first candidate is verified, no verified snapshot of the whole listing is newer, and none that could not be checked may be |
| `Snapshots.SecondIsSecond` | internal/ha/snapshotheader.go:251-262 | the second candidate bounds every other verified snapshot of the listing |
| `Snapshots.LegacyMeansNoHeader` | internal/ha/snapshotheader.go:251-262 | legacy candidates mean that every snapshot was settled and none of the cluster's has an authentic header |
| `Snapshots.SelectForTakeover` | internal/app/ha_handover.go:350-370 | the retry loop gives the selection of the first attempt with nothing unread ahead, within four attempts |
| `Snapshots.ChosenReadsAhead` | internal/app/ha_handover.go:350-370 | a chosen selection has nothing that may be newer left unread, and every attempt before it had |
| `Snapshots.RestoreWithRetry` | internal/app/ha_handover.go:375-404 | the retry loop on one snapshot gives the result of the first attempt that does not fail transiently |
| `Snapshots.RetrySucceeds` | internal/app/ha_handover.go:375-404 | restoring succeeds if and only if some attempt within four does and all before it failed in a way that may pass |
| `Takeover.NoRollback` | internal/app/ha_handover.go:244-344 | whatever is listed, an authenticated snapshot that is confirmed is at or above the lease's mark, the high-water mark and every listed snapshot that is genuine or could not be checked, and its epoch is the authenticated one |
| `Takeover.ChosenNoRollback` | internal/app/ha_handover.go:244-370 | the same for the selection the retry loop chooses out of up to four listings: it passed over an attempt only for a snapshot that might have been newer |
| `Takeover.HighWaterFalls` | internal/ha/state.go:57-65 | a step lowers the high-water mark only if it is a forced takeover, or a restart after a save that failed |
| `Takeover.HighWaterRises` | internal/app/ha_handover.go:450-480 | over every unforced run whose saves succeed, restarts included, the high-water mark never falls |
| `Takeover.NeverBehind` | internal/app/ha_handover.go:244-344 | after an instance wrote, forced or confirmed a snapshot, every later unforced takeover of its run confirms one at least as new, never a legacy one or empty state |
| `Takeover.EmptyStartOnce` | internal/app/ha_handover.go:263-280 | with saves succeeding, an instance starts from empty state at most once per cluster in any run, forced takeovers and restarts included |
| `Takeover.Supervisor.Confirm` | internal/app/ha_handover.go:453-456 | the high-water mark is recorded before the lease is signed, and stays recorded when the lease is no longer held |
| `Takeover.Supervisor.ForceTakeover` | internal/app/ha_handover.go:426-448 | a forced takeover resets the mark to the named snapshot's, or to none for a legacy one and a kept database |
| `Takeover.Supervisor.PrepareTakeover` | internal/app/ha_handover.go:244-344 | the whole procedure with its retries changes the member by exactly one takeover step of the run model, and reports exactly when it did |
| `ClusterLease.RunsInv` | internal/ha/manager.go:471-621 | over every run of members on one compare-and-swap lease, the stored lease stays authentic once it was, and the newest snapshot it names never gets older |
| `ClusterLease.FirstSnapshot` | internal/app/ha_handover.go:263-280 | a run of a new cluster: its member takes the lease, starts from empty state, and the snapshot it writes becomes the newest the stored lease names |
| `ClusterLease.ClusterNeverRollsBack` | internal/app/ha_handover.go:244-344 | whichever member takes over while holding the lease, whatever the target shows it, an unforced takeover confirms a snapshot at or above the newest any authentic lease ever named |
| `ClusterLease.RecordedBinds` | internal/ha/manager.go:610-621 | a snapshot its writer named in a signed, stored lease bounds every later unforced takeover of any member |
| `HaFront.FrontSlot.constructor` | internal/app/ha_front.go:96-104 | a new slot accepts requests and has none |
| `HaFront.FrontSlot.CloseIdleLocked` | internal/app/ha_front.go:302-307 | idle is closed when the slot refuses and nothing runs, unless it was before |
| `HaFront.FrontSlot.Acquire` | internal/app/ha_front.go:272-281 | a request is registered unless the slot refuses |
| `HaFront.FrontSlot.Release` | internal/app/ha_front.go:285-291 | the request is unregistered, idle closes if it was the last, and the answer is whether it was marked |
| `HaFront.FrontSlot.Refuse` | internal/app/ha_front.go:294-299 | the slot refuses from now on and is idle if nothing runs |
| `HaFront.FrontSlot.AbortAll` | internal/app/ha_front.go:324-336 | the loop marks exactly the requests in flight, then cancels the context, and returns their number |
| `HaFront.InvStep` | internal/app/ha_front.go:96-336 | every step of requests, the front and the role loop keeps: idle means refused and empty, handlers are the registered requests, one App open, cancelled means all marked |
| `HaFront.IdleForGood` | internal/app/ha_front.go:285-307 | in every run idle is closed at most once, exactly when the slot refuses with nothing in flight, and that stays so |
| `HaFront.ClosedUnderNoHandler` | internal/app/ha.go:595-763 | in every run of the role loop an App is closed only when none of its handlers runs, and none runs in any later state |
| `HaFront.OneAppOpen` | internal/app/ha.go:413-461 | at most one App is open, requests are dispatched to an open one only, and attach never finds another App attached |
| `HaFront.CancelledIsAborted` | internal/app/ha_front.go:316-336 | each request in flight when its slot's context is cancelled is reported aborted whenever it ends |
| `HaFront.ServedIsNotAborted` | internal/app/ha_front.go:213-246 | a request released while its App is attached is not reported aborted |
| `VerifyingStream.VerifyingReader.constructor` | internal/copies/copies.go:46-71 | a new reader has read nothing |
| `VerifyingStream.VerifyingReader.Read` | internal/copies/copies.go:86-108 | one Read, with the sticky mismatch, the size before the digest, and bytes that come with the end |
| `VerifyingStream.WholeStream` | internal/copies/copies.go:73-108 | for every way to split the reads, the stream ends with EOF if and only if all bytes together have the recorded digest, and size if recorded; else with a mismatch |
| `VerifyingStream.MismatchSticks` | internal/copies/copies.go:86-89 | after a mismatch every Read reports it and passes no byte, whatever the archive answers |
| `VerifyingStream.EofMeansMatch` | internal/copies/copies.go:94-107 | EOF is answered only when what was read so far matches, for any archive reader whatever |
| `VerifyingStream.Copy` | internal/copies/copies.go:46-71 | the result of a copy, for every number of reads a copy target makes |
| `VerifyingStream.CopyMeansWhole` | internal/copies/copies.go:38-71 | a copy succeeds if and only if a checksum is recorded, the target stored it, the archive was read to its end and matches; the bytes read are then the archive |
| `CopyQueue.WaitingMeansDueSometime` | internal/copies/queue.go:228-242 | a copy is waiting if and only if there is a time at which it is due, and it stays due from then on |
| `CopyQueue.Backoff` | internal/copies/queue.go:303-309 | the loop that stops early computes min(Base·2^(n-1), Max) for every n |
| `CopyQueue.BackoffMonotone` | internal/copies/queue.go:303-309 | the wait is positive, never decreases with the attempts and never exceeds the maximum |
| `CopyQueue.BackupUploadAccounted` | internal/copies/queue.go:375-447 | a successful upload ends recorded as done under its key or handed to removal, whatever the record has become meanwhile |
| `CopyQueue.ChunkUploadAccounted` | internal/copies/chunks.go:143-170 | for a chunk the same holds if and only if its copy is still waiting, purged, moved or gone, which it is in every run (`ChunkRuns.NeverSkipped`) |
| `CopyQueue.AttemptRecorded` | internal/copies/queue.go:405-425 | a recorded attempt counts once, leaves the copy waiting if and only if it failed below the maximum, due exactly after its backoff, and keeps track of any object stored |
| `CopyQueue.TrackingKept` | internal/models/copy.go:113-132 | after an attempt the copy is known to have an object if and only if the attempt stored one, or one was noted as written or locked before |
| `CopyQueue.CopyAll` | internal/copies/queue.go:530-570 | the copies are updated in place, those not pending are untouched, and the failed ones are exactly those reported |
| `CopyQueue.SyncEnds` | internal/copies/queue.go:538-567 | a synchronous copy ends at the first final attempt, or the last when none is, done if and only if that one succeeded, never left in the queue, with every attempt counted |
| `CopyQueue.SyncTracks` | internal/copies/queue.go:548-560 | any object a synchronous copy left is tracked by it |
| `CopyRuns.InvStep` | internal/scheduler/purgecopies.go:23-62 | each step of attempts, of the purge with its decision before the object's lock and its mark after it, of undeletion and re-encryption keeps: a copy under attempt still waiting, attempts of a waiting copy below the maximum, keys never reused, no attempt on an object from its deletion to the mark |
| `CopyRuns.WaitingBelowMaximum` | internal/copies/queue.go:413-425 | in every run a waiting copy has fewer than MaxAttempts recorded attempts |
| `CopyRuns.NoEndlessRetry` | internal/copies/queue.go:375-447 | a run without a retry or re-queue records at most MaxAttempts attempts |
| `CopyRuns.NoObjectLost` | internal/copies/queue.go:367-447 | in every run of attempts, deletions, undeletions, purges, removals, retries and re-encryptions, the object of each successful upload is in its attempt's hands, recorded as done on the backup or a tombstone, handed to removal or deleted by a purge; with damaged copies queued again, any other object was held by one of those |
| `CopyRuns.DroppedExactlyBy` | internal/copies/queue.go:405-425 | an object is dropped if and only if an attempt that stored nothing is recorded on its copy, which was queued again as damaged and is noted neither as written nor as locked |
| `CopyRuns.RequeuedOnlyBy` | internal/integrity/copies.go:46-62 | only the objects of a done copy found damaged are ever queued again |
| `CopyRuns.PassedOverStep` | internal/copies/queue.go:375-447 | a step makes a purge that is past its copies pass over an object if and only if it records an attempt that stored one on a failed copy without any |
| `CopyRuns.PurgeLeavesNothing` | internal/scheduler/purgecopies.go:23-62 | in every run whose purges never look at a copy without an object while an attempt on it has stored one or may still do so, no purge passes over an object |
| `CopyRuns.LeftExactlyIf` | internal/scheduler/purgecopies.go:23-62 | whenever a backup is purged, some continuation leaves an object on the purged backup if and only if the purge looks that early |
| `CopyRuns.PassedOverExample` | internal/scheduler/purge.go:239-275 | a run from a fresh backup: its first attempt fails, and the retry uploads across the deletion and the purge and is recorded as done on the purged backup |
| `CopyRuns.RequeuedObjectForgotten` | internal/integrity/copies.go:57-61 | a run from a fresh backup: its copy is made, queued again as damaged, and tried without storing anything; the object is there and nobody knows of it |
| `ChunkPass.RunChunks` | internal/copies/chunks.go:80-119 | the loops with cursor and tried set compute the pass |
| `ChunkPass.TriedOnce` | internal/copies/chunks.go:77-112 | no copy is tried twice in a pass, however often it becomes due again |
| `ChunkPass.FullBatchAdvances` | internal/store/chunkcopies.go:74-86 | a full batch leaves at least 100 chunks fewer ahead of the cursor, among all chunks ever due in the pass |
| `ChunkPass.StillDueIsReached` | internal/copies/chunks.go:80-119 | with fewer than 5000 chunks due during the pass, every chunk that is due in each listing up to the one that loads it is loaded; what becomes of it afterwards does not matter |
| `ChunkPass.PassTriesAll` | internal/copies/chunks.go:60-124 | each copy is tried at most once, and each copy of a chunk that stays due until its chunk is loaded is tried if it is due then |
| `ChunkRuns.InvStep` | internal/copies/chunks.go:126-254 | each step of a plan, a pass and a purge keeps: the copy being uploaded is still waiting, and every object of a successful upload is known |
| `ChunkRuns.NoChunkObjectLost` | internal/copies/chunks.go:60-254 | over every sequence of runs of the queue, the object of each successful chunk upload is recorded as done, handed to removal, about to be recorded or deleted by the purge, whatever becomes of the chunk and its stream's targets |
| `ChunkRuns.NeverSkipped` | internal/copies/chunks.go:143-170 | in every run an attempt on a chunk copy is settled: never skipped, and a successful upload is recorded as done or handed to removal |
| `Access.IntersectIsMeet` | internal/auth/connections.go:134-148 | the intersection allows an ID if and only if both sets do, and is unlimited if and only if both are |
| `Access.CoversExactly` | internal/auth/connections.go:151-164 | Covers says whether o is included in s, except exactly when the only member of o outside s is the empty ID |
| `Access.CoversExample` | internal/auth/connections.go:151-164 | the empty set does not cover the set of the empty ID, which allows nothing |
| `Access.CoversNormalized` | internal/auth/connections.go:151-188 | for the sets of normalised lists Covers is exactly inclusion |
| `Access.Monotone` | internal/auth/connections.go:247-276 | for sessions and keys with a creator, lowering the role, the key's scope or either connection set adds no scope, no connection and no unlimited access |
| `Access.AccessIsMeet` | internal/auth/scope.go:181-205 | a scope is held if and only if role and key hold it and it is not admin for a limited caller; a connection is allowed if and only if the key allows it and the user does or is an administrator |
| `Access.AdminHasEveryConnection` | internal/auth/connections.go:266-276 | whoever holds the admin scope may touch every connection, and is an administrator's session or key |
| `Access.NormalizeConnectionIDs` | internal/auth/connections.go:170-188 | the loop accepts exactly lists of at most 256 IDs that are valid once trimmed, and gives them sorted once each |
| `Access.NormalizedIsSorted` | internal/auth/connections.go:170-188 | a normalised list is strictly increasing, holds no empty ID and exactly the trimmed IDs |
| `Access.NormalizedIsFixed` | internal/auth/connections.go:170-188 | normalising a normalised list changes nothing |
| `Access.MapRole` | internal/auth/external.go:159-170 | the fold over the mappings gives the highest role any matching mapping grants, else the default, defined over sets |
| `Access.MapConnections` | internal/auth/external.go:178-199 | the fold gives the union of the matching mappings of the role, or every connection, defined over sets |
| `Access.OrderDoesNotMatter` | internal/auth/external.go:156-199 | permuting mappings or groups changes neither the role nor the connections |
| `Access.AddedGroupLowers` | internal/auth/external.go:156-170 | adding a group lowers the role if and only if no mapping matched before, the default role is operator and the group's mappings give viewer at most |
| `Access.AddedGroupLowersExample` | internal/auth/external.go:156-170 | a default operator who joins a mapped viewer group becomes a viewer |
| `QuitMachine.CallbacksOnce` | internal/desktop/background.go:546-619 | in every interleaving quit and force-quit callbacks run at most once in total, and quitting is set if and only if exactly one has run or is about to |
| `QuitMachine.NeverResumedAfterQuitting` | internal/desktop/background.go:569-577 | from any state in which quitting is set, runs are never resumed |
| `QuitMachine.WaitsEndInResumeOrQuit` | internal/desktop/background.go:567-585 | every wait that is over resumed the runs or left them to a quit |
| `QuitMachine.OverIsFinal` | internal/desktop/background.go:567-585 | a wait that is over stays as it ended |
| `QuitMachine.NotLeftPaused` | internal/desktop/background.go:546-595 | with every wait over and no quit, runs are not paused and no callback ran |
| `QuitMachine.OneWaits` | internal/desktop/background.go:587-595 | at most one soft quit waits, and it is the one a cancel stops |
| `QuitMachine.ClosedNeverQuits` | internal/desktop/background.go:400-411 | a closed Background with no quit on its way never quits |
| `QuitMachine.ClosedMayStillQuit` | internal/desktop/background.go:400-411 | a closed Background with a quit on its way can still quit |
| `QuitMachine.QuitsAfterClose` | internal/desktop/background.go:400-411 | a run of a new Background: a soft quit while idle, a close, and then the quit |
| `QuitMachine.Background.constructor` | internal/desktop/background.go:385-393 | a new Background neither waits nor quits |
| `QuitMachine.Background.SoftQuit` | internal/desktop/background.go:546-563 | the critical section: nothing, a direct quit, or a new wait with runs paused |
| `QuitMachine.Background.WaitEnds` | internal/desktop/background.go:569-577 | the section after a wait: resume only on a cancelled wait while not quitting |
| `QuitMachine.Background.CancelQuit` | internal/desktop/background.go:589-595 | the wait in progress, if any, is cancelled |
| `QuitMachine.Background.ForceQuit` | internal/desktop/background.go:606-615 | quitting is set once, unless closed, and the wait in progress is cancelled |
| `QuitMachine.Background.QuitNow` | internal/desktop/background.go:702-712 | quitting is set once, with one callback to run |
| `QuitMachine.Background.Close` | internal/desktop/background.go:402-408 | later soft quits do nothing and the wait in progress is cancelled |

## Left out

- LoginThrottle.Throttle.Reserve: keys are told apart by kind instead of by a prefix of one string, because the callers build disjoint strings.
- LoginThrottle.Throttle.Prune: which idle entries the second phase drops follows Go's map order, so the contract allows any choice.
- AuditWriter.AtRest: refusals counted after the final flush of `Run` stay in their windows until the next `Flush`; that one comes is not part of it.
- AuditWriter.RunsInv: the wait of `Run` for its maintenance goroutine is not a step, so the model allows more interleavings than the code; retention runs and the forwarding of entries are not part of the writer.
- HaFront.ClosedUnderNoHandler: the branches of the role loop that lead to the same sequence of open, attach, detach and close are one path of the model; start, stop and drain timers of an App are not part of it.
- CopyRuns.NoObjectLost: objects that an attempt stored without reading the whole archive are followed by `CopyQueue.AttemptRecorded` and `CopyQueue.SyncTracks` only, and a record is removed only when its copy has no object.
- AuditRuns.RunVerifies: times are unbounded; the store clamps those outside the years 1677 to 2262 to its column's range, and an entry recorded with such a time would not verify.
- ClusterLease.ClusterNeverRollsBack: it is about a member that still holds the lease; that a holder stops before its lease can expire rests on the lease's clocks, which are not part of this model.
- Takeover.NoRollback: the order of `ListSnapshots` is a premise, and an authentic header cannot be forged.
- EncryptPipeline.EndMeansComplete: backups without encryption have no stage; for them the exit status of mongodump alone decides.
- ChunkPass.RunChunks: a context that ends in the middle of a pass stops it early; planning and purging of chunk copies are not part of the pass.
- Cryptography, compression and the formats of archives: digests and MACs are abstract, with no claim about secrecy or timing.
- The SQLite store, storage drivers, lease timing, snapshot upload and pruning of `internal/ha`, beyond the contracts the models above use.
- HTTP handlers, the CLI, notifications, metrics, logging, configuration, scheduling, restores and point-in-time recovery.
- `RunDue`, `updateDepth` and the reporting of copies, `internal/audit`, the tray and the updater: they would add easy members only.
