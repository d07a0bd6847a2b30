# Verification of discrawl's storage, publication and tail protocols

This project models the parts of discrawl whose correctness is hardest to see by reading: the source
change feed, two hand-written JSON scanners, the installation of a publication and its staged layout,
the private checkpoint protocol, the gateway tail, the snapshot filter, canonical provider payloads,
cloud ingest and merge admission. Each part that changes state in place is a class or a set of methods
proved against functions over its state; the theorems are lemmas about those functions, about every
run, or about every input.

`dafny verify dfyconfig.toml` checks everything.

| component | files |
|---|---|
| change feed | `ChangeFeed.dfy` (effects of transactions), `ChangeFeedStore.dfy` (the store), `ChangeFeedRuns.dfy` (runs and readers), `ChangeFeedNumbers.dfy` (numbers issued again), `ChangeFeedRestore.dfy` (a store put back) |
| JSON scanners | `Json.dfy` (RFC 8259 trees and printer), `UsageScanner.dfy`, `UsageScannerTheorems.dfy`, `ObjectExtractor.dfy` |
| publication | `PublicationPaths.dfy`, `PublicationInstall.dfy`, `PublicationLayout.dfy` |
| private checkpoints | `CheckpointPack.dfy`, `CheckpointLifecycle.dfy`, `CheckpointReconciliation.dfy` |
| gateway tail | `TailExecution.dfy`, `TailWorker.dfy` |
| snapshot filter | `SnapshotFilter.dfy`, `PublishPreflight.dfy` |
| canonical payloads | `Canonical.dfy` (merge rules), `CanonicalOrder.dfy`, `CanonicalPayload.dfy`, `CanonicalMerge.dfy` (the merge), `CanonicalRows.dfy` (when rows are rewritten) |
| cloud ingest, merge admission | `CloudIngest.dfy`, `MergeAdmission.dfy` |
| shared | `Options.dfy`, `Sequences.dfy`, `Texts.dfy` |

## What the environment may do

- File-system calls, hooks and cancellation fail when an oracle `fails(n)` says so, a call either happening
  or not. Remote calls follow `reply(n)`: answered, refused, or done with the response lost. A server is a
  finite script of replies; for servers without end see `CloudIngest.DrainingEndsExactlyWithTheRun`. A crash is
  the same as a failure after which nothing else is called, and intermediate states are recorded where a crash
  may leave them.
- SHA-256, gzip, `json.Valid`, RFC 3339 parsing and formatting and provider time normalisation are function
  parameters; where a property needs a law of theirs (decompression inverts compression, formatting and
  parsing agree, normalisation is idempotent, `json.Valid` accepts RFC 8259 texts nested at most 10000 deep)
  it is a `requires` of the theorem.
- Random generation ids are fresh. Clocks are integers supplied from outside; the tail is scheduled
  arbitrarily late, and any ready arm of a select may win.
- One checkpoint writer runs at a time, as the workflow's concurrency group provides.

## What does not hold

- Merging is not independent of order when an entity was observed but has no local row: the first row is
  taken even behind the fence and then keeps others behind the fence out. `MergeAdmission.OrderIndependence`
  gives the exact condition, `MergeAdmission.FirstRowDecides` the input.
- Preflight and export can disagree: the export filter looks a message up under a column `message_id` that
  message rows do not have, so a published message with an empty id makes it admit every other message.
  `PublishPreflight.CountedAreExported` gives the exact condition, `PublishPreflight.BlankIdExample` an archive.
- Snowflake comparison is no order once decimal and other ids mix (`CanonicalOrder.MixedIdsAreCyclic`); it is
  one on exactly the sets of ids that `CanonicalOrder.OrderedExactlyWithoutCycles` describes.
- Two shapes of one entity can go on rewriting its row (`CanonicalRows.PlaceholdersAlternate`);
  `CanonicalRows.AlternationSettles` says exactly when they stop.
- Storing the same payload twice can rewrite the row when it mentions a user twice
  (`CanonicalRows.RepeatedMentionRewrites`); `CanonicalRows.RestoringIsFixed` says exactly when it does not.
- A known value inside an author, a member's user, a mention, thread metadata or a referenced message is lost
  when the incoming payload has no such object or item of the same identity
  (`CanonicalRows.NullAuthorLosesFlags`); `CanonicalRows.RowLosesExactly` gives the exact condition.
- The change-feed guide calls sequence numbers never reused. They are not while change_log survives
  (`ChangeFeedNumbers.NumbersAreUniqueWithoutLoss`), and never within one generation of a table, which is what
  a reader's cursor depends on (`ChangeFeedRuns.NeverReissued`). After a loss of the log they can be
  (`ChangeFeedNumbers.LossLetsNumbersRecur`), under the exact condition of
  `ChangeFeedNumbers.NumbersRecurExactlyWhen`.
- A cursor's digest does not tell apart every history of a store that was put back
  (`ChangeFeedRestore.EqualDigestsDeceive`); `ChangeFeedRestore.RestoredInPlace` says what it does guarantee.
- While a publication is being installed the old manifest may already name files with new bytes
  (`PublicationInstall.MixedStateHappens`), exactly when the stage rewrites a file it names
  (`PublicationInstall.MixedExactlyWhenRewriting`); no named file is ever missing.
- At most three published checkpoints holds only when every restore prunes: `RunJobs` states it under that
  condition, and without it every number up to the 100 releases a page lists can be left
  (`CheckpointReconciliation.AnyNumberWithoutPruning`); a full page lets no job through (`RunJob`).
- Draining a reset of the cloud archive need not end: it ends exactly when the server's run of incomplete answers
  does (`CloudIngest.DrainingEndsExactlyWithTheRun`, `CloudIngest.ResetOfAnyLength`), and a batch is sent again
  after each drained reset, however many there are (`CloudIngest.BatchOfAnyLength`).

## Model

| member | source | states |
|---|---|---|
| `ChangeFeedRuns.AlwaysServed` | docs/guides/change-feed.md:169-193 | After any run of row writes (key changes included), compaction batches, snapshot replacements, losses of feed tables, tampering and repairs that ends with the feed intact and the table's triggers and schema current, a reader captured before it is accepted exactly when its generation id is unchanged and its cursor is at or above the floor, and replaying only the keys logged after the cursor gives exactly the current table, with every key's last operation agreeing with the row's presence |
| `ChangeFeedRuns.NeverReissued` | internal/store/change_feed.go:353-369 | Whatever subset of log, state and meta tables was lost and repaired before, no step allocates a sequence number already issued under the table's present generation |
| `ChangeFeedRuns.RepairSettles` | internal/store/change_feed.go:242-351 | A repair establishes the currency check, and a second repair changes nothing |
| `ChangeFeedRuns.RepairKeepsHead` | internal/store/change_feed.go:499-506 | After a repair the head is at or above the floor and above every generation start, those from before the loss included |
| `ChangeFeedRuns.RepairKeepsCurrentTables` | internal/store/change_feed.go:371-393 | A repair keeps a table's generation exactly when nothing was lost and the table was current; an intact log and floor are untouched |
| `ChangeFeedRuns.ReachableInv` | internal/store/change_feed.go:242-351 | Every state reachable from a fresh installation satisfies the numbering invariant the theorems start from |
| `ChangeFeedRuns.StepKeepsInv` | internal/store/change_feed.go:411-497 | Every transaction keeps: the log strictly increasing between floor and allocator, numbers of present generations below the allocator, generation ids drawn once |
| `ChangeFeedRuns.RunTracks` | internal/store/change_feed.go:545-585 | Along any run each key of an uninterrupted reader is either unchanged since the cursor or logged with its fate |
| `ChangeFeedRuns.CaptureTracks` | docs/guides/change-feed.md:169-193 | A capture taken on an intact feed is such a reader at that moment |
| `ChangeFeedRuns.EmittedTellsFate` | internal/store/change_feed.go:545-585 | The one or two entries a write emits name exactly the keys whose rows it changes, a delete entry exactly for keys that are gone |
| `ChangeFeedRuns.WriteKeepsTracking` | internal/store/change_feed.go:545-585 | A logged write keeps every reader uninterrupted and complete, also when the primary key changes |
| `ChangeFeedRuns.CompactKeepsTracking` | internal/store/change_feed.go:614-655 | A compaction batch hides nothing from a reader at or above the new floor, and a cursor exactly on the floor keeps its identity |
| `ChangeFeedRuns.RewriteCutsOff` | internal/store/change_feed.go:411-497 | After a suspended replacement or a repair a reader can go on if and only if it could before and its table was not rewritten |
| `ChangeFeedRuns.RewriteKeepsTracking` | internal/store/change_feed.go:443-463 | Readers that go on after a replacement or a repair still have every change logged |
| `ChangeFeedRuns.UnfedImport` | internal/store/change_feed.go:443-453 | A replacement without change_feed_tables, where suspending and bumping do nothing, is a run of ordinary writes |
| `ChangeFeedNumbers.NumbersRecurExactlyWhen` | internal/store/change_feed.go:353-369 | After a repair a number can be issued again, to whatever table and generation and without another loss of the log, if and only if a number issued before the repair, also one logged while change_feed_tables was missing, lies above the counter, the floor, every generation start and every surviving entry |
| `ChangeFeedNumbers.NumbersAreUniqueWithoutLoss` | docs/guides/change-feed.md:36 | As long as change_log has never been lost no number is issued twice, in any table or generation |
| `ChangeFeedNumbers.LossLetsNumbersRecur` | internal/store/change_feed.go:284-288 | Installing, one write, dropping the feed's tables and repairing: the next write is given number 1 again |
| `ChangeFeedNumbers.UncoveredRecurs` | internal/store/change_feed.go:353-369 | A number issued above the counter is reached again by writing on, in any table |
| `ChangeFeedRestore.RestoredInPlace` | docs/guides/change-feed.md:197-201 | After the store is put back to an older state of its own and written again, an accepted cursor still replays exactly unless both histories logged an entry with the same digest under the cursor's number |
| `ChangeFeedRestore.EqualDigestsDeceive` | docs/guides/change-feed.md:197-201 | That exception is real: the same key inserted in the same millisecond with another row is accepted and keeps the lost row |
| `ChangeFeedRestore.RunKeepsMarks` | internal/store/change_feed.go:614-655 | Along a run every number above its start that is not below the floor has the digest of the entry appended under it, compacted or not |
| `ChangeFeedStore.Store.WriteRow` | internal/store/change_feed.go:545-585 | The trigger effect of each kind of write on rows, log and allocator; a write whose trigger cannot log fails whole |
| `ChangeFeedStore.Store.CompactablePrefix` | internal/store/change_feed.go:659-678 | The length of the longest old prefix within one batch, and whether a young entry or the batch size ended it |
| `ChangeFeedStore.Store.CompactBatch` | internal/store/change_feed.go:614-655 | One transaction removes exactly that prefix and moves the floor and its entry identity to the last entry removed |
| `ChangeFeedStore.Store.CompactChangeFeed` | internal/store/change_feed.go:596-612 | Terminates; a finished compaction has removed exactly the longest prefix that predates the cutoff, a cancelled one a shorter prefix; returns the number removed and leaves floor and identity at the last one |
| `ChangeFeedStore.OldPrefixSplit` | internal/store/change_feed.go:659-678 | What is left of the old prefix after a batch is the old prefix of the remaining log, so batches compose |
| `ChangeFeedStore.Store.ReplaceTables` | internal/share/import.go:81-129 | Suspend, clear, insert and bump in one transaction: nothing is logged, the contents are the snapshot's, each table starts a fresh generation at the head, or everything is rolled back; without change_feed_tables every row is deleted and inserted as by any writer |
| `ChangeFeedStore.Store.RestoreAllocator` | internal/store/change_feed.go:353-369 | The allocator ends at the maximum of its value, the floor, every generation start and the last log entry |
| `ChangeFeedStore.Store.EnsureChangeFeed` | internal/store/change_feed.go:242-351 | The whole repair, as the repair function of the run theorems |
| `ChangeFeedStore.Store.IsCurrent` | internal/store/change_feed.go:151-240 | The currency check decides exactly that every table and every tracked table's triggers, hash and generation are in place |
| `UsageScannerTheorems.ScannerAgreesWithLookup` | internal/inferencemetrics/usage.go:35-130 | For every JSON object nested at most 64 deep, after any white space and before any bytes, the scanner ends done with prompt tokens, cached tokens, tier and model equal to the last-occurrence lookup in the parsed object |
| `UsageScannerTheorems.ScanBody` | internal/inferencemetrics/usage.go:35-130 | Feeding a body in any chunks leaves the scanner as feeding it at once |
| `UsageScannerTheorems.TooDeepDisables` | internal/inferencemetrics/usage.go:66-95 | An object nested deeper than 64 gives up: never done, no token counts |
| `UsageScannerTheorems.NameSurvivesBuffer` | internal/inferencemetrics/usage.go:132-168 | The 128-byte token buffer never loses a metadata key, even one written wholly in \u escapes, and never mistakes a longer key for one |
| `UsageScannerTheorems.NumberTokenExact` | internal/inferencemetrics/usage.go:199-225 | A number token is taken exactly when it denotes an integer of digits only, up to 2^53-1, however long the token is |
| `UsageScannerTheorems.ValueRun` | internal/inferencemetrics/usage.go:35-130 | Reading any value changes only the field its key names, exactly as the parsed value says |
| `UsageScannerTheorems.MembersRun` | internal/inferencemetrics/usage.go:35-130 | Reading an object's members has the effect of its members one after the other, so later duplicates win |
| `UsageScannerTheorems.TextRun` | internal/inferencemetrics/usage.go:132-168 | A string of any escapes is recognised to its closing quote and its content decoded when it fits the buffer |
| `UsageScanner.Scanner.Feed` | internal/inferencemetrics/usage.go:35-130 | The scanner's fields after a chunk are those of the automaton run on its bytes; once done or disabled nothing changes |
| `UsageScanner.Scanner.StringEnd` | internal/inferencemetrics/usage.go:141-168 | A finished string becomes a key, or clears and sets the field it belongs to |
| `UsageScanner.Scanner.NumberFinished` | internal/inferencemetrics/usage.go:199-225 | A finished number sets or clears the numeric field it belongs to |
| `Json.UnitsRoundTrip` | internal/inferencemetrics/usage.go:141-150 | Decoding the printed form of any sequence of string units gives their meaning back (RFC 8259, section 7) |
| `Json.UnitsLength` | internal/inferencemetrics/usage.go:132-139 | Escaping lengthens a string at most six times, which is what the buffer has to hold |
| `ObjectExtractor.FindsExactlyTheTopSpans` | internal/discorddesktop/scan.go:417-464 | On arbitrary bytes the result is exactly the brace-balanced spans that start where no object is open, are at most 4 MiB and hold valid JSON; they are disjoint and in order |
| `ObjectExtractor.FindsEmbeddedObjects` | internal/discorddesktop/scan.go:417-464 | JSON objects of at most 4 MiB between bytes without an opening brace are returned exactly and in order |
| `ObjectExtractor.ExtractJSONObjects` | internal/discorddesktop/scan.go:417-464 | The loop returns the bytes of exactly those spans |
| `ObjectExtractor.PrefixTracked` | internal/discorddesktop/scan.go:417-464 | After every prefix the extractor's depth and string state are those of the text since the open object's brace |
| `ObjectExtractor.FreeIsDepthZero` | internal/discorddesktop/scan.go:435-458 | The extractor's depth is zero exactly at the places reached from the start over other bytes and whole balanced objects |
| `ObjectExtractor.TopSpanFound` | internal/discorddesktop/scan.go:440-458 | Every balanced span that starts outside other objects is found when its last byte is read |
| `ObjectExtractor.ValueRun` | internal/discorddesktop/scan.go:417-464 | A whole JSON value inside an object, strings with braces and quotes included, leaves the extractor where it was |
| `PublicationPaths.PathsOf` | internal/share/publication_files.go:26-87 | The owned paths are exactly those the manifest names, and there are none when it names a path it may not own |
| `PublicationPaths.AddTable` | internal/share/publication_files.go:42-65 | A table adds exactly its names, each a legacy file or a shard in its directory or in one of its generations |
| `PublicationPaths.OwnedPathsAreSafe` | internal/share/publication_files.go:89-99 | No owned path leaves the archive or touches Git's directory |
| `PublicationInstall.Archive.Install` | internal/share/publication_files.go:186-341 | With any step failing: rejected or rolled back means every path has its original bytes or absence; a failed rollback leaves each path original or staged with backups of all changed originals; after the manifest's rename every current path is staged; success also removes every stale path and all private files; and it stops short only for a failing step, an unowned or unsafe path or an unstaged file |
| `PublicationInstall.NamedFilesStay` | internal/share/publication_files.go:303-337 | In every state of the history, hence after a crash anywhere, no file named by the manifest on disk has been removed; under the new manifest all of them are there |
| `PublicationInstall.Archive.RollBack` | internal/share/publication_files.go:235-264 | Goes on past failures; complete success gives the original archive back, and otherwise every file that is not restored has its original in its backup |
| `PublicationInstall.Archive.Commit` | internal/share/publication_files.go:307-326 | Every state up to the manifest's rename has the old manifest, the one after it the new, the last one before it has every other current file staged, and a failure before it is undone |
| `PublicationInstall.MixedExactlyWhenRewriting` | internal/share/publication_files.go:307-326 | An installation that reaches its commit has a state in which a file named by the old manifest has other than its original bytes if and only if the stage rewrites a file that both manifests name |
| `PublicationInstall.MixedStateHappens` | internal/share/publication_files.go:307-326 | Republishing one shard without any failure: just before the commit the old manifest is on disk beside the new shard |
| `PublicationInstall.Archive.PrepareAll` | internal/share/publication_files.go:265-306 | Backs up every owned file that exists and copies every current one next to it, the manifest first, and touches no target |
| `PublicationInstall.Archive.RemoveStale` | internal/share/publication_files.go:326-336 | Removes exactly the owned files that are not current |
| `PublicationInstall.OneInstalled` | internal/share/publication_files.go:307-318 | Moving one replacement in keeps the remaining backups and replacements usable and the archive a mixture of original and staged bytes |
| `PublicationInstall.Replaced` | internal/share/publication_files.go:307-318 | Once every replacement is in place exactly the current paths but the manifest are staged |
| `PublicationLayout.Staging.Normalize` | internal/share/publication_layout.go:15-95 | Either nothing moves, and then the stage cannot be normalized or a call failed; or a prefix of the moves happened and nothing else; or every file and alias has moved and every name in the manifest is rewritten |
| `PublicationLayout.NormalizedLayout` | internal/share/publication_layout.go:15-95 | After a complete normalization every file's bytes and its alias are at its new path, no table names a generation path, the ownership check passes again, and normalizing once more moves nothing |
| `PublicationLayout.Staging.Collect` | internal/share/publication_layout.go:19-46 | Collects the renames exactly when table names are distinct and no two names share a target |
| `PublicationLayout.Staging.Validate` | internal/share/publication_layout.go:47-66 | Every source exists and every target is free among files and aliases, before anything moves |
| `PublicationLayout.Staging.MoveAll` | internal/share/publication_layout.go:67-83 | Each move carries the file and its alias; a failing call leaves the rest in place |
| `PublicationLayout.MovedKeepsAll` | internal/share/publication_layout.go:67-83 | Half way or complete, every file is at its old or its new path with its bytes |
| `PublicationLayout.NormalizedIsOwned` | internal/share/publication_layout.go:84-94 | The rewritten manifest owns all it names |
| `PublicationLayout.HomeOwned` | internal/share/publication_files.go:52-64 | A generation shard's new path is a plain shard path of the same table |
| `CheckpointPack.Pack` | scripts/private_discord_checkpoint.py:215-239 | The parts and files are those of the database cut into full pieces, with its size and hash; the inventory passes the validator; without failures every database within capacity is packed |
| `CheckpointPack.HashingWriter.Write` | scripts/private_discord_checkpoint.py:191-212 | Short writes are continued, invalid ones fail; on success exactly the given bytes were written, hashed and counted, and never more than a part holds |
| `CheckpointPack.PackPart` | scripts/private_discord_checkpoint.py:223-238 | A part holds as many raw bytes as are left, up to a full piece, and its descriptor is that of the bytes in its file |
| `CheckpointPack.PackedInventory` | scripts/private_discord_checkpoint.py:274-281 | What a database is packed into satisfies the validator's rules on names, sizes and their sum |
| `CheckpointPack.PartsAreFull` | scripts/private_discord_checkpoint.py:218-238 | Every part but the last holds a full piece |
| `CheckpointPack.SplitJoins` | scripts/private_discord_checkpoint.py:215-239 | The pieces joined are the database |
| `CheckpointPack.SplitCount` | scripts/private_discord_checkpoint.py:216-222 | As many pieces as the size needs, so 64 parts are enough exactly within capacity |
| `CheckpointPack.UnpackPart` | scripts/private_discord_checkpoint.py:284-299 | However the file is forged, at most the promised bytes are written; success means the file is the one described and decompresses cleanly to exactly that many |
| `CheckpointPack.Unpack` | scripts/private_discord_checkpoint.py:284-304 | Never writes more than the inventory's total; success means size, hash and database facts are as recorded; an intact set restores unless a step fails |
| `CheckpointPack.PackedDatabaseRestores` | scripts/private_discord_checkpoint.py:284-304 | What was packed passes every check of unpack and gives the same bytes back |
| `CheckpointLifecycle.GitHub.Publish` | scripts/private_discord_checkpoint.py:755-761 | Publishing a restored draft whose parent is latest keeps the remote sound whether or not the response arrives |
| `CheckpointLifecycle.GitHub.RetireGrandparent` | scripts/private_discord_checkpoint.py:610-631 | Deletes only the grandparent the parent's own manifest names; on success only the latest and its parent remain published |
| `CheckpointLifecycle.GitHub.Restore` | scripts/private_discord_checkpoint.py:573-589 | The receipt is of the latest release, restored in full; with pruning no draft is pending and nothing older than the parent is left |
| `CheckpointLifecycle.GitHub.Save` | scripts/private_discord_checkpoint.py:634-697 | The draft holds the manifest of this run over the latest release restored before, or over an empty repository; nothing else changes, no draft was pending and fewer than 100 releases were listed, a lost response leaves at most one draft, and it succeeds when its calls are answered and its checks pass |
| `CheckpointLifecycle.GitHub.VerifySave` | scripts/private_discord_checkpoint.py:722-735 | Passes only after a complete restore of the draft that matches its manifest |
| `CheckpointLifecycle.GitHub.PromoteSave` | scripts/private_discord_checkpoint.py:738-767 | Publishes only what was verified, over the parent that is still latest; success leaves it latest, no draft, and only its parent besides it; when the call after the publication fails it is published and nothing is retired |
| `CheckpointLifecycle.GitHub.DownloadDatabase` | scripts/private_discord_checkpoint.py:527-541 | A receipt is given only for a release whose data restored to what its manifest says, and for the expected one if one is expected |
| `CheckpointLifecycle.DraftKeeps` | scripts/private_discord_checkpoint.py:667-679 | A draft and its assets never disturb what is published |
| `CheckpointLifecycle.PublishKeeps` | scripts/private_discord_checkpoint.py:743-761 | Publishing over a pruned state leaves latest, parent and grandparent at most |
| `CheckpointLifecycle.DeleteKeeps` | scripts/private_discord_checkpoint.py:628-631 | Deleting anything but the latest and its parent keeps both sound |
| `CheckpointReconciliation.InspectCheckpoint` | scripts/verify_discord_checkpoint_migration.py:193-229 | One look admits only the expected checkpoint, alone of its run and the only draft on an incomplete page of releases, with its parent present, latest and archive unmoved |
| `CheckpointReconciliation.VerifyTwice` | scripts/verify_discord_checkpoint_migration.py:738-766 | A checkpoint passes only after two complete restores of exactly the expected custody |
| `CheckpointReconciliation.ReconcilePublisher` | scripts/verify_discord_checkpoint_migration.py:735-817 | Success means the checkpoint was restored twice and is latest, nothing is a draft and the archive is settled; the archive gains one child of the recorded commit for a successful checkpoint only, and never anything else |
| `CheckpointReconciliation.AutomaticReconciliation` | scripts/verify_discord_checkpoint_migration.py:870-941 | Once it reports a recovery the state is settled: the next run writes nothing, reports none and, unless a read fails or a full page of releases is listed, goes on; the archive gained exactly one child for a successful checkpoint and none for a failed or cancelled one; on a full page nothing is done at all |
| `CheckpointReconciliation.RunJobs` | scripts/verify_discord_checkpoint_migration.py:870-941 | In every run of jobs and finalizations with crashes and lost responses anywhere: each published release had been restored in full and its parent was latest just before, neither the latest nor its parent was ever deleted, at most one draft exists, at most 100 releases are listed, and with pruning at most three are published |
| `CheckpointReconciliation.RunJob` | scripts/private_discord_checkpoint.py:573-767 | One job, stopped at any step, keeps all of that and adds at most one commit, a child of the archive's head bound to a successful checkpoint; one that gets through leaves its checkpoint latest and a settled state, so that the next one has nothing to reconcile; with 100 releases listed none gets through and nothing changes |
| `CheckpointReconciliation.Finalize` | scripts/verify_discord_checkpoint_migration.py:524-595 | Publishes only a migration's draft that is alone in the repository and was restored twice as expected; success means it was found published, latest and settled afterwards, and a lost response is no success |
| `CheckpointReconciliation.InspectMigration` | scripts/verify_discord_checkpoint_migration.py:193-229 | Admits only the expected first checkpoint, alone in the repository, latest exactly if it is no draft, with its archive unmoved |
| `CheckpointReconciliation.PublishDiscordArchive` | scripts/verify_discord_checkpoint_migration.py:944-960 | The job's own publication pushes a child of the recorded archive commit only for this run's successful latest checkpoint, bound to it |
| `CheckpointReconciliation.AnyNumberWithoutPruning` | scripts/private_discord_checkpoint.py:573-640 | Without pruning restores every number of published releases from 1 to 100 is left by some run of jobs stopped after their publications |
| `CheckpointReconciliation.AtMostThree` | docs/guides/private-checkpoints.md:86-97 | Latest, parent and grandparent are at most three releases |
| `TailExecution.Runner.Run` | internal/discord/tail_execution.go:123-211 | Without parent cancellation the error is a function of the handler's result and completion time, whichever select arms win; a parent that ends after the deadline counts only if its own deadline came first; in every case success means nil before the deadline, the join takes at most the grace period, and only a handler that has not returned is given up on |
| `TailExecution.SuccessIsInTime` | internal/discord/tail_execution.go:331-358 | A handler that finishes at or after its deadline is never reported as success |
| `TailExecution.Runner.AwaitDeadline` | internal/discord/tail_execution.go:279-329 | After the deadline the error is still decided by the completion time, whatever the timer does |
| `TailExecution.Runner.FinalDeadline` | internal/discord/tail_execution.go:360-380 | A handler is abandoned only when it has not returned by the end of the grace period |
| `TailExecution.Runner.AwaitParent` | internal/discord/tail_execution.go:235-262 | A cancelled handler that has returned is never reported as stuck, and its own error wins over the cancellation |
| `TailExecution.Runner.ParentError` | internal/discord/tail_execution.go:264-277 | A cancellation counts as the parent's only before the handler's own deadline or when the parent's deadline comes first, and always in the first case |
| `TailExecution.BoundedJoin` | internal/discord/tail_execution.go:399-405 | Join time is never negative and never above the grace period |
| `TailExecution.Circuit.RecordFailure` | internal/discord/tail_failures.go:89-101 | Opens exactly with the failure that completes the first run of `limit` failures with no success between, and at most once |
| `TailExecution.Circuit.RecordSuccess` | internal/discord/tail_failures.go:103-109 | A success ends a run and never opens or closes the circuit |
| `TailExecution.NewRun` | internal/discord/tail_failures.go:89-109 | A run of failures is new exactly when the history now ends with it |
| `TailWorker.HandlersTakeTurns` | internal/discord/tail.go:94-180 | In every interleaving, when an ordered handler starts no other runs, every earlier queued task has had its handler started and no later one has, and every failed message task is recorded |
| `TailWorker.HandlersNeverOverlap` | internal/discord/tail.go:94-180 | At no time do two ordered handlers run, even after one was given up on |
| `TailWorker.LiveFailuresAreRecorded` | internal/discord/tail.go:107-146 | A message task that failed while the tail context was live is recorded, or a fatal error is signalled; the worker ends only with the context done or a fatal error |
| `TailWorker.RefusedOnlyAtTheEnd` | internal/discord/tail.go:464-477 | An event that is not queued finds the context done or a fatal error signalled, then and in every later state |
| `TailWorker.StepKeepsInv` | internal/discord/tail.go:82-180 | Every step keeps first-in first-out order, start order, exclusion and recording |
| `SnapshotFilter.Filter.PublicChannel` | internal/share/filter.go:284-351 | Terminates on any channel graph and equals the memo-free verdict after any earlier queries; the in-progress branch is unreachable; verdicts and missing marks in the memo are all correct |
| `SnapshotFilter.WalkUp` | internal/share/filter.go:303-316 | The walk classifies a chain as clear, blocked or missing, where a cycle or an unknown ancestor is missing |
| `SnapshotFilter.CycleIsMissing` | internal/share/filter.go:303-316 | A chain that comes back to itself never ends and is neither clear nor blocked |
| `SnapshotFilter.ParentIsClear` | internal/share/filter.go:322-328 | The parent of a channel with a clear chain has a clear chain one link shorter, which is why threads terminate |
| `SnapshotFilter.LastOverwriteDecides` | internal/share/filter.go:380-408 | Viewing is decided by the last overwrite for everyone that allows or denies it, else by the guild's permissions |
| `SnapshotFilter.ApplyEveryoneOverwrite` | internal/share/filter.go:380-408 | The loop over overwrites computes the overwritten permissions, or nothing for missing or unreadable metadata |
| `SnapshotFilter.Filter.ChannelAllowed` | internal/share/filter.go:257-282 | A channel is allowed exactly when the options select it by the memo-free definition |
| `SnapshotFilter.Filter.Load` | internal/share/filter.go:41-84 | The allowed channels and message ids are what the options select, in whatever order channels are visited |
| `PublishPreflight.PreflightPublishScope` | internal/share/preflight.go:58-118 | Candidate and allowed counts of channels and messages, in total and the allowed ones per guild, are the numbers of rows the two filters publish; allowed never exceed candidates |
| `PublishPreflight.Report.CountChannels` | internal/share/preflight.go:143-177 | The channel counters, in total and per guild |
| `PublishPreflight.Report.CountMessages` | internal/share/preflight.go:179-218 | The message counters, a message counting for its channel's guild |
| `PublishPreflight.CountedAreExported` | internal/share/filter.go:195-222 | The counted messages are exactly the exported ones if and only if no message with an empty id is in a selected channel while another message that is not a direct one is in a channel not selected |
| `PublishPreflight.BlankIdExample` | internal/share/filter.go:195-222 | One excluded channel and a message with the empty id in the other: one message is counted, both are exported |
| `PublishPreflight.ExampleIsLoaded` | internal/share/filter.go:41-84 | The sets of that example are those the filter loads |
| `PublishPreflight.CandidateSelectsMore` | internal/share/preflight.go:59-72 | Whatever the full filter selects the candidate filter selects too |
| `CanonicalRows.AlternationSettles` | internal/store/canonical.go:78-102 | After each of two payloads with distinct mention ids has arrived once, no further arrival of either rewrites the row if and only if, once prepared, they observe one entity and every field is equal, empty in both where empty counts as absent, known to exactly one side, or known to neither but stored; or have the same form if they do not observe one entity |
| `CanonicalRows.AgreeingOverMore` | internal/store/canonical.go:253-260 | Payloads that settle over nothing stored settle over everything stored |
| `CanonicalRows.StoreSeesForm` | internal/store/canonical.go:199-203 | Over rows of equal canonical form an observation stores payloads of equal form, so that leaving a row unwritten loses nothing for later comparisons |
| `CanonicalRows.CanonicalForm` | internal/store/canonical.go:78-90 | The loop over the nine keys gives the comparison form: prepared fields without the empty ones among those keys |
| `CanonicalRows.Observe` | internal/store/write.go:150-186 | The row is written exactly when there is none or the canonical forms differ, and otherwise stays as it was |
| `CanonicalRows.FormsAgree` | internal/store/canonical.go:78-102 | Forms are equal if and only if no field differs but in how it is empty |
| `CanonicalRows.RestoringIsFixed` | internal/store/canonical.go:63-76 | When the same payload arrives again the row is left alone if and only if no mention lacks a known value that the last mention with its id has and the stored mention does not; in particular whenever mention ids are distinct |
| `CanonicalRows.RepeatedMentionRewrites` | internal/store/canonical.go:272-297 | A user mentioned twice with flags 0 and then 5: the second arrival rewrites the row |
| `CanonicalRows.KnownNeverLost` | internal/store/canonical.go:253-297 | A kept value at any place, nested users, mentions and referenced messages included, is known after the merge if and only if the incoming payload knows it, or the stored one does and the incoming one carries the object or the item it is in under the same identity |
| `CanonicalRows.RowLosesExactly` | internal/store/canonical.go:253-297 | A row loses a known value if and only if it is rewritten by a payload that neither knows it nor carries its place |
| `CanonicalRows.OwnFieldsAreCarried` | internal/store/canonical.go:253-260 | The payload's own kept fields are carried by every observation of the same entity |
| `CanonicalRows.NullAuthorLosesFlags` | internal/store/canonical.go:262-270 | A null author over a known one loses the author's flags |
| `CanonicalPayload.FeatureOrderIsForgotten` | internal/store/canonical.go:324-334 | Guilds that differ in the order of their features prepare to the same payload |
| `CanonicalPayload.OverwriteOrderIsForgotten` | internal/store/canonical.go:336-347 | Channels that differ in the order of their permission overwrites prepare to the same payload, when no cycle runs among the ids and no two overwrites share id and type |
| `CanonicalPayload.PreparationIsIdempotent` | internal/store/canonical.go:104-170 | Preparing a prepared payload changes nothing, when no cycle runs among the ids of its overwrites |
| `CanonicalPayload.OverwritesSortedAsPrepared` | internal/store/canonical.go:336-347 | Without such a cycle the prepared overwrites are what a stable sort returns and nothing else is |
| `CanonicalPayload.FeaturesSortedAsPrepared` | internal/store/canonical.go:324-334 | The prepared features are what a stable sort returns and nothing else is |
| `Canonical.MergeSettles` | internal/store/canonical.go:253-297 | The alternation theorem for one value under any merge rule, in both directions |
| `Canonical.MergeIsFixed` | internal/store/canonical.go:253-297 | The fixed-point theorem for one value with distinct ids under any merge rule |
| `Canonical.MergeRepeats` | internal/store/canonical.go:253-297 | With repeated ids: the exact condition for one value under any rule of the merge |
| `Canonical.KnownIsKept` | internal/store/canonical.go:253-297 | What is known after a merge, at any place under any merge rule, in both directions |
| `Canonical.KeptFieldSettles` | internal/store/canonical.go:253-260 | For one kept field, exactly when two shapes settle: equal, one side known, or both unknown over a known stored value |
| `CanonicalRows.PlaceholdersAlternate` | internal/store/canonical.go:199-203 | Null and false in a guild's large field rewrite its row for ever |
| `CanonicalRows.EmptyListsSettle` | internal/store/canonical.go:82-90 | Null and the empty list in a guild's channels do not |
| `Canonical.IdentityKept` | internal/store/canonical.go:299-306 | Merging never changes what an object is an observation of |
| `Canonical.EachMergeDistinct` | internal/store/canonical.go:272-297 | With distinct ids a merged mention list keeps its items, each found again by its id |
| `CanonicalOrder.SortIgnoresOrder` | internal/store/canonical.go:336-347 | Any two orders of the same elements sort to the same list when the comparison is linear on them |
| `CanonicalOrder.SnowflakesAreNumbers` | internal/store/canonical.go:360-367 | Canonical decimal ids are ordered as the numbers they denote |
| `CanonicalOrder.OrderedExactlyWithoutCycles` | internal/store/canonical.go:358-367 | The comparison is transitive on a set of ids if and only if the set holds no two decimal ids of different length with another id that as a text lies between the longer and the shorter |
| `CanonicalOrder.OverwritesAreLinear` | internal/store/canonical.go:336-347 | Overwrites have one order if and only if no such three ids are among them and no two share id and type |
| `CanonicalOrder.StableSortIsSortBy` | internal/store/canonical.go:324-347 | On a total preorder a list is what a stable sort may return if and only if it is what insertion sort returns |
| `CanonicalOrder.MixedIdsAreCyclic` | internal/store/canonical.go:360-367 | With other ids among them the comparison is cyclic: 9 before 10, 10 before 1x, 1x before 9 |
| `CanonicalMerge.CanonicalMerge` | internal/store/canonical.go:104-194 | The in-place merge stores what the per-key rules say and takes out every live counter that is a number |
| `CanonicalMerge.Payload.MergeGuild` | internal/store/canonical.go:117-142 | A guild's fields after counters, collections, features and placeholders |
| `CanonicalMerge.Payload.MergeChannel` | internal/store/canonical.go:143-173 | A channel's fields after counters, overwrites, thread times and kept values |
| `CanonicalMerge.Payload.MergeMentionMembers` | internal/store/canonical.go:272-297 | Each mention keeps known values of the stored mention with its id, the last one when ids repeat |
| `CanonicalMerge.FieldwiseIsStored` | internal/store/canonical.go:104-194 | A payload merged field by field is the stored one, identity being judged before or after preparation alike |
| `CloudIngest.Cloud.PublishRows` | internal/cli/cloud_commands.go:154-205 | Against every script of replies the accepted requests carry a prefix of the rows in order, all of them on success, each cursor is the offset of its first row, no request exceeds 250 rows, and only the last accepted one may be final; with finitely many reset replies it terminates |
| `CloudIngest.Cloud.PublishBatch` | internal/cli/cloud_commands.go:207-246 | The same for one batch, oversized batches being halved until they fit; with finitely many reset replies it terminates, and rows are never sent while the server has an unfinished reset |
| `CloudIngest.Cloud.PublishReset` | internal/cli/cloud_commands.go:248-263 | Only empty requests are sent, exactly one more than the run of incomplete answers ahead; it succeeds if and only if the answer after that run is a finished reset |
| `CloudIngest.DrainingEndsExactlyWithTheRun` | internal/cli/cloud_commands.go:248-263 | Against a server that never stops answering the number of requests is bounded if and only if its run of incomplete answers ends |
| `CloudIngest.ResetOfAnyLength` | internal/cli/cloud_commands.go:248-263 | For every n there is a server that makes one reset send n + 1 requests |
| `CloudIngest.BatchOfAnyLength` | internal/cli/cloud_commands.go:207-232 | For every n there is a server whose resets all end and that makes one batch send at least 2n requests |
| `CloudIngest.ConsecutiveJoin` | internal/cli/cloud_commands.go:237-245 | Requests that follow each other from adjoining offsets carry the rows of both |
| `CloudIngest.AcceptedJoin` | internal/cli/cloud_commands.go:237-245 | Two halves accepted one after the other are the batch accepted in order, final only at its end |
| `MergeAdmission.OrderIndependence` | internal/share/rows.go:178-223 | Merging any rows of a key ends in the same revision and deletion state in every order if and only if a local row exists or there is no observation fence |
| `MergeAdmission.FirstRowDecides` | internal/share/rows.go:195-200 | With a fence and no local row, two rows behind the fence end differently in their two orders |
| `MergeAdmission.MergedIsGreatest` | internal/share/rows.go:178-223 | With a local row the result is the local row if no incoming row passes it and the fence, and the greatest incoming row otherwise |
| `MergeAdmission.NothingIsUndone` | internal/share/rows.go:178-223 | The stored revision never decreases, and a tombstone yields only to a live row later than it and than the fence |
| `MergeAdmission.EntityTable.Upsert` | internal/share/rows.go:157-223 | A row is written exactly when it is admitted against the stored row and the fence |
| `MergeAdmission.EntityTable.Merge` | internal/share/merge.go:221-240 | Each key ends with the merge of its own rows, whatever the other keys receive |
| `MergeAdmission.Record.Validate` | internal/share/rows.go:17-99 | A guild or member row is accepted exactly when its revision is a time stamp and deletion metadata is there exactly for a tombstone; it is then in stored form |
| `MergeAdmission.StoredFormIsFixed` | internal/share/rows.go:17-99 | The stored form is accepted again, unchanged, with the same revision and deletion state |

## Left out

- The SQL engine, its pragmas, full-text search and the effect of REPLACE on other unique keys; tables are maps.
- Change feed: the encoding of blob keys, the digest text of an entry (an entry stands for its digest), and
  the JSON text of the contract rows.
- Usage scanner: joining of UTF-16 surrogate pairs and replacement of invalid UTF-8 in tier and model, which are
  kept as code units and bytes; the unsigned 64-bit parse error, which the 2^53-1 bound subsumes.
- Object extraction: the wrapper `extractJSONValues`, file scanning and snapshots of caches.
- Publication: file modes, directory creation, symbolic links and other irregular files (failing steps), sorted
  visiting order (any order is allowed), reading the previous manifest from Git, sanitising of embedding path
  segments, README and field notes.
- Checkpoint packing: at which moment the compressor hands its output to the writer, disk-space checks, SQLite's
  backup and the scan behind the database facts, which are a parameter.
- Checkpoint protocol: process control, execution context and actor checks, policies, JSON of manifests and
  receipts, asset lists beyond one identity per upload, the manual entry points `diagnose` and
  `recover-publisher`, the content of the exported archive and its policy branch. Checks of workflow runs are steps that may fail.
- Tail: stage metadata, failure reports and kinds, event observers, panic recovery beyond its error value, the member
  workers' own queues (their cancellations and fatal errors are steps of the environment), closing the session.
- Snapshot filter: reading permission numbers from JSON (their bits are the input), members, mentions, guilds and
  sync state, readiness warnings of the preflight.
- Canonical payloads: encoding and decoding of JSON text, the byte-for-byte reuse of an unedited payload,
  comparing ids that are themselves objects or lists, and stored text that is no JSON object.
- Cloud ingest: the total returned, whose evaluation order against the last flush is unspecified; cursor text,
  manifests and columns, SQLite bundles.
- Merge admission: the second guard in SQL for channels and messages, attachment state, repair of guild ids, and
  revisions that are no time stamps beyond their textual comparison.
- CanonicalPayload.PreparationIsIdempotent: nothing is said about overwrites whose ids go round in a circle, which a
  stable sort may leave in an order that depends on its algorithm; the same holds of the theorems on rows.
- CanonicalRows.AlternationSettles: two different payloads that mention a user twice are not covered.
- CanonicalRows.Observe: the other columns of a row, whose changes also write it, are taken to be equal.
- Desktop route merging, sync locks, reports, configuration, credentials and media download.
- Finite numbers of widths: sizes, times and counters are unbounded integers; none of the modelled code relies on
  wrap-around.
