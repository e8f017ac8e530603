# FlameDB in Dafny

A model of the parts of FlameDB that decide whether its answers are right, and proofs about them:

- **Ranking projection.** PostgreSQL scores mirrored into Redis by diff and rebuild scripts, and read
  back by rank queries (`MemberCodec`, `Ranking`, `Projection`, `ProjectionProtocol`, `ProjectionServes`,
  `ProjectionScripts`).
- **Ingest.** The ordered COPY batch, the timestamp allocator, and the queue that lets submits share a
  transaction (`CopyBatch`, `EventRows`, `Timestamps`, `Coalescer`, `CoalescerOrder`, `CoalescerProgress`,
  `CoalescedShares`).
- **Pebble storage.** Batches of mutations, the legacy leaderboard scan, events and their tag index, and
  leaderboard pages (`PebbleBatch`, `LegacyLookup`, `LegacyBoard`, `Keyspace`, `TagIndex`, `HeapPage`).
- **Series.** Bucketed aggregation in one pass and in chunks (`Series`).
- **Kotlin client.** The crash-safe write journal, its framing and recovery, and the command pool whose
  NOT_SENT verdict the journal relies on (`Journal`, `Lookahead`, `JournalOrder`, `JournalProgress`,
  `JournalRecovery`, `WriteJournal`, `Frames`, `CommandPool`, `SendSafety`).
- **Cluster.** The replication outbox with receipts and striped locks, and the hash ring (`Replication`,
  `ReplicationOrder`, `HashRing`).

Concurrent parts are state machines: a `State`, the `Event`s that are `Enabled` in it, and `Next`. The
main results speak about every finite run, or about every continuation of one. Loops that update
variables are methods with invariants; objects that change in place are classes. float64 addition is
an arbitrary function passed as an argument, so equalities of sums hold because the order of additions
is the same; its operands are always the old score and then the new value, also where the code writes
them the other way round. `dafny verify dfyconfig.toml` checks everything.

Four promises turn out to hold only under a condition, which is proved to be exact:

- A cached read is right in all runs if and only if every publishing mutation finds a metric row. A
  leaderboard delete on a metric without a row publishes a diff all the same
  (`ProjectionProtocol.SafeExactlyWithRow`).
- Replicated effects follow the primary's order in every run without a shutdown. During shutdown the code
  drops records and goes on sending in two places: after a send gave up, and after the fan-out dropped a
  record. The order stays safe if and only if what was dropped had already taken effect on the replica
  (`ReplicationOrder.CodeDropsExactly`); a program that stops sending after a drop would always be safe
  (`ReplicationOrder.InOrderExactlyIfHalting`).
- The journal's lookahead is right whatever a directory scan returns if and only if 256 files were pending
  when the scan began or at most one file was sealed during it. The comment beside it says that newly
  sealed files sort after the lookahead; a scan that runs while two files are sealed may return the second
  without the first (`Lookahead.ScanRightExactly`, `WriteJournals.TransmitsInCreationOrder`,
  `JournalOrder.RacingRun`).
- A Pebble batch leaves the sorted rows of one-at-a-time execution if and only if no row left over from
  older data holds a score that an entity only passes through during the batch
  (`PebbleBatch.ExecuteWriteBatch`, `PebbleBatch.StaleRowStays`).

## Model

| member | source | states |
|---|---|---|
| MemberCodec.EncodeOrder | internal/analytics/ranking.go:23-45 | byte order of encoded members is the board order: higher score first; ties by ascending entity when the score is not negative and descending when it is, for all finite scores and all byte strings |
| MemberCodec.EncodeRoundTrip | internal/analytics/ranking.go:23-75 | decoding an encoded member returns the score (negative zero as zero) and the entity |
| MemberCodec.DecodeInverse | internal/analytics/ranking.go:46-75 | what decodes re-encodes to the same bytes if and only if it is not the pattern of the negative zero, which decoding accepts and encoding never writes |
| MemberCodec.EncodeInjective | internal/analytics/ranking.go:23-45 | different rows have different members |
| Ranking.MembersSize | internal/analytics/ranking.go:409-418 | a board's sorted set and entity hash both have one element per row, so sizes can stand for contents |
| Ranking.ListingEncodes | internal/analytics/ranking.go:711-711 | listing a board in SQL's order and encoding each row gives the members in byte order |
| Ranking.ListingExists | internal/analytics/ranking.go:711-711 | every board has a listing in SQL's order |
| Ranking.SqlRankIsPosition | internal/analytics/ranking.go:771-777 | counting the rows that precede an entity gives its position in the listing |
| Ranking.NumberedRank | internal/analytics/ranking.go:683-709 | every row of a page carries the entity's durable score and, as its rank, one more than the number of entities before it |
| Ranking.AroundIsWindow | internal/analytics/ranking.go:771-790 | AROUND lists exactly the entities whose rank is at most the radius away, in rank order, each with its rank and score |
| Ranking.CompleteBoardAnswersLikeSql | internal/analytics/ranking.go:594-709 | on a complete board LEADERBOARD, LEADERBOARD_COUNT, AROUND, and RANK and SCORE, which share a branch, answer exactly as the SQL path does, for every offset, limit, radius and entity, missing ones included |
| Projection.ApplyDiffSound | internal/analytics/ranking.go:124-152 | a diff script keeps the cache sound: every board whose two sizes equal its recorded count is the durable board of the recorded version |
| Projection.FullStagingIsComplete | internal/analytics/ranking.go:333-338 | staging keys of full size hold exactly the snapshot's rows even if some were evicted on the way |
| Projection.PublishPrefixSound | internal/analytics/ranking.go:333-354 | stopping the publish script after any number of its commands leaves a sound cache |
| Projection.MidPublishInvalid | internal/analytics/ranking.go:342-352 | between dropping the metadata and writing its version no reader accepts the cache |
| Projection.SoundReadIsSqlAnswer | internal/analytics/ranking.go:594-709 | a read the script accepts on a sound cache is the SQL answer at the version it was asked for |
| ProjectionProtocol.StepKeepsInv | internal/analytics/ranking.go:360-465 | every commit, send, delivery, rebuild step, eviction and epoch reset keeps the invariant, given a metric row for each publishing mutation |
| ProjectionProtocol.RunKeepsInv | internal/analytics/ranking.go:360-465 | so does every finite run, with messages lost, delayed, repeated and reordered |
| ProjectionProtocol.ReachableCacheIsExact | internal/analytics/ranking.go:124-152 | in every reachable state a board of recorded size holds exactly the scores of the version the metadata names |
| ProjectionProtocol.WarmReadIsExact | internal/analytics/ranking.go:528-570 | a warm read answers with the scores durable at the moment its version was selected, whatever happens in between, so it misses no write acknowledged before it started |
| ProjectionProtocol.FreshChangesValid | internal/analytics/mutation.go:123-164 | changes that name each row's previous value, each row once, form a valid diff |
| ProjectionProtocol.RowlessDiffMisleads | internal/analytics/mutation.go:84-94 | a delete on a metric without a row publishes a diff for version 0, after which some run serves a wrong answer |
| ProjectionProtocol.SafeExactlyWithRow | internal/analytics/mutation.go:188-198 | from a correct state a mutation leaves all later reads right if and only if the metric has a row or the mutation publishes nothing |
| ProjectionServes.HeldIsServed | internal/analytics/ranking.go:594-624 | a read of a board whose keys and count are those of its durable rows is answered, whatever is asked |
| ProjectionServes.DiffServes | internal/analytics/ranking.go:124-152 | a diff for the version of a complete cache is applied and leaves the cache complete for the next version |
| ProjectionServes.PublishServes | internal/analytics/ranking.go:333-354 | publishing a complete staging makes every board with rows complete, and every board without rows that has no keys left |
| ProjectionServes.RebuildServes | internal/analytics/ranking.go:360-465 | from every reachable state a rebuild that nothing disturbs makes the cache answer every read at the durable version |
| ProjectionScripts.MetricKeys.constructor | internal/analytics/ranking.go:403-420 | an empty projection with empty staging keys |
| ProjectionScripts.MetricKeys.Apply | internal/analytics/ranking.go:124-152 | the loops of the diff script in place compute the diff function, and say whether it was applied |
| ProjectionScripts.MetricKeys.CheckSizes | internal/analytics/ranking.go:127-139 | every touched board is of recorded size, and which boards are touched |
| ProjectionScripts.MetricKeys.ApplyEach | internal/analytics/ranking.go:140-147 | the changes applied in order |
| ProjectionScripts.MetricKeys.Record | internal/analytics/ranking.go:148-150 | the touched boards' new sizes, in any order of boards |
| ProjectionScripts.MetricKeys.ApplyOne | internal/analytics/ranking.go:143-146 | one change: remove the old member, add or delete the new one |
| ProjectionScripts.MetricKeys.Publish | internal/analytics/ranking.go:333-354 | the publish script in place equals its whole command list, or changes nothing when staging is incomplete |
| ProjectionScripts.MetricKeys.CheckStaging | internal/analytics/ranking.go:334-338 | every staged board has its row count in both collections |
| ProjectionScripts.MetricKeys.DropOld | internal/analytics/ranking.go:339-341 | the boards of the old metadata are dropped one by one, as the front of the command list |
| ProjectionScripts.MetricKeys.InstallAll | internal/analytics/ranking.go:343-349 | the staged boards are installed one by one, as the rest of the command list |
| ProjectionScripts.MetricKeys.Install | internal/analytics/ranking.go:343-349 | one board: drop, two renames, recorded count |
| ProjectionScripts.MetricKeys.Read | internal/analytics/ranking.go:594-624 | the read script's loops compute its reply |
| ProjectionScripts.MetricKeys.Find | internal/analytics/ranking.go:603-611 | the reply about one entity, or a refusal when hash and sorted set disagree |
| ProjectionScripts.MetricKeys.Collect | internal/analytics/ranking.go:615-622 | the members of a rank interval, clipped to the board |
| CopyBatch.Propose | internal/analytics/batch.go:33-48 | the boards of one item in any map order: rejected if any sum is not finite, else all new sums |
| CopyBatch.StageItems | internal/analytics/batch.go:31-57 | one ordered pass gives the scores of one transaction per item, rejects exactly the items that would have been rejected then, and lists the event writes of the others in order |
| CopyBatch.RejectsExactly | internal/analytics/batch.go:33-48 | an item is rejected if and only if adding its value to the score of one of its boards is not finite |
| CopyBatch.MutateAdds | internal/analytics/batch.go:49-57 | an accepted item adds its value to exactly the scores it names, starting from nothing where there is no row |
| CopyBatch.ScoresAccumulate | internal/analytics/batch.go:31-57 | after any list of items each score is the old one plus the accepted values that credit it, in order |
| CopyBatch.AcceptedWrites | internal/analytics/batch.go:49-57 | the event writes are those of the accepted items, with their metric, time, value and tags, in order |
| CopyBatch.ItemLands | internal/analytics/batch.go:60-130 | where the event of each accepted item is afterwards |
| CopyBatch.ListKeys | internal/analytics/batch.go:90-93 | the changed keys, each once, in any order |
| CopyBatch.Publications | internal/analytics/batch.go:138-142 | one list of changes per metric that has any |
| CopyBatch.DiffIsNetEffect | internal/analytics/batch.go:138-142 | applying a metric's list of changes to its old scores gives its new scores |
| CopyBatch.DiffIsUpsert | internal/analytics/batch.go:138-142 | each list names actual previous values, each row once: it is a valid diff of the projection protocol |
| CopyBatch.StoreScores | internal/analytics/batch.go:90-142 | each changed score row is written once, every published diff leads from the old to the new scores of its metric, and other metrics are unchanged |
| CopyBatch.CopyWrites | internal/analytics/batch.go:22-162 | the whole transaction: each score is the old one plus the values of the accepted items that credit it, added in order; an item is rejected exactly if one of its sums is not finite; every accepted item has its event row with its own value and tags, an automatic one at a time that is no earlier than the clock reading and later than the metric's last automatic one; one valid diff per metric; it fails exactly when a metric cannot allocate its timestamps, and then changes nothing |
| EventRows.Count | internal/analytics/batch.go:61-78 | how many automatic timestamps each metric needs and which positions explicit writes reserve |
| EventRows.Assign | internal/analytics/batch.go:83-89 | the k-th automatic write of a metric gets the metric's k-th allocated timestamp, in input order |
| EventRows.UpsertIsSequential | internal/analytics/batch.go:192-198 | upserting the last payload of each metric and timestamp leaves the rows of the writes one after the other |
| EventRows.AutomaticIsAlone | internal/analytics/batch.go:60-89 | an automatic write has an identity that no stored event and no other write of the batch has |
| EventRows.StampIsLate | internal/analytics/batch.go:83-89 | an automatic time is no earlier than the clock reading and later than the metric's last automatic one |
| EventRows.EventsLand | internal/analytics/batch.go:60-130 | every automatic write becomes a new row of its own, every explicit one its row unless a later write of the batch has the same identity, and no other row changes |
| EventRows.StoreEvents | internal/analytics/batch.go:60-130 | timestamps, event rows and clocks of the accepted writes together; a failed allocation changes nothing |
| Timestamps.FreeListExact | internal/analytics/timestamp_batch.go:198-214 | the free positions of an interval, ascending and complete |
| Timestamps.FirstFreeIsEarliest | internal/analytics/timestamp_batch.go:117-130 | the first free positions from the start of a search are the earliest times after the clock and the reading |
| Timestamps.CannotAllocateExactly | internal/analytics/timestamp_batch.go:97-130 | when a metric cannot be served, in terms of its clock, the reading and the occupied times |
| Timestamps.Allocation.constructor | internal/analytics/timestamp_batch.go:117-130 | a search starts with nothing chosen |
| Timestamps.Allocation.Bound | internal/analytics/timestamp_batch.go:145-155 | the end of the next page's interval, computed without overflow |
| Timestamps.PageDecides | internal/analytics/timestamp_batch.go:156-168 | a page of occupied positions decides every position up to its last row, and all of them when it is not full |
| Timestamps.Allocation.Walk | internal/analytics/timestamp_batch.go:199-214 | one walk over a page allocates exactly the free positions it passes and stops where the page cannot decide |
| Timestamps.Round | internal/analytics/timestamp_batch.go:131-223 | one round advances every unfinished search or finds its space exhausted |
| Timestamps.SearchAll | internal/analytics/timestamp_batch.go:131-223 | the rounds end: every search gets the first free positions, or one has fewer below the largest int64 |
| Timestamps.Prepare | internal/analytics/timestamp_batch.go:97-130 | one search per metric from its clock and reading, or a failure because some metric cannot be served |
| Timestamps.Collect | internal/analytics/timestamp_batch.go:224-252 | each metric's timestamps, and its clock moved to the last of them |
| Timestamps.AllocateBatch | internal/analytics/timestamp_batch.go:85-253 | returns for every metric the earliest free times that are no earlier than its clock reading and later than its last automatic one, and moves its clock to the last of them; fails exactly when some metric has too few, or its clock is at the largest int64, and then changes no clock |
| Timestamps.CommitKeepsOrder | internal/analytics/timestamp_batch.go:117-130 | a committed transaction keeps automatic timestamps strictly increasing and apart from every event |
| Timestamps.HistoryIsOrdered | internal/analytics/automatic_ingest.go:19-25 | over all transactions and arbitrary clocks, automatic timestamps of a metric strictly increase and hit no other event |
| PebbleBatch.StageReplaces | internal/aggregates/leaderboard.go:313-337 | deleting the sorted row of the current score and writing the new one leaves the older rows except those with a value the entity has left, whatever rows the store held |
| PebbleBatch.RunsExactly | internal/query/pebble_batch.go:83-125 | an item runs if and only if it is a write with a finite value and a time that is not negative, its operation has no receipt, and every sum is finite; an item with a receipt is accepted and not run again |
| PebbleBatch.ExecuteWrites | internal/query/pebble_batch.go:126-145 | an item that runs writes its event and its receipt; any other item changes nothing |
| PebbleBatch.ExecuteScoresOf | internal/query/pebble_batch.go:113-145 | it adds its value to exactly the entities it credits and moves their sorted rows |
| PebbleBatch.StageIndexed | internal/storage/storage.go:490-524 | writing an event, also over an older one, keeps exactly one index row for each tag of each event |
| PebbleBatch.ExecuteAllIndexed | internal/storage/storage.go:490-524 | so does every list of items |
| PebbleBatch.ScoresAccumulate | internal/query/pebble_batch.go:113-145 | after any list of items each score is the old one plus the values of those that ran and credit it, in order |
| PebbleBatch.Load | internal/query/pebble_batch.go:102-112 | a score is read once and then kept |
| PebbleBatch.Propose | internal/query/pebble_batch.go:97-125 | all boards of an item are validated against staged scores before any is staged |
| PebbleBatch.StageOne | internal/query/pebble_batch.go:83-145 | staging one item stands for executing it alone |
| PebbleBatch.StageAll | internal/query/pebble_batch.go:76-158 | the staging callback stages what one-at-a-time execution writes, for every store, and names the accepted and the failed items |
| PebbleBatch.WriteScores | internal/query/pebble_batch.go:146-156 | each changed score is written once and replaces only the row of the score before the batch |
| PebbleBatch.BatchKeepsPassed | internal/query/pebble_batch.go:146-156 | the batch keeps exactly the stale sorted rows whose score an entity only passes through, and one-at-a-time execution deletes exactly those in addition |
| PebbleBatch.StaleRowStays | internal/aggregates/leaderboard.go:313-337 | two writes and one old row for which the two paths differ |
| PebbleBatch.NothingPassed | internal/query/pebble_batch.go:146-156 | a store without stale rows leaves nothing behind |
| PebbleBatch.ExecuteWriteBatch | internal/query/pebble_batch.go:16-176 | on every store one batch leaves the events, tag indexes, scores and receipts of executing its items one at a time, and the same sorted rows if and only if no stale row holds a score that was only passed through; the event of every item that runs is there unless a later one has its key, every event has exactly its index rows, each score is the old one plus the values of the items that ran and credit it, in order, and receipts are those of the items that ran; accepted and failed add up to the items and error indices are distinct; a failed commit changes nothing |
| PebbleBatch.BoardNameInjective | internal/aggregates/leaderboard.go:28-38 | different metrics and boards have different key names, because no metric contains the separator |
| PebbleBatch.OneScoreListed | internal/aggregates/leaderboard.go:28-38 | a store with one score, on the default or any named board, and what the lookup sees of it |
| PebbleBatch.ScoreIsGet | internal/aggregates/leaderboard.go:128-168 | on the default and on named boards the score both paths start from is what Leaderboard.Get finds: the entity index, else the first legacy row in key order, else zero |
| LegacyLookup.LockedBatchLookup.Scan | internal/aggregates/batch_lookup.go:53-72 | the shared scan keeps the first legacy row of every wanted entity |
| LegacyLookup.LockedBatchLookup.Lookup | internal/aggregates/batch_lookup.go:25-78 | a batch lookup returns what a single lookup would, or refuses an entity that was not locked |
| Keyspace.ComponentRoundTrip | internal/keyspace/component.go:10-26 | an escaped component holds no delimiter and decodes to its name, for every byte string |
| Keyspace.UnhexExactly | internal/keyspace/component.go:18-26 | exactly the hexadecimal digits of a name, in either letter case, decode to it |
| Keyspace.RangeExact | internal/aggregates/leaderboard.go:189-199 | an iterator over a key range yields exactly the rows inside it, in order |
| LegacyBoard.RowKeyOrder | internal/aggregates/leaderboard.go:40-47 | row keys order by inverted score bits and then by entity |
| LegacyBoard.VisitedIsListing | internal/aggregates/leaderboard.go:185-237 | the two passes visit a board exactly in leaderboard order, negative scores included |
| LegacyBoard.OtherMetricsOutside | internal/aggregates/leaderboard.go:40-47 | the scan of one metric visits no row of another, whatever their names contain |
| LegacyBoard.Pass | internal/aggregates/leaderboard.go:207-226 | one pass: skip while an offset remains, then collect up to the limit, and stop at a row that does not decode |
| LegacyBoard.ScanIsPage | internal/aggregates/leaderboard.go:194-235 | the two passes with shared offset and limit answer with the page, or with an error exactly if one of the rows up to its end does not decode |
| LegacyBoard.TopN | internal/aggregates/leaderboard.go:185-237 | for every store, limit and offset: negative ones are refused, an undecodable row fails the request exactly if it comes before the end of the page, else the page is returned |
| LegacyBoard.TopNIsListing | internal/aggregates/leaderboard.go:185-237 | on a store that holds a board's rows the page is the slice of the board in leaderboard order |
| TagIndex.IndexKeyInjective | internal/storage/storage.go:204-216 | index keys determine metric, tag, value and time although values may contain the delimiter |
| TagIndex.KeysDisjoint | internal/storage/storage.go:131-137 | event keys never look like index keys, because the metric named idx is refused |
| TagIndex.RowsNotForeign | internal/query/parser.go:690-692 | no event or index row has a key of another family, because their names are refused as metrics |
| TagIndex.NothingMirrored | internal/storage/storage.go:131-137 | a database without events, and with any rows of the other key families, is a correct one |
| TagIndex.StageEventMirrors | internal/storage/storage.go:490-524 | after staging, overwrites included, each event has its row and its index rows, there is no other event or index row, and the rows of all other key families are as they were |
| TagIndex.ScanIsFilter | internal/storage/storage.go:262-332 | a scan through any tag of the filter yields exactly the matching events of the time range, by time, even where key ranges of different values overlap |
| TagIndex.PickedBackwards | internal/storage/storage.go:282-286 | walking the iterator backwards yields the same events in reverse |
| TagIndex.Collect | internal/storage/storage.go:284-329 | the page loop: offset, limit, and no limit for zero |
| TagIndex.ReadPage | internal/storage/storage.go:262-332 | the requested page of the plain filter over the events, from either end; refuses negative limits and offsets |
| TagIndex.ScanDeleteWhere | internal/storage/storage.go:544-603 | exactly the matching events go, with all their index rows, and are counted; rows of other key families stay; a dry run only counts |
| Journal.MoveKeepsDisk | pkg/kotlin/src/main/kotlin/dev/bypixel/flamedb/BufferedFlameDB.kt:506-512 | every rename keeps one live file per name, each record under one name and never twice in a file |
| Journal.StepKeepsInv | pkg/kotlin/src/main/kotlin/dev/bypixel/flamedb/BufferedFlameDB.kt:260-343 | every step of admission, sealing, sending and recovery keeps the invariant, and so does a crash at any point |
| Journal.SentAtMostOnce | pkg/kotlin/src/main/kotlin/dev/bypixel/flamedb/BufferedFlameDB.kt:284-333 | across crashes, restarts and failures no record is in two batches whose bytes may have left the client |
| Journal.KeptUntilConfirmed | pkg/kotlin/src/main/kotlin/dev/bypixel/flamedb/BufferedFlameDB.kt:433-485 | a record whose append completed stays in some file until the server has confirmed it |
| Journal.RetryExactlyWhenNotSent | pkg/kotlin/src/main/kotlin/dev/bypixel/flamedb/BufferedFlameDB.kt:316-333 | putting a claimed batch back is safe in every continuation if and only if its bytes did not leave |
| JournalRecovery.StepsRun | pkg/kotlin/src/main/kotlin/dev/bypixel/flamedb/BufferedFlameDB.kt:407-422 | what recovery does to one file is a run of protocol steps |
| JournalRecovery.Recover | pkg/kotlin/src/main/kotlin/dev/bypixel/flamedb/BufferedFlameDB.kt:406-423 | after the recovery loop claimed batches are uncertain and never pending again, and the readable prefix of every open file is pending once |
| Lookahead.SelectSmallest | pkg/kotlin/src/main/kotlin/dev/bypixel/flamedb/BufferedFlameDB.kt:491-505 | one pass with a bounded priority queue keeps the smallest names in order |
| Lookahead.QuietScanIsRight | pkg/kotlin/src/main/kotlin/dev/bypixel/flamedb/BufferedFlameDB.kt:491-505 | a scan that finds 256 files at its start, or during which at most one file is sealed, selects the smallest pending names whatever of the new files it returns |
| Lookahead.RacingScanIsWrong | pkg/kotlin/src/main/kotlin/dev/bypixel/flamedb/BufferedFlameDB.kt:491-505 | with room left and two files sealed meanwhile some possible listing is wrong |
| Lookahead.ScanRightExactly | pkg/kotlin/src/main/kotlin/dev/bypixel/flamedb/BufferedFlameDB.kt:388-390 | every listing a scan may return gives a right lookahead if and only if 256 files were pending at its start or at most one was sealed during it |
| JournalOrder.InnerRun | pkg/kotlin/src/main/kotlin/dev/bypixel/flamedb/BufferedFlameDB.kt:260-343 | every run with scans is a run of the journal protocol, so its results hold in all of them |
| JournalOrder.StepKeepsInv | pkg/kotlin/src/main/kotlin/dev/bypixel/flamedb/BufferedFlameDB.kt:476-512 | every step of the protocol with scans spread over time keeps the lookahead right, as long as scans meet that condition |
| JournalOrder.SentInCreationOrder | pkg/kotlin/src/main/kotlin/dev/bypixel/flamedb/BufferedFlameDB.kt:260-343 | in every run whose scans meet that condition batches are transmitted in the order in which their files were created, and the head of the lookahead is the oldest pending file |
| JournalOrder.SecondIsClaimed | pkg/kotlin/src/main/kotlin/dev/bypixel/flamedb/BufferedFlameDB.kt:491-505 | a run in which two files are sealed during one scan and the newer one is claimed first |
| JournalOrder.RacingRun | pkg/kotlin/src/main/kotlin/dev/bypixel/flamedb/BufferedFlameDB.kt:260-343 | and its continuation, which transmits the file created second before the first |
| WriteJournals.WriteJournal.constructor | pkg/kotlin/src/main/kotlin/dev/bypixel/flamedb/BufferedFlameDB.kt:376-390 | the journal as recovery leaves it, at the end of any run that brought the directory there |
| WriteJournals.OpenEmpty | pkg/kotlin/src/main/kotlin/dev/bypixel/flamedb/BufferedFlameDB.kt:391-425 | the first start, in an empty directory |
| WriteJournals.WriteJournal.Seal | pkg/kotlin/src/main/kotlin/dev/bypixel/flamedb/BufferedFlameDB.kt:476-485 | sealing is one rename of the active file, also while the directory is scanned, and a right lookahead stays right |
| WriteJournals.WriteJournal.OpenNew | pkg/kotlin/src/main/kotlin/dev/bypixel/flamedb/BufferedFlameDB.kt:427-431 | a new file's number is the clock reading or one more than the last one, whichever is larger, so it sorts after every file |
| WriteJournals.WriteJournal.WriteFrame | pkg/kotlin/src/main/kotlin/dev/bypixel/flamedb/BufferedFlameDB.kt:449-457 | a frame grows the active file by one record and the retained bytes by its size; a failed write closes admission |
| WriteJournals.WriteJournal.MakeRoom | pkg/kotlin/src/main/kotlin/dev/bypixel/flamedb/BufferedFlameDB.kt:442-447 | the file the next frame goes to: the active one unless it is full, else a new one after sealing it, with room within the reader's limits |
| WriteJournals.WriteJournal.Append | pkg/kotlin/src/main/kotlin/dev/bypixel/flamedb/BufferedFlameDB.kt:433-457 | when a record is refused and why; which file an admitted record goes to, when a full file is sealed first and a new one created; it is on disk, the retained bytes grow by its frame, and every file stays within the reader's limits |
| WriteJournals.WriteJournal.BeginScan | pkg/kotlin/src/main/kotlin/dev/bypixel/flamedb/BufferedFlameDB.kt:491-494 | opening the directory stream: the files pending now are those it is sure to return |
| WriteJournals.WriteJournal.OldestPending | pkg/kotlin/src/main/kotlin/dev/bypixel/flamedb/BufferedFlameDB.kt:491-505 | a pending file, and the oldest one when the lookahead was right or is filled by a scan that meets the condition; nothing only if nothing was pending when the scan began |
| WriteJournals.WriteJournal.Take | pkg/kotlin/src/main/kotlin/dev/bypixel/flamedb/BufferedFlameDB.kt:506-512 | claiming or setting aside the oldest pending file |
| WriteJournals.WriteJournal.SettleClaim | pkg/kotlin/src/main/kotlin/dev/bypixel/flamedb/BufferedFlameDB.kt:506-512 | the claimed file moves to its next stage; moving it back to pending empties the lookahead |
| WriteJournals.WriteJournal.RemoveDone | pkg/kotlin/src/main/kotlin/dev/bypixel/flamedb/BufferedFlameDB.kt:513-516 | a confirmed file is removed and its bytes are no longer retained |
| WriteJournals.WriteJournal.Conclude | pkg/kotlin/src/main/kotlin/dev/bypixel/flamedb/BufferedFlameDB.kt:284-333 | which stage each answer of the pool leads to, what counts as sent and what as confirmed, and what the journal then retains |
| WriteJournals.WriteJournal.SendNext | pkg/kotlin/src/main/kotlin/dev/bypixel/flamedb/BufferedFlameDB.kt:260-343 | one round of the send loop extends the run; with a right lookahead, or a scan that meets the condition, it takes the oldest pending file and leaves the lookahead right; which records and which file were sent |
| WriteJournals.TransmitsInCreationOrder | pkg/kotlin/src/main/kotlin/dev/bypixel/flamedb/BufferedFlameDB.kt:260-343 | whatever methods were called on the journal, if its scans met the condition the batches went out in the order in which their files were created |
| JournalProgress.OldestIsConfirmed | pkg/kotlin/src/main/kotlin/dev/bypixel/flamedb/BufferedFlameDB.kt:260-343 | from every such state, with the sender idle, the oldest pending file can be sent next and all its records confirmed |
| WriteJournals.RoundMoves | pkg/kotlin/src/main/kotlin/dev/bypixel/flamedb/BufferedFlameDB.kt:279-333 | a round leaves a batch pending exactly after NOT_SENT, removes it only when every record is confirmed, and touches no other file |
| WriteJournals.AnswerDecides | pkg/kotlin/src/main/kotlin/dev/bypixel/flamedb/BufferedFlameDB.kt:287-333 | done if and only if all records were accepted, partial if and only if distinct error indices account for every other record, pending if and only if it was not sent, and else uncertain |
| WriteJournals.ConfirmedExactly | pkg/kotlin/src/main/kotlin/dev/bypixel/flamedb/BufferedFlameDB.kt:298-311 | the confirmed records are those of a consistent reply that it does not list as errors |
| Frames.Read | pkg/kotlin/src/main/kotlin/dev/bypixel/flamedb/BufferedFlameDB.kt:542-567 | a file over the size limit is refused, and any other is read by the loop |
| Frames.ReadFrames | pkg/kotlin/src/main/kotlin/dev/bypixel/flamedb/BufferedFlameDB.kt:544-566 | the reading loop with its limits |
| Frames.AdmittedFits | pkg/kotlin/src/main/kotlin/dev/bypixel/flamedb/BufferedFlameDB.kt:442-442 | no file within append's limits is too large to be read |
| WriteJournals.FileIsAdmitted | pkg/kotlin/src/main/kotlin/dev/bypixel/flamedb/BufferedFlameDB.kt:433-457 | every file the journal writes is within those limits |
| WriteJournals.FileReadsBack | pkg/kotlin/src/main/kotlin/dev/bypixel/flamedb/BufferedFlameDB.kt:542-567 | the bytes of every file the journal writes read back as its records; with the frame being written cut off, recovery reads the records before it and the send loop refuses the file |
| Frames.FrameReads | pkg/kotlin/src/main/kotlin/dev/bypixel/flamedb/BufferedFlameDB.kt:459-463 | a written frame reads back as its entry, whatever follows it |
| Frames.CutStreamReads | pkg/kotlin/src/main/kotlin/dev/bypixel/flamedb/BufferedFlameDB.kt:542-567 | from any cut of a stream of frames the tolerant reader returns exactly the frames wholly before it; the strict reader fails unless the cut is a frame boundary |
| Frames.FileReads | pkg/kotlin/src/main/kotlin/dev/bypixel/flamedb/BufferedFlameDB.kt:279-283 | a file of whole frames and perhaps part of one more is what the protocol calls its content: recovery reads the whole frames, the send loop refuses a torn file |
| CommandPool.StepKeepsInv | pkg/kotlin/src/main/kotlin/dev/bypixel/flamedb/CommandPool.kt:208-251 | every step of the caller, the handler and the worker keeps the invariant |
| CommandPool.NotSentIsTruthful | pkg/kotlin/src/main/kotlin/dev/bypixel/flamedb/CommandPool.kt:85-98 | after NOT_SENT no byte of the command has reached the socket and none does later, in every interleaving of timeout, cancellation and close with the worker |
| CommandPool.UnknownWasArmed | pkg/kotlin/src/main/kotlin/dev/bypixel/flamedb/CommandPool.kt:323-333 | any other verdict is only given once the request was marked as sent |
| CommandPool.WorkerComesBack | pkg/kotlin/src/main/kotlin/dev/bypixel/flamedb/CommandPool.kt:208-333 | from every reachable state at most eight steps of worker and handler return the connection to the pool; the command then has succeeded with an answer, has its verdict or can be given one |
| CommandPool.BrokenIsUnknown | pkg/kotlin/src/main/kotlin/dev/bypixel/flamedb/CommandPool.kt:323-333 | a connection that breaks after bytes left gives UNKNOWN, so the other verdicts are not all NOT_SENT |
| CommandPool.CancelledIsNotSent | pkg/kotlin/src/main/kotlin/dev/bypixel/flamedb/CommandPool.kt:85-98 | a caller who cancels before the request is armed gets NOT_SENT |
| SendSafety.FailureCoversBytes | pkg/kotlin/src/main/kotlin/dev/bypixel/flamedb/BufferedFlameDB.kt:316-322 | a failed command whose bytes may leave, now or later, is booked as sent |
| SendSafety.PendingAgainNeverLeft | pkg/kotlin/src/main/kotlin/dev/bypixel/flamedb/BufferedFlameDB.kt:321-322 | a batch that is pending again after its round belongs to a command of which no byte ever reaches the socket |
| Replication.StepKeepsLocks | internal/aggregates/leaderboard.go:255-300 | no two executions hold a stripe at once, and an execution past its receipt check still sees the receipts as they are |
| Replication.UnitsDisjoint | internal/query/executor.go:273-275 | executions past their checks work on different operations, because one operation always has the same stripes |
| Replication.EffectAtMostOnce | internal/query/executor.go:266-287 | lost replies, retries, overlapping executions in every interleaving of lock, check, commit and unlock, crashes, lost deletes and recovery never repeat an effect |
| Replication.UnlockedRepeats | internal/query/executor.go:276-287 | without the locks two executions find no receipt and both commit |
| Replication.OnceExactlyIfLocked | internal/query/executor.go:266-346 | no run repeats an effect if and only if receipts are checked with all stripes locked until the commit |
| Replication.SomeSessionMoves | internal/aggregates/leaderboard.go:267-274 | executions that lock their stripes in ascending order cannot wait for each other in a circle: one whose next stripe lies above every held one can go on |
| Replication.NeverDeadlocks | internal/aggregates/leaderboard.go:248-283 | in every run, while an execution is unfinished some execution can take its next step |
| Replication.HeldUntilApplied | internal/cluster/replication.go:107-133 | an operation leaves the outbox only after it took effect on the replica |
| ReplicationOrder.RecoverKeepsInv | internal/cluster/replication.go:163-205 | recovery puts the outbox back in sequence order ahead of everything new |
| ReplicationOrder.CommitKeepsInv | internal/query/executor.go:341-346 | a commit of any execution, stale ones included, keeps per-metric order |
| ReplicationOrder.HarmlessRunsInOrder | internal/cluster/replication.go:349-479 | first effects of every metric follow the primary's order in every run in which shutdown drops only records that have taken effect |
| ReplicationOrder.InOrderUntilStop | internal/cluster/replication.go:349-479 | in particular in every run without a shutdown |
| ReplicationOrder.InOrderMeans | internal/cluster/replication.go:349-479 | in order means that when an operation takes effect all earlier ones of its metric have |
| ReplicationOrder.OtherMetricsPass | internal/cluster/replication.go:301-327 | a later operation of another metric may take effect first |
| ReplicationOrder.RestartDrains | internal/cluster/replication.go:163-205 | after a restart the replica can catch up with everything in the outbox |
| ReplicationOrder.NothingIsLost | internal/cluster/replication.go:163-205 | from every reachable state, whatever was dropped, some continuation makes every operation take effect and empties the outbox |
| ReplicationOrder.Overtaken | internal/cluster/replication.go:301-327 | an operation that is nowhere on the delivery path can be overtaken by a later one of its metric |
| ReplicationOrder.GiveUpExactly | internal/cluster/replication.go:393-479 | a send that gives up leaves the order safe if and only if all of its frame has taken effect |
| ReplicationOrder.DropExactly | internal/cluster/replication.go:321-327 | a record dropped on its way into the queue leaves the order safe if and only if it has taken effect |
| ReplicationOrder.CodeDropsExactly | internal/cluster/replication.go:301-479 | both for the program as it is, in every state reached without an unsafe drop |
| ReplicationOrder.GoesOnAfterSend | internal/cluster/replication.go:357-389 | a worker that goes on after a send gave up can make a later operation take effect first |
| ReplicationOrder.GoesOnAfterDrop | internal/cluster/replication.go:301-327 | so can a fan-out that dropped the earlier record and passed on the later one |
| ReplicationOrder.InOrderExactlyIfHalting | internal/cluster/replication.go:349-479 | a program of this shape keeps the order in all runs, whatever it drops, if and only if neither kind of drop lets later records be sent |
| Replication.FirstFrame | internal/cluster/replication.go:398-407 | the longest prefix within the frame limit, or one command |
| Replication.SplitFrames | internal/cluster/replication.go:393-407 | frames are bounded, maximal, and joined give the batch in order |
| Coalescer.NeverBlocks | internal/analytics/coalescing.go:79-160 | a result channel is written at most once, so writing it never blocks |
| Coalescer.StepKeepsInv | internal/analytics/coalescing.go:79-160 | every submit is in exactly one place at every step, shutdown included |
| Coalescer.ReturnedOnce | internal/analytics/coalescing.go:52-77 | a submit's outcome never changes |
| Coalescer.CancelledWasNeverTouched | internal/analytics/coalescing.go:62-76 | a submit that submit, dispatcher or drain cancelled never reached the database worker, then or later, even when its enqueue raced the final drain |
| CoalescerProgress.StopsExactlyAtRest | internal/analytics/coalescing.go:79-160 | the dispatcher or a worker can take a step unless nothing is under way |
| CoalescerProgress.RestSettles | internal/analytics/coalescing.go:52-77 | then every enqueued submit can return, with a result of its own unless shutdown came first, the others can enqueue or are turned away, and shutdown has ended |
| CoalescerProgress.EverySubmitSettles | internal/analytics/coalescing.go:52-77 | from every reachable state a bounded number of steps of the dispatcher and the workers settles every submit |
| CoalescerProgress.EverySubmitReturns | internal/analytics/coalescing.go:52-77 | from every reachable state every submit, also one that waits for room in the queue, returns after some further steps, whatever shutdown does |
| CoalescerProgress.NoScheduleStarves | internal/analytics/coalescing.go:79-160 | in every run their steps are bounded by what was under way and what was enqueued, and when they can take no more every submit is settled |
| Coalescer.WavesAlwaysFit | internal/analytics/coalescing.go:122-141 | in every run a wave has at most 32 requests, and one of several requests does not exceed the batch size |
| CoalescerOrder.SizesAreLengths | internal/analytics/coalescing.go:122-142 | what the dispatcher counts is the number of items of the batch |
| CoalescerOrder.TransactionsAreBounded | internal/analytics/coalescing.go:122-204 | in every run a shared transaction has at most 32 requests, and one with several requests at most a batch of items |
| CoalescerOrder.TransactionsServeInOrder | internal/analytics/coalescing.go:107-204 | in every run the requests of a transaction are in the order in which they entered the queue |
| CoalescerOrder.TwoShare | internal/analytics/coalescing.go:107-204 | two submits that arrive together run in one transaction |
| CoalescedShares.OffsetFindsOwnItems | internal/analytics/coalescing.go:206-217 | a request's offset points at its own items of the shared batch |
| CoalescedShares.OffsetsDisjoint | internal/analytics/coalescing.go:206-217 | different requests own different positions |
| CoalescedShares.Share | internal/analytics/coalescing.go:208-214 | one request's rejections under its own indices |
| CoalescedShares.Distribute | internal/analytics/coalescing.go:206-217 | every active request gets exactly its own share |
| CoalescedShares.StepKeepsShares | internal/analytics/coalescing.go:162-217 | every step keeps each result of a transaction the share of its own items, and each request in at most one transaction |
| CoalescedShares.ReturnsOwnShare | internal/analytics/coalescing.go:52-77 | in every run a submit that returns from a transaction returns exactly the rejections of its own items in the one transaction that ran them |
| HashRing.OwnersWithout | internal/cluster/ring.go:57-74 | a ring without one node has every metric's owner list without that node, in the same order |
| HashRing.OwnersAreMembers | internal/cluster/ring.go:76-109 | every member appears once in each owner list |
| HashRing.Ring.constructor | internal/cluster/ring.go:23-28 | an empty ring |
| HashRing.Ring.Add | internal/cluster/ring.go:36-55 | inserts the node into every owner list and changes nothing else; a known node changes nothing |
| HashRing.Ring.Remove | internal/cluster/ring.go:57-74 | deletes the node from every owner list and changes nothing else |
| Sequences.SortedSet | internal/cluster/ring.go:66-73 | the remaining keys, ascending |
| HashRing.Search | internal/cluster/ring.go:85-90 | the first key at or after the hash |
| HashRing.Walk | internal/cluster/ring.go:92-107 | the walk with wrap-around lists the first n distinct owners |
| HashRing.Ring.GetN | internal/cluster/ring.go:76-109 | min(n, members) distinct owners, clockwise |
| Series.BucketOf | internal/query/executor.go:567-577 | an instant lies in its bucket, and a later one shares it exactly if it is before the end, for fixed widths and calendar steps |
| Series.BucketsIncrease | internal/query/executor.go:549-616 | every bucket of an ordered history appears once, in increasing order |
| Series.Locate | internal/query/executor.go:567-577 | computed or stepped, the bucket of an instant |
| Series.Gather | internal/query/executor.go:579-589 | the events of one bucket, their count and their left-to-right sum |
| Series.FoldIsBuckets | internal/query/executor.go:549-616 | adding the events one after the other gives for each bucket exactly its events, their number and their left-to-right sum |
| Series.AggregateSeries | internal/query/executor.go:549-616 | one pass gives the points of adding the events one after the other, sums from left to right |
| Series.AddBucket | internal/analytics/read.go:230-247 | the events of one bucket of a chunk join the last point or open a new one |
| Series.Flush | internal/analytics/read.go:227-250 | a chunk continues the last point where a boundary split its bucket |
| Series.StreamSeries | internal/analytics/read.go:213-270 | streaming in chunks of 512 gives exactly the points of the whole history: each bucket that has events once, in increasing order, with the number of its events and their left-to-right sum |
| HeapPage.Down | internal/storage/windowed_lb.go:90-93 | sifting down restores the heap below a position and keeps the entries |
| HeapPage.Heapify | internal/storage/windowed_lb.go:87-88 | the copied candidates become a heap with the worst at the root |
| HeapPage.SelectBest | internal/storage/windowed_lb.go:86-96 | one pass with a heap of k keeps exactly the best k entries |
| HeapPage.SortIsInOrder | internal/storage/windowed_lb.go:97-97 | sorting distinct entries orders them and keeps their number |
| HeapPage.InOrderDescends | internal/storage/windowed_lb.go:97-97 | sorted means descending by value and ascending by entity among equal values |
| HeapPage.SortPermutes | internal/storage/windowed_lb.go:97-97 | sorting keeps every entry as often as it occurs |
| HeapPage.BestIsFront | internal/storage/windowed_lb.go:78-101 | the best k, sorted, are the first k of the sorted board |
| HeapPage.LeaderboardPage | internal/storage/windowed_lb.go:78-101 | on both paths the skipped entries, the page and the rest are together exactly the board's entries, in descending value order with ties by ascending entity; the offset says how many are skipped and the limit how many the page has, and only a full page leaves entries after it |

## Left out

- The query parser, TCP framing, TLS, authentication, configuration, metrics and the SDK wrappers: parsed queries are the input.
- PostgreSQL, Pebble and Redis themselves: a transaction, a batch commit, an ordered iterator and a diff or read script are single steps; the publish script is taken command by command.
- Byte budgets, result limits, time budgets, expiry times and cluster topology refresh: a request they refuse is not answered at all.
- The rebuild's streaming loop: its pipelined writes are separate steps of the protocol in any order, so batching them does not matter.
- Group leaderboards, windowed sums, statistics, metric listing, and the PostgreSQL event reads other than series.
- `WriteEventsWithReceipts`, which leaves stale index rows: stores it wrote are not among the reachable ones.
- JSON and UTF-8 decoding: a partial function that the frame reader is given.
- `attachCancellation` keeps the first diagnostic on a cancellation cause that callers share; the model reads each command's own status.
- The SHA-256 identities of metrics, boards and entities, which are taken as the names themselves.
- Cardinality estimates, the leaderboard cache with its expiry, gossip discovery and rebalancing.
- PebbleBatch.ExecuteWriteBatch: timestamps are assigned beforehand, because missing ones only read the clock; legacy rows that do not decode, which the score lookup skips, are not rows of the model.
- CopyBatch.CopyWrites: one request object submitted twice in a batch, which gets one timestamp, is two items here; the clock reading of each metric is a parameter.
- CoalescerProgress.EverySubmitSettles: a running transaction is one step that ends, because its deadline bounds it; that ready steps are taken is the scheduler's part.
- Coalescer.CancelledWasNeverTouched: a transaction that shutdown aborts while it runs is one that failed, although its callers see a cancellation error too.
- WriteJournals.WriteJournal.Conclude: a confirmed file whose removal fails stays until the next start; here its removal succeeds.
- TagIndex.ReadPage: the tag that BestIndexTag chooses is a parameter, because every tag of the filter gives the same page; rows that do not decode do not occur in the reachable stores.
- Timestamps.AllocateBatch: the clock readings and the occupied positions are parameters.
- Journal.KeptUntilConfirmed: covers crashes of the process; a crash of the machine can lose frames that were not yet synced.
- ReplicationOrder.CodeDropsExactly: one replica; a write batch that the replica refuses although the primary accepted it is an aborted session, so item rejections inside one all-write batch are not covered.
- HashRing.Ring.Add: assumes that no two virtual nodes of the members and of the node itself have the same hash; `Remove` assumes the same.
- Series.StreamSeries: the final division for averages and the finiteness test on the response are applied point by point afterwards and are not modelled.
- HeapPage.LeaderboardPage: values are not NaN, and an offset is not negative, which the parser ensures.
- CommandPool.NotSentIsTruthful: bytes of the authentication handshake are not bytes of the command.
