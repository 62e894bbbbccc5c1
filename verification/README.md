# Spottr: a verified model of ingest, withdrawal and the code around them

Spottr indexes Spotnet posts ("spots") from a Usenet group. Three workers and a maintenance pass
share one database: the **forward sync** reads new articles, the **backfill** walks down the history,
and the **withdrawal sweep** applies old withdrawals once. Any of them can crash, lose its connection
or be restarted between two database steps, and the code relies on doing work again being harmless.
This project models that protocol, step by transaction, and proves what it keeps; and it models the
connection pool, the article codecs, the category codes and their SQL twin, signature checking, the
rate limiter, paging and cache eviction.

`dafny verify dfyconfig.toml` checks everything.

## How the model is laid out

| files | what they hold |
|---|---|
| `Store`, `StoreInvariants`, `Statements` | the tables, one `Step` per statement or transaction (triggers included), what every run of steps keeps, and what each statement does to each column |
| `Database` | the same statements as methods that change fields; each is proved to be its step |
| `Moderation`, `Outcomes`, `ApplyModeration` | one batch of withdrawals: the loop with its counters, the set it must equal, and the outcome of every command said without the loop |
| `Chunk`, `ChunkOwners`, `ChunkDelete`, `ChunkInserts` | running a chunk again after any interruption: what comes out the same, and exactly when; the last with inserts that fail too |
| `Server`, `SyncState`, `Forward`, `Backfill`, `Sweep` | the newsgroup, the checkpoints, and the three workers |
| `HiddenRows`, `Listing` | what the workers never take back, and exactly when a spot is listed |
| `Pool`, `PoolSockets`, `PoolObjects` | the connection pool as a concurrent state machine, the sockets its limit covers, and its code on a slice and a semaphore |
| `ArticleCodec` | byte escapes, dot-stuffed lines, the bounded reader |
| `SubCats`, `Kinds` | subcategory codes: the byte loop, the columns, `KindOf` and its SQL form |
| `Sets`, `Orders` | set sizes, and what a loop with a filter leaves |
| `Signing`, `Text`, `Utf8`, `RateLimiter`, `Admission`, `Cleaning`, `Paging`, `Cache` | PKCS#1 v1.5, Windows-1252 and its repair, UTF-8, the token bucket, what it admits and its cleaner, keyset paging, eviction |

The server is a fixed map from article number to article; what may fail is the connection. "What the
headers of a spot say about its owner" is a function of the message-id, and any lookup on a connection
may fail. A listing ("visible") is what `SearchSpots` returns: rows with `moderated = 0`.

## Where the code does less than it says

These claims are false of the code; each has a lemma with the failing input and one with the exact
condition under which it holds.

* A chunk that is read again does not always end with the same stored owners, even in mark mode: after
  a failed lookup a moderator's command withdraws its target unread, and the next run skips the row
  (`ChunkOwners.OvertakenStaysUnread`, `ChunkOwners.SameOwnersExactlyWhen`).
* In delete mode the row goes in one statement and the ring entry comes in another. After a crash in
  between, the ring can lose an entry for good, and a spot that the chunk offers again without its
  stored owner or date can come back (`ChunkDelete.LostEntry`, `ChunkDelete.Resurrected`,
  `ChunkDelete.SameRingExactlyWhen`, `ChunkDelete.SameListingExactlyWhen`).
* A failed insert is only logged: the forward watermark and the backfill's checkpoint move on over the
  articles it should have stored (`ForwardSync.FailedInsertLosesSpots`,
  `Backfilling.FailedInsertPassesRange`). Exactly: a spot that nobody may withdraw is listed if and only
  if an insert with its article succeeded, whatever else failed
  (`Listing.UnwithdrawnListedExactlyWhenGiven`); the backfill's own count of that is
  `Backfilling.StoredExactlyWhen`.
* Whether a withdrawal is applied depends on what was stored when it was read. Numbered before its spot,
  it is applied or not depending on where a pass stopped (`ForwardSync.AppliedInOneChunk`,
  `ForwardSync.LostBetweenChunks`); and a spot that the backfill stores after the sweep has passed its
  withdrawal stays listed (`Listing.BackfilledTooLate`, `Listing.BackfilledInTime`). Exactly, after every
  run: a spot is listed if and only if some insert offered it, no mark of it was committed before, and no
  mark or deletion of it has been committed since (`Listing.ListedExactlyWhen`). Only a batch that met the
  stored spot with a withdrawal that may withdraw it commits one (`Listing.WithdrawnIsMet`), and one that
  met it and runs to its end always does (`Listing.MetStaysUnlisted`).
* The ceiling of `readDotBinaryBody` is one byte lower than its name: a text of exactly the limit is
  refused, because every line is charged a newline (`ArticleCodec.BinaryRoundTrip`). A body cut short
  anywhere, inside a line too, is refused exactly when the connection breaks; when the stream merely
  ends, a beginning of the text is returned as if it were complete (`ArticleCodec.CutAnywhere`).
* The pool's limit does not cover sockets that the reaper is still closing. It covers every open socket
  throughout a run if and only if each dial is started while fewer sockets than the limit are open, those
  being closed included; the code checks only that its stack is empty
  (`PoolSockets.LimitCoversAllExactlyWhen`). While the pool is in use one goroutine reaps, and then twice
  the limit is never exceeded and, for every limit, attained (`PoolSockets.TwiceTheLimit`,
  `PoolSockets.TwiceTheLimitIsAttained`).
* The rate limiter's cleanup goes unnoticed if and only if `burst <= 300 * rps` and no more than 50001
  keys call (`Cleaning.UnobservableExactlyWhen`). The failing inputs are a burst spent twice
  (`Cleaning.CleaningObservable`) and a full map that lets every new key through until it is cleaned
  (`Cleaning.FullMapTells`).
* `toUTF8` is not injective, because it keeps text that is valid already (`Text8.ToUtf8Collides`,
  `Text8.ToUtf8CollidesExactlyWhen`); `Windows1252ToUTF8` is.
* Following `next_before` misses spots that share the timestamp of a page's last spot
  (`Paging.PagingListsAllButTies`). For any two spots of one timestamp there is a page size and a walk that
  misses one of them (`Paging.TiesAreMissed`); every walk lists every spot if and only if no two share a
  timestamp (`Paging.ListsAllExactlyWhen`).

A cursor of zero or less starts the listing over (`Paging.NonPositiveCursorRestarts`), so paging ends if
and only if every stored timestamp is positive (`Paging.WalkEndsExactlyWhen`). That is no failure: the
parser refuses every date before 2000 (`Paging.ResolvePostedAt`).

## Model

| member | source | states |
|---|---|---|
| StoreInvariants.IndexAlwaysRebuilt | internal/db/schema.go:43-62 | over any run of inserts, deletes, enrichment, text repairs, marks, owner updates and pruning, the full-text index is the one a rebuild from the current rows would give, and row ids stay distinct |
| StoreInvariants.StepWellFormed | internal/db/schema.go:144-150 | each single statement keeps the index in step, although the update trigger fires for four columns only |
| StoreInvariants.RingAlwaysHides | internal/db/db.go:185-192 | in every interleaving of all steps, an id in the moderated ring never has a row that is not moderated |
| StoreInvariants.RingKeeps | internal/db/maintenance.go:351-359 | only a prune whose cutoff has passed the entry's stamp removes a ring entry, and a second mark does not renew the stamp |
| StoreInvariants.MarkedStaysHidden | internal/db/maintenance.go:219-258 | from the mark's commit until pruning reaches the entry, no listing contains the spot, whatever the other workers do |
| Statements.EnrichmentSets | internal/db/db.go:518-527 | the enrichment writes each of its six columns into the row with that number and nothing else anywhere |
| Statements.RepairSets | internal/db/migrations.go:207-216 | the text repair writes title, tag and poster of one row and nothing else |
| Statements.OwnerSets | internal/db/maintenance.go:296-301 | the owner update writes owner and verified of one row and nothing else |
| Statements.MarkSets | internal/db/maintenance.go:219-258 | the mark sets the flag of the rows there are and a ring entry for every id, an older stamp being kept |
| Statements.DeleteTakes | internal/db/maintenance.go:319-346 | a delete takes exactly the rows it names and no ring entry |
| Statements.OlderTakes | internal/db/maintenance.go:47-51 | a retention statement takes, of its batch, exactly the rows posted before the cutoff |
| Statements.BySpotterTakes | internal/db/maintenance.go:186-213 | exactly the rows of the spotters named go |
| Statements.PruneTakes | internal/db/maintenance.go:351-359 | pruning takes exactly the entries stamped before the cutoff |
| Statements.InsertSets | internal/db/db.go:173-213 | a spot whose id is in neither table gets a row with a new number and its own columns |
| Statements.PostingTells | internal/db/schema.go:43-62 | what is indexed of a row tells its number, title, tag, poster and description |
| Statements.BatchesAreSmall | internal/db/maintenance.go:319-346 | the ids are deleted in as few statements as 400 ids each allow |
| Databases.Database.InsertSpots | internal/db/db.go:173-213 | the insert-or-ignore loop with its trigger is the step on the tables; the count is the number of rows added |
| Databases.Database.MarkModerated | internal/db/maintenance.go:219-258 | the transaction records each id and flags its row; the count is the ids that had a row |
| Databases.Database.DeleteSpotsByMessageID | internal/db/maintenance.go:319-346 | batches of 400 ids, one statement each, in order; the count is the rows removed |
| Databases.Database.DisposeTarget | internal/db/maintenance.go:276-292 | owner, date and flag of the row, or not found |
| Databases.Database.SetSpotOwner | internal/db/maintenance.go:296-301 | the owner update touches one row and not the index |
| Databases.Database.UpdateSpotEnrichment | internal/db/db.go:518-527 | the enrichment of a row id, with the trigger's delete and insert, is its step |
| Databases.Database.DeleteSpotsOlderThan | internal/db/maintenance.go:26-60 | the chunked loop ends, removes exactly the rows posted before the cutoff and leaves every other row as it was |
| Databases.Database.PruneModeratedRing | internal/db/maintenance.go:351-359 | exactly the entries stamped before the cutoff go |
| ApplyingModeration.LookupOwner | internal/sync/moderation.go:123-139 | reads the headers, stores the owner they carry, and fails only when reading fails |
| ApplyingModeration.VisitCommand | internal/sync/moderation.go:51-102 | the loop body with its `continue` paths, counters and `queued` set is one visit of the scan |
| ApplyingModeration.ScanBatch | internal/sync/moderation.go:48-102 | the whole loop leaves the tables, targets, counters and lookup error of the scan |
| ApplyingModeration.Withdraw | internal/sync/moderation.go:104-117 | mark, or delete and then record; as many rows as targets are affected |
| ApplyingModeration.ApplyModeration | internal/sync/moderation.go:42-119 | one call is its sequence of writes; on any connection, unverified counts the unverified commands and noTarget the verified ones whose target has no row; when no lookup fails, the other counters, the lookups made and the spots applied are those that the tables before the batch, the commands and the answers give |
| Moderation.QueuesExactlyTheTargets | internal/sync/moderation.go:48-102 | without a failed lookup the loop queues, once each, exactly the indexed, unmoderated targets of a verified command that is a moderator's or is in the window and signed by the owner; with one, a part of them |
| Moderation.OrderAndRepeatsIrrelevant | internal/sync/moderation.go:56-58 | two batches with the same commands, in any order and multiplicity, queue the same targets |
| Moderation.EveryCommandAccounted | internal/sync/moderation.go:19-24 | every command ends in exactly one outcome; queued ones match the targets one to one |
| Outcomes.OutcomesAre | internal/sync/moderation.go:48-102 | every command ends in the outcome that the tables before the batch, the earlier commands and the answers give it, 432000 seconds being the window; on a failing connection the labels unverified, no target and already moderated still hold |
| Outcomes.LookupsAre | internal/sync/moderation.go:83-90 | headers are read for exactly the personal withdrawals in time of spots without an owner, once per spot that names one |
| Outcomes.LookupsStop | internal/sync/moderation.go:83-90 | the first lookup that fails is the last one made, and the batch reports a failure if and only if there was one |
| Outcomes.OwnersCommand | internal/spotnet/moderation.go:131-138 | an owner's withdrawal of a listed spot is applied if and only if it comes between 0 and 432000 seconds after the spot |
| Outcomes.TargetsAre | internal/sync/moderation.go:48-102 | the set withdrawn, in numbers |
| Chunk.RerunGivesTheSameListing | internal/sync/syncer.go:193-223 | running a chunk again after any number of attempts cut short anywhere, lookups failing at will, ends with the listing of one uninterrupted run; in delete mode under the condition below |
| Chunk.RerunGivesTheSameMarks | internal/sync/syncer.go:204-215 | in mark mode the rows, the ring entries and the withdrawn spots come out the same too |
| ChunkInserts.RerunAfterFailedInserts | internal/sync/syncer.go:193-223 | with attempts whose inserts failed among them, the rerun still ends with the spots of one uninterrupted listing; in delete mode under the same condition |
| ChunkInserts.MarksAfterFailedInserts | internal/sync/syncer.go:193-215 | and in mark mode with the same rows, ring entries and withdrawn spots |
| ChunkInserts.SameOwnersAlsoExactlyWhen | internal/sync/moderation.go:83-90 | with failed inserts too, all rows, owners and row numbers included, come out the same in mark mode if and only if no spot can be overtaken, the condition below |
| ChunkInserts.SameShownExactlyWhen | internal/sync/moderation.go:107-110 | and in delete mode the listed spots do if and only if what the chunk withdraws and offers again is also withdrawn in the form in which it is offered |
| ChunkInserts.SameRecordedExactlyWhen | internal/sync/moderation.go:107-110 | and the ring if and only if, besides, every withdrawn spot is among the chunk's own |
| ChunkOwners.SameOwnersExactlyWhen | internal/sync/moderation.go:83-90 | in mark mode all rows, owners included, come out the same after every sequence of interruptions if and only if no spot that a personal withdrawal asks headers for is also named by a moderator's command |
| ChunkOwners.OvertakenStaysUnread | internal/sync/moderation.go:67-76 | the failing input: such a spot is withdrawn unread and stays so |
| ChunkOwners.OvertakenIsReadOnce | internal/sync/moderation.go:83-90 | the uninterrupted run stores its owner |
| ChunkDelete.SameListingExactlyWhen | internal/sync/moderation.go:107-110 | in delete mode the listing comes out the same after every sequence of interruptions if and only if what the chunk withdraws and offers again is also withdrawn in the form in which it is offered |
| ChunkDelete.Resurrected | internal/sync/moderation.go:107-110 | the failing input: a crash between deletion and record, then the spot is back |
| ChunkDelete.SameRingExactlyWhen | internal/sync/moderation.go:107-110 | the ring comes out the same if and only if, besides, every withdrawn spot is among the chunk's own spots |
| ChunkDelete.LostEntry | internal/sync/moderation.go:107-110 | the failing input: the entry of a target from an earlier chunk is lost |
| ForwardSync.Sort | internal/sync/syncer.go:152-190 | the loop over an overview keeps, in order, exactly the posts with a valid message-id, in strict mode those with a verified header, and exactly the verified withdrawals unless moderation is off |
| ForwardSync.ProcessChunk | internal/sync/syncer.go:192-215 | insert, then withdraw: the chunk's writes, an insert that fails being passed over, and whether a lookup failed |
| ForwardSync.SyncGroup | internal/sync/syncer.go:91-228 | one pass, with lookback on the first run, its early exits and its checkpoints, is the run of events that the chunks' conditions bring about, up to the end of the pass; when nothing fails, every article it set out to read is at or below the watermark |
| ForwardSync.PassReads | internal/sync/syncer.go:111-129 | a pass reads exactly the articles above the watermark, or on the first run those of the group from `lookback` before the last |
| ForwardSync.ChunkReads | internal/sync/syncer.go:131-140 | a chunk is the next 5000 article numbers or what is left |
| ForwardSync.WatermarkIsAnArticle | internal/sync/syncer.go:217-223 | over every run the watermark is zero or the number of an article |
| ForwardSync.WatermarkNeverDecreases | internal/sync/syncer.go:217-223 | over any run of passes with failures, crashes and restarts, with sweep and backfill between the chunks, the watermark never decreases |
| ForwardSync.EveryArticleProcessed | internal/sync/syncer.go:131-224 | when no insert fails, every accepted article from the start to the watermark is listed with its date unless some withdrawal of the group may withdraw it, and is not listed if such a withdrawal follows it up to the watermark |
| ForwardSync.ListedExactlyUnlessWithdrawn | internal/sync/syncer.go:131-224 | when a spot's withdrawals follow it, it is listed if and only if none of them may withdraw it |
| Listing.ListedExactlyWhen | internal/sync/syncer.go:152-223 | after every run of the three workers, with failed inserts and lookups, crashes and restarts anywhere, an accepted article, old or new, is listed if and only if some insert offered it, no mark of it was committed before and neither a mark nor a deletion since |
| Listing.WithdrawnIsMet | internal/sync/moderation.go:48-117 | a mark or deletion is committed only by a batch with a withdrawal that may withdraw the spot, read while the spot has a row or is inserted by the same chunk |
| Listing.MetStaysUnlisted | internal/sync/moderation.go:48-117 | such a batch, run to its end without a failed lookup, leaves the spot in the ring and unlisted for good, whatever the workers do later |
| Listing.ListedExactlyWhenNeverMet | internal/sync/syncer.go:152-223 | in terms of what was read: after any run in which no batch met the spot, or one that ran to its end, it is listed if and only if it was inserted and not met |
| Listing.PassedListedExactlyWhenNeverMet | internal/sync/syncer.go:131-224 | when no insert failed, an article from the start to the watermark was inserted, so there it is listed if and only if it was not met |
| Listing.UnwithdrawnListedExactlyWhenGiven | internal/sync/syncer.go:193-202 | a spot that no withdrawal may withdraw is listed, after every run, if and only if some insert that offered it succeeded |
| Listing.BackfilledIsListed | internal/sync/backfill.go:131-163 | a spot that the backfill stores is listed then, whatever withdrawals were read before |
| Listing.BackfilledTooLate | internal/sync/backfill.go:131-163 | the failing input: a spot stored by the backfill after the forward sync and any sweep have read its withdrawal is listed |
| Listing.BackfilledInTime | internal/sync/disposesweep.go:107-155 | stored before a sweep that reads its withdrawal and runs to its end, it is not |
| Listing.OnlyValidStored | internal/sync/syncer.go:152-190 | after every run each row is that of an article with a valid message-id, in strict mode with a verified header |
| Listing.EveryValidOffered | internal/sync/syncer.go:152-202 | and every insert that succeeds offers all such articles of its range |
| HiddenRows.EveryRunHides | internal/db/maintenance.go:219-258 | over every run of the three workers, failed inserts and crashes included, the rows that are hidden are exactly those whose id is in the ring |
| ForwardSync.AppliedInOneChunk | internal/sync/syncer.go:131-215 | a withdrawal numbered before its spot is applied when one pass reads both |
| ForwardSync.LostBetweenChunks | internal/sync/syncer.go:131-223 | it is not when a pass stops between the two: the spot stays listed |
| ForwardSync.FailedInsertLosesSpots | internal/sync/syncer.go:193-223 | the failing input: an insert fails, and the watermark passes the spot that was not stored |
| Backfilling.Ingest | internal/sync/backfill.go:131-163 | the filter of the forward sync: what is stored are exactly the posts with a valid message-id, in strict mode with a verified header; withdrawals are counted and dropped; a failed insert stores nothing and counts none |
| Backfilling.BackfillChunk | internal/sync/backfill.go:76-127 | one attempt, with its ways to be done or to fail; it is done exactly when the first article is reached, and a chunk that goes through, its insert failed or not, lowers the watermark |
| Backfilling.BackfillGroup | internal/sync/backfill.go:51-72 | the loop ends (the watermark's distance to the first article shrinks), is the attempts that the conditions bring about up to the first failure or a cancellation, and reaches the first article when nothing fails |
| Backfilling.BackfillCoversHistory | internal/sync/backfill.go:98-116 | from a non-zero watermark the checkpointed ranges lie end to end below it, none over 5000 numbers; every request asks for the range that is checkpointed next, so it is repeated only until then; what the ranges offered is stored when no insert fails; and a finished walk covered exactly [First, W - 1] |
| Backfilling.FailedInsertPassesRange | internal/sync/backfill.go:106-116 | the failing input: the insert fails and the range is checkpointed all the same |
| Backfilling.StoredExactlyWhen | internal/sync/backfill.go:98-116 | over any attempts, an accepted article has a row if and only if it had one, or the ring does not bar it and an attempt whose insert succeeded asked for a range with it |
| Backfilling.OnlyValidAdded | internal/sync/backfill.go:131-163 | over any attempts every row added is such a post of the group |
| Backfilling.RangeIs | internal/sync/backfill.go:98-103 | a range is the 5000 numbers below the watermark, or what is left of the group |
| Sweep.OldestArticle | internal/db/db.go:445-449 | the least article number of the table, 0 when it is empty |
| Sweep.SweepChunk | internal/sync/disposesweep.go:85-156 | one attempt at the next chunk, or done; it fails exactly when it does not checkpoint |
| Sweep.SweepGroup | internal/sync/disposesweep.go:41-83 | the retry loop ends; its attempts are those the conditions bring about; when it reports done the watermark is reached or there is nothing to sweep, otherwise it was cancelled or its last ten attempts failed, and it never goes on after ten failures in a row; when nothing fails it reports done |
| Sweep.SweepEqualsOnePass | internal/sync/disposesweep.go:107-155 | in mark mode a sweep that has reached the forward watermark, whatever attempts, failed lookups and restarts it took and however the watermark rose meanwhile, leaves the moderated spots, ring and listing of one application of all withdrawals in [oldest, end], and its ranges tile that interval |
| Sweep.RangesTile | internal/sync/disposesweep.go:107-111 | at every point the checkpointed ranges tile what was passed, without gap or overlap and none over 5000 numbers, with the forward watermark read anew by each attempt |
| Sweep.ChunkIs | internal/sync/disposesweep.go:107-111 | a chunk is the next 5000 numbers, or what is left up to the watermark |
| Pools.CeilingHolds | internal/nntp/pool.go:94-126 | in every interleaving of Get, Release, MarkBroken, Reap and Close, leased, dialling and idle connections together never exceed the limit, which is at least one, and the tokens are those of the goroutines inside |
| Pools.EachInOnePlace | internal/nntp/pool.go:64-160 | every connection ever dialled is in exactly one place: one goroutine, one idle slot, the reaper, or closed |
| Pools.BrokenNeverReturns | internal/nntp/pool.go:71-77 | a connection released as broken is never idle or leased again, however the run goes on |
| Pools.NothingLeaks | internal/nntp/pool.go:64-83 | with no goroutine inside, all tokens are back and every connection is idle, with the reaper, or closed |
| PoolSockets.LimitCoversAllExactlyWhen | internal/nntp/pool.go:102-120 | leased, dialling, idle and still-closing sockets together stay within the limit throughout a run if and only if each dial of the run starts below it |
| PoolSockets.CoveredWhileReaperRests | internal/nntp/pool.go:102-120 | so they do when no dial starts while the reaper is closing sockets |
| PoolSockets.TwiceTheLimit | internal/nntp/pool.go:129-160 | in any run with a single reaper there are at most twice the limit |
| PoolSockets.TwiceTheLimitIsAttained | internal/nntp/pool.go:143-160 | for every limit there is such a run with exactly twice the limit: lease all, return all, reap, lease all again |
| PoolObjects.Lease.Release | internal/nntp/pool.go:64-83 | gives the connection back on top of the stack, or closes a broken one; a second call changes nothing |
| PoolObjects.Pool.Get | internal/nntp/pool.go:95-126 | pops the connections on top of the stack that have been idle for over 120 seconds and leases the first that has not; when none is left it leases the dialled connection, or fails and gives the token back; each call is a run of the state machine |
| PoolObjects.Pool.Pop | internal/nntp/pool.go:102-115 | the loop stops at the topmost fresh connection, having closed exactly the stale ones above it |
| PoolObjects.TopLeasedExactlyWhen | internal/nntp/pool.go:102-118 | the connection released last is leased again if and only if it has been idle for at most 120 seconds |
| PoolObjects.Pool.Reap | internal/nntp/pool.go:143-160 | compacting the slice in its own backing array keeps, in order, exactly the connections idle for at most 120 seconds when each is looked at, and returns exactly the others |
| PoolObjects.Pool.Push | internal/nntp/pool.go:79-81 | append on the slice, growing the array when it is full |
| PoolObjects.Pool.Close | internal/nntp/pool.go:129-138 | empties the stack and hands back what it held |
| ArticleCodec.FourPassesAreOne | internal/spotnet/parser.go:413-421 | on every byte string the four replacement passes equal one left-to-right decoding pass |
| ArticleCodec.UnescapeEscaped | internal/spotnet/parser.go:413-421 | unescaping undoes the escaping of LF, CR, NUL and the equals sign, for every payload |
| ArticleCodec.EscapesMean | internal/spotnet/parser.go:413-421 | =C, =B, =A and =D are LF, CR, NUL and the equals sign, byte for byte, and nothing else is an escape |
| ArticleCodec.DotsMean | internal/nntp/client.go:358-384 | one dot ends the block, the first of two leading dots is dropped, and a line is charged a byte more than it adds |
| ArticleCodec.CeilingIs | internal/nntp/client.go:351-355 | the ceiling is the configured one or 32 MiB |
| ArticleCodec.BinaryRoundTrip | internal/nntp/client.go:351-395 | any payload, escaped, split anywhere into lines, stuffed and sent, comes back whole exactly when its text is shorter than the ceiling, and nothing after the final dot is consumed |
| ArticleCodec.TextRoundTrip | internal/nntp/client.go:343-386 | a text body comes back line for line exactly when it fits the ceiling |
| ArticleCodec.CutAnywhere | internal/nntp/client.go:356-384 | a dot block cut before any of its bytes is an error exactly when the connection breaks; when the stream ends, what is returned is a beginning of the text |
| ArticleCodec.CutShort | internal/nntp/client.go:351-395 | the same for the block of any payload under the ceiling: a beginning of its escaped text, or an error exactly when the connection breaks |
| ArticleCodec.Client.ReadDot | internal/nntp/client.go:351-386 | the reading loop is the specification above, including what it leaves unread |
| SubCats.ParseSubCats | internal/spotnet/parser.go:255-283 | the byte loop fills each column with exactly the codes of its letters, read off the wire by an independent grammar, in wire order, as canonical decimals each followed by a bar; overlong numbers clamp |
| SubCats.PaddingEndsTheLast | internal/spotnet/parser.go:121-122 | with the padding every code of the string is read, the last one too |
| SubCats.LostWithoutPadding | internal/spotnet/parser.go:255-283 | without it the code in which a string ends is lost, and nothing else |
| SubCats.ColumnReparses | internal/spotnet/parser.go:255-283 | parsing a column again returns it in its own column and leaves the others empty |
| SubCats.JoinedReparses | internal/spotnet/parser.go:121-122 | parsing the four columns joined returns the same four columns |
| SubCats.AtoiIs | internal/spotnet/parser.go:263-264 | a number is read in decimal, leading zeros ignored, up to the largest 64-bit one |
| SubCats.FiveLetters | internal/spotnet/parser.go:256-262 | a, b, c, d and z begin a code and no other letter does |
| Kinds.KindOf | internal/db/kind.go:52-101 | the loops pool the codes of three columns, then the two switches decide; on the columns of a wire string the kind is that of the codes on the wire |
| Kinds.KindIs | internal/db/kind.go:74-101 | every branch of both switches, in terms of the letters and numbers on the wire |
| Kinds.CodeRangeOf | internal/db/kind.go:36-44 | every code of every pair of bounds, in order |
| Kinds.CodeRangeIs | internal/db/kind.go:36-44 | a range names each number from its lower to its upper bound, in order |
| Kinds.InstrFindsParts | internal/db/kind.go:103-109 | "bar code bar" occurs in "bar column" exactly when the code is one of the column's parts |
| Kinds.KindAgreesWithSql | internal/db/kind.go:52-133 | for every wire string and category, KindOf and the SQL CASE agree on the parsed columns |
| Kinds.WithoutBarTheyDiffer | internal/db/kind.go:103-109 | on a column without its closing bar they do not agree |
| Kinds.InOtherColumnTheyDiffer | internal/db/kind.go:46-63 | nor on a code in another letter's column |
| Kinds.QueryFindsCode | internal/db/db.go:251-258 | a query for a valid code lists exactly the spots whose wire form carries it; a code with a leading zero finds nothing |
| Kinds.WhereCodesGo | internal/spotnet/parser.go:266-276 | a code is stored in the column of its letter, d and z sharing one, and in no other |
| Signing.VerifyPkcs1v15Sha1 | internal/spotnet/signing.go:122-142 | the check accepts exactly when the signature has length k, k leaves eight bytes of padding, the exponent is at least 2, s < n, and s^e mod n is the EMSA-PKCS1-v1_5 encoding |
| Signing.PrefixIsDer | internal/spotnet/signing.go:115 | the prefix with a 20-byte digest is the DER encoding of SEQUENCE { SEQUENCE { OID 1.3.14.3.2.26, NULL }, OCTET STRING } |
| Signing.AcceptedExactlyWhen | internal/spotnet/signing.go:122-142 | for a SHA-1 digest: the signature is as long as the modulus and below it, the exponent at least 2, and its power is 00 01, at least eight bytes ff, 00 and that encoding |
| Signing.EncodingBelowModulus | internal/spotnet/signing.go:123-141 | the encoding is below the modulus for every digest |
| Signing.EncodingTellsDigest | internal/spotnet/signing.go:134-140 | equal encodings have equal digests, of any lengths |
| Signing.OneDigestPerSignature | internal/spotnet/signing.go:122-142 | a signature is accepted for at most one digest |
| Signing.SignedIsAccepted | internal/spotnet/signing.go:122-142 | with any key pair for which (m^d)^e = m mod n, what is signed is accepted, and for that digest only |
| Signing.RsaPub | internal/spotnet/signing.go:47-67 | a key is refused exactly when a part is empty or the exponent exceeds 31 bits; the number keeps every byte of the modulus |
| Text8.Windows1252ToUTF8 | internal/spotnet/text.go:21-35 | the builder loop is the decoding, byte by byte |
| Text8.DecodedIsValid | internal/spotnet/text.go:21-35 | the result is always valid UTF-8 by the grammar of section 4 of RFC 3629 |
| Text8.DecodedTellsBytes | internal/spotnet/text.go:13-35 | distinct byte strings decode to distinct text |
| Utf8.DecodedIsText | internal/spotnet/text.go:21-35 | the result is the UTF-8 text of the code points that the bytes stand for |
| Utf8.CharacterTells | internal/spotnet/text.go:21-35 | the payload bits of a character are its code point |
| Utf8.ValidExactlyWhen | internal/db/migrations.go:223 | what is taken for valid are exactly the encodings of sequences of Unicode scalar values |
| Utf8.QuotationMarks | internal/spotnet/text.go:13-19 | the code points of the quotation marks of Windows-1252 |
| Utf8.Letters | internal/spotnet/text.go:13-19 | of its letters and accents |
| Utf8.Signs | internal/spotnet/text.go:13-19 | of its other signs |
| Utf8.Kept | internal/spotnet/text.go:13-35 | all other bytes stand for themselves |
| Text8.ToUTF8 | internal/db/migrations.go:222-244 | with its own table and loop, toUTF8 keeps valid text and decodes anything else as Windows1252ToUTF8 does |
| Text8.ToUtf8Settles | internal/db/migrations.go:222-244 | toUTF8 always yields valid UTF-8, and a second pass changes nothing |
| Text8.ToUtf8Collides | internal/db/migrations.go:222-225 | the failing input: an accented e in either encoding gets the same text |
| Text8.ToUtf8CollidesExactlyWhen | internal/db/migrations.go:222-225 | two strings get the same text exactly when they are equal or one is valid and is the decoding of the other |
| Text8.RepairIsIdempotent | internal/db/migrations.go:181-218 | running the repair twice is running it once, and nothing is left to repair |
| Text8.SpotTexts.RedecodeEightBitText | internal/db/migrations.go:181-218 | collecting the fixes and then applying them repairs every row and leaves valid rows alone |
| Text8.Schema.Migrate | internal/db/migrations.go:247-298 | however often it is started and cut short, each migration commits once, in order; a start that fails at one leaves exactly the ones before it |
| RateLimiting.RateLimiter.Allow | internal/api/middleware.go:174-203 | refill, cap, and spend, or create, or fail open on a full map |
| RateLimiting.RateLimiter.Cleanup | internal/api/middleware.go:205-216 | removes exactly the buckets idle for more than five minutes |
| RateLimiting.AdmissionBound | internal/api/middleware.go:192-202 | for a key that keeps its bucket, the requests let through from call i to an admitted call j are at most burst + rps * (t_j - t_i), also when times reach the lock out of order |
| Admission.AdmittedExactlyWhen | internal/api/middleware.go:174-203 | and nothing within that bound is held back: a request is let through if and only if, with it, the requests since each earlier call stay within burst + rps * time |
| Admission.FirstIsAdmitted | internal/api/middleware.go:181-190 | a request of a key without a bucket is let through |
| RateLimiting.MapIsBounded | internal/api/middleware.go:181-189 | the map never holds more than 50001 keys |
| Cleaning.CleaningUnobservable | internal/api/middleware.go:205-216 | in ordered time, with burst <= 300 * rps and no more than 50001 different keys, the answers with and without the cleaner are the same |
| Cleaning.CleaningObservable | internal/api/middleware.go:205-216 | with burst > 300 * rps there is an ordered run of one key whose answers differ |
| Cleaning.FullMapTells | internal/api/middleware.go:181-216 | for every rate and burst, 50001 keys, a cleanup and then one new key asking once more than the burst get answers that differ from those without the cleanup |
| Cleaning.UnobservableExactlyWhen | internal/api/middleware.go:174-216 | among ordered runs of up to n keys no answer tells the cleaner if and only if burst <= 300 * rps and n <= 50001 |
| Paging.ClampPaging | internal/api/router.go:325-339 | the limit is between 1 and the maximum, 25 when none is given, the offset between 0 and its maximum; sane values pass unchanged |
| Paging.PagingListsAllButTies | internal/api/router.go:355-417 | following next_before to an empty page ends, repeats nothing, is newest first, and leaves out exactly the spots that share the timestamp of a page's last spot and are not on that page |
| Paging.WalkExists | internal/api/router.go:355-417 | from any cursor there is such a walk when the timestamps are positive |
| Paging.WalkEndsExactlyWhen | internal/api/router.go:366-370 | the first page leads to an empty one if and only if every timestamp is positive |
| Paging.ResolvePostedAt | internal/spotnet/parser.go:188-205 | the stamp when it lies after 2000 and before two days ahead, else the Date header when that does, else the spot is refused; a date given is positive |
| Paging.DistinctTimesListAll | internal/db/db.go:294-317 | with distinct timestamps every visible match is listed |
| Paging.TiesAreMissed | internal/api/router.go:366-370 | the failing input: for any two matches of one timestamp, a walk by pages of one that misses one of the two |
| Paging.ListsAllExactlyWhen | internal/api/router.go:355-417 | every walk with every page size lists every match if and only if no two matches share a timestamp |
| Paging.NonPositiveCursorRestarts | internal/api/router.go:366-370 | a cursor of zero or less is the first page again |
| Caching.Caches.EvictCacheTo | internal/db/maintenance.go:86-126 | eviction ends with the caches at or under the limit, touches NZBs only once no image is left, evicts in each table only entries fetched no later than every kept one, 200 at a time or the rest, and stops at the first batch that fits: with the entries of its last batch still there the caches were over the limit |

## Left out

- Chunk.RerunGivesTheSameMarks: says nothing about owners, because they can differ; `ChunkOwners.SameOwnersExactlyWhen` has the exact condition.
- ForwardSync.EveryArticleProcessed: leaves open a spot whose withdrawal has a lower number, because the code does; `Listing.ListedExactlyWhen` has the exact condition.
- Chunk.RerunGivesTheSameListing: its attempts begin with an insert that succeeds; `ChunkInserts.RerunAfterFailedInserts` has the others.
- ChunkInserts.RerunAfterFailedInserts: compares spots and not row numbers, because in delete mode a spot that is inserted again takes a new number.
- Listing.ListedExactlyWhenNeverMet: says nothing about a spot that was met only by batches that crashed or whose lookups failed; `Listing.ListedExactlyWhen` decides those by what was committed.
- Sweep.SweepEqualsOnePass: requires article numbers from 1 up, since a row numbered 0 makes the code report the sweep done at once, and says nothing about rows that another worker writes while the sweep runs; interleaved sweeps are in `ForwardSync` and `Listing`.
- Sweep.SweepGroup: its running totals, which are only logged, are not modelled.
- ForwardSync.SyncGroup: the statistics of a pass, which are only logged, are not modelled.
- Databases.Database.DeleteSpotsOlderThan: the cached NZBs that the same loop deletes are not modelled; the table model has no cache beside the spots.
- Interleaving inside one batch of withdrawals: every statement of every worker interleaves freely in the invariants of `StoreInvariants`; in `Forward` the sweep and the backfill run between the chunks, and retention, pruning and enrichment do not run.
- `created_at`, the category, kind and 18+ columns of a stored spot: the table model holds the columns the protocol reads.
- The subcategory parser's input is any byte string; lower-casing and the rest of `ParseFromOverview` (reading dates out of their formats, titles, RFC 2047 words) are not modelled.
- SQLite, sockets, TLS, NNTP login, clocks, SHA-1, base64, XML, deflate: tables are maps, statements are atomic; a clock reading, a digest and a decoded key are parameters.
- Database errors other than failed inserts and failed checkpoints of the workers: a statement succeeds or the process stops there.
- `UnprepareBase64`, `SpotterID`, `headerSigningString`, message-id normalisation, the search query's filters other than subcategory codes, HTTP handlers, session and feed code: they add easy one-function claims or input and output.
