# The indexing pipeline, its archive and its identity tables: a verified model

A two-stage indexer archives chain blocks (fetch) and turns archived blocks into rows (digest).
This project models the parts that decide what it may promise, and proves the promises over every
input, every crash point and every interleaving.

| Files | What they model |
|---|---|
| `LittleEndian`, `SegmentFormat`, `SegmentCrash`, `SegmentDamage`, `Segment` | The two append-only files of a segment, byte by byte: frames with CRC-32, index entries, torn tails, entries that outlive their frames, the incremental reader and the fallback scan |
| `Decimal`, `Layout` | File names and the arithmetic from block numbers to segments |
| `Segstore`, `StoreRefinement` | The number-keyed store over a hot and a cold root, with one open writer and one cached reader |
| `TierMove`, `Tiering` | Moving one segment to the cold tier, stopped at any point; a tiering pass and the archive watermark |
| `Extrema`, `Queue` | The lease queue and the watermarks, one SQL statement to a method |
| `BlockArchive`, `ArchiveRefinement` | Which blocks the pipeline can still read while segments move and go and power is lost, and that this is what the segment files answer |
| `Backfill`, `Sums`, `Progress` | Workers, digest, tiering, resets and crashes as a step protocol: safety, then liveness |
| `Holes`, `Witnesses` | What comes of a step that was not careful, in general and in runs from an empty chain |
| `Digest` | Batches, linkage, first-seen runtimes, cursor and digest watermark |
| `ReadCache` | Archived storage reads and offline replay of adaptive handlers |
| `Limiter` | Token bucket, adaptive rate and circuit breaker, with time as a parameter, over reals |
| `Identities`, `SubIdentities` | The temporal identity table, and the worklist that maintains sub-identities |
| `Hex`, `Codec`, `Ss58` | SCALE values as JSON and back, and SS58 addresses |

Objects the source updates in place are classes here; each method is proved against a function of the
old state, and the promises are lemmas about those functions. `dafny verify dfyconfig.toml` checks the
whole project.

## How the guarantees fit together

* **A byte on disk is a record read back.** `SegmentFormat.ReadsBack`, `SegmentCrash.CrashRecovery` and
  the `Segment` methods take the store from bytes to logs; `StoreRefinement.RefinesOneMap` takes it from
  logs on two tiers to one map; `TierMove.NeverLoses` covers the moves between the tiers.
* **A watermark is a promise.** `Backfill.NoHoleAdvertised` says what it is worth. After any run whatever the
  watermarks are in order. If the restarts were careful, each block through the fetch watermark has been on
  disk, whatever the expired leases, the tiering passes, the crashes and the resets did since; and
  `Backfill.AdvertisedWasOnDisk` says so of a block for which alone they were, and exactly when it can be read.
  If every step was careful, what the digest still needs is on disk and readable. Only four steps can be
  careless, and each has its exact condition, which can be looked up before the step: a restart
  (`Backfill.StartKeepsInvIff`, `Holes.CarefulIff`), a crash (`Backfill.CrashKeepsInvIff`), a crash inside a
  reset (`Backfill.InterruptedResetIff`), and, only after such a crash (`Backfill.UndisturbedIsCareful`), a
  store (`Backfill.StoreKeepsInvIff`). `Holes.RestartDoesHarmIff` and `Witnesses` show what comes of a
  careless one. Below the digest watermark, where segments move or are deleted, `Backfill.StaysReadableIff` is
  exact, and `ArchiveRefinement.AnsweredIff` says the same of the segment files.
  `Progress.BackfillRuns` and `Progress.RestartRuns` say that the same protocol cannot deadlock and where
  it can end.
* **Digesting is a function of the chain.** `Digest.Stage.Run` commits what one block per transaction
  would have committed, and `ReadCache.ReplaysAfterAnything` makes a handler's pass repeatable with no
  node for as long as `ReadCache.LearningHidesIff` leaves its record in sight.

## Where the code and its documentation part

The model follows the code. What the lemmas named `...Iff` prove in both directions is exactly the condition
their rows state; the others are concrete inputs or one-way results, as their rows say.

* Seeding is documented to start at a chunk boundary (`crates/pif-db/src/repo.rs:667-670`), but a restart
  seeds from one past the digest watermark (`crates/pif-chain/src/pipeline.rs:563-567`), which can be
  mid-chunk. The overlapping chunks that result are harmless. What is not harmless is a last chunk that
  an earlier, shorter backfill clipped: its tile is skipped and the rest of it is never fetched, yet the
  watermark passes over it. `Queue.SeedCoversIff`, `Queue.ClippedChunkLeavesAHole`.
* Within a backfill only a worker that has just completed a chunk advances the fetch watermark
  (`crates/pif-chain/src/fetch.rs:213-214`), and reclaiming, seeding and waiting do not. A crash between the
  two statements can leave every chunk done and the digest behind, and each restart that stops within
  chunks already queued, on the same tiles, leaves it there. It ends when a restart has a tile that is not
  queued and fits, be it further on or because the chunk size changed, or when the stage goes on to follow
  the head (`crates/pif-chain/src/fetch.rs:575-588`).
  `Progress.ResumesIff`, `Progress.RestartResumesIff`, `Progress.CrashBeforeAdvanceStalls`,
  `Witnesses.StallLastsUntilMoreIsAsked`.
* With a finite lag, a chunk that failed five times does not end the backfill with an error when chunks
  lie beyond the window from it: those stay pending, and the workers wait for ever.
  `Progress.BackfillRuns`.
* A lag of zero, or one that turns negative as a signed integer, never lets a chunk through. Nor does a
  restart with a lag smaller than a chunk already queued let that chunk through: the liveness results ask that
  the open chunks fit. `Backfill.NextChunkFitsIff`, `Progress.RestartRuns`.
* A chunk that reaches beyond the end of the backfill, or lies beyond it altogether, is archived up to that
  end and marked done as a whole. A restart with an earlier stop than the queue was seeded for therefore
  advertises blocks nobody stored. `Backfill.ClippedChunkIsWholeIff`, `Backfill.StartKeepsInvIff`,
  `Holes.RestartDoesHarmIff`, `Witnesses.ShortRestartAdvertisesAHole`.
* Storing a block again is called a harmless overwrite (`crates/pif-chain/src/pipeline.rs:565-567`), but it is
  an append to two files that are flushed one after the other. When power is lost before the next flush, the
  newer index entry can survive without its frame; the reader goes by the last entry, and reopening repairs
  nothing, so a block that was flushed, advertised and not digested is a permanent error. A restart off the
  old tiles stores such blocks again, and so does a worker whose lease ran out.
  `StoreRefinement.FlushedSurvivesIff`, `Backfill.AdvertisedSurviveIff`, `Witnesses.StoredAgainIsLost`.
* `--from` moves the watermarks back in one statement and drops the queue in another
  (`crates/pif-chain/src/pipeline.rs:555-559`). After a crash between the two, the old rows still count as
  done, and a restart advertises what they cover, deleted or not. `Backfill.InterruptedResetIff`,
  `Witnesses.CutResetAdvertisesDeletedBlocks`.
* A worker whose lease ran out goes on storing, and nothing stops it from storing into a segment that has
  been moved to the cold tier since: the rest of that segment can then no longer be read.
  `Backfill.StaysReadableIff`, `Witnesses.LateStoreHidesABlock`. Nor does anything stop it between the copy of
  a segment and its drop (`crates/pif-chain/src/tiering.rs:187-204`), and then the drop takes what it stored.
* A record written to a segment that is only on the cold tier, which is documented to shadow the cold
  copy, hides every other record of that segment, and the next tiering pass makes that permanent by
  replacing the cold copy. Fetching old blocks again does this, and so does a digest of tiered blocks that
  learns a new read. `StoreRefinement.PutKeepsOthersIff`, `StoreRefinement.TieredAgainKeepsIff`,
  `ReadCache.LearningHidesIff`.
* A tiering pass stopped between deleting a segment and deleting its index leaves the index for good,
  and writing that segment again trusts it: the new frames go past a gap of zeros, and the old entries
  name the gap. `TierMove.RerunsFinishIff`, `TierMove.LeftoverIndexMisleads`.
* A segment is copied to the cold tier file by file with nothing to keep a put out
  (`crates/pif-store/src/segstore.rs:350-357`): a record put in between is named by the cold index and missing
  from the cold segment. `StoreRefinement.PutBetweenCopies`.
* A half-open breaker is documented to let exactly one request through; a second one goes through when
  the bucket holds a token. A late success closes an open breaker without resetting its backoff.
  `Limiter.SecondProbeIff`, `Limiter.NextOutageShortIff`.
* A payload that fits the length field but whose frame does not panics after its frame was written.
  `Segment.SegmentWriter.Append`.
* Chain linkage is carried within one run only. `Digest.RestartChecksIff`.
* A byte string of exactly one byte is not read back from JSON, so a one-character display name is lost.
  `Codec.BytesRoundTripIff`, `Codec.PayloadRoundTripIff`.
* SS58 prefixes from 16384 on share encodings with smaller ones. `Ss58.PrefixesCollideIff`.

## Model

| member | source | states |
|---|---|---|
| SegmentFormat.ReadsBack | crates/pif-store/src/segment.rs:233-283 | Through its index, a segment answers every number ever appended with the last payload appended for it, past the length and CRC checks, and knows no other number |
| SegmentFormat.IndexPointsAtLast | crates/pif-store/src/segment.rs:205-230 | The offset map knows exactly the numbers appended, and points each at its last record |
| SegmentFormat.DecodeFrame | crates/pif-store/src/segment.rs:102-131 | The little-endian header of a frame decodes to its number, payload length and checksum |
| SegmentFormat.CrcCheckValue | crates/pif-store/src/segment.rs:102-131 | The checksum is the CRC-32 whose published check value for the digits 1 to 9 is CBF43926 |
| SegmentFormat.MagicsAre | crates/pif-store/src/segment.rs:24-25 | The two files begin with PIFSEG and PIFIDX, a zero and the version 1 |
| LittleEndian.LowestFirst | crates/pif-store/src/segment.rs:102-131 | Numbers are laid down lowest byte first, with zeros up to the width |
| SegmentFormat.RecordReads | crates/pif-store/src/segment.rs:233-283 | As soon as its frame is whole, a record reads back from where its index entry points |
| SegmentCrash.CrashRecovery | crates/pif-store/src/segment.rs:52-99 | For any appends cut at any byte of frame or entry, reopening leaves exactly the bytes of the records with a complete entry, and later appends land beside them |
| SegmentCrash.ReopenRecovers | crates/pif-store/src/segment.rs:52-99 | Opening files that name a log, with any torn tail behind it, leaves exactly that log's bytes |
| SegmentCrash.CutReadableIff | crates/pif-store/src/segment.rs:12-14 | If the two files lose their tails independently, what the index still names reads back iff the segment was not cut below the last frame it names |
| SegmentDamage.LastReadsIff | crates/pif-store/src/segment.rs:205-283 | For any segment bytes and any index: a number reads its last payload iff the frame of its last entry is there, byte for byte; a frame past the end of the file is an error |
| SegmentDamage.CutHoles | crates/pif-store/src/segment.rs:52-99 | Cutting the two files independently loses exactly the frames that were lost before and those the segment was cut below |
| SegmentDamage.AppendHoles | crates/pif-store/src/segment.rs:75-131 | Reopening and appending after such a loss repairs nothing: the new frame is whole, no other is lost, and a lost one comes back only if its missing bytes are the zeros of the gap |
| Segment.SegmentWriter.constructor | crates/pif-store/src/segment.rs:52-99 | Opening for append truncates both files to what the index names, keeps every named record, and knows the end and the count |
| Segment.SegmentWriter.Append | crates/pif-store/src/segment.rs:102-131 | Frame first, entry second; the files then name one more record; an oversized payload changes nothing, and one whose frame overflows panics after the frame was written |
| Segment.SegmentWriter.Sync | crates/pif-store/src/segment.rs:138-146 | Both files are durable and hold the same records |
| Segment.CutIsTorn | crates/pif-store/src/segment.rs:298-331 | A segment cut anywhere is some whole frames and the beginning of at most one more |
| Segment.SegmentReader.Refresh | crates/pif-store/src/segment.rs:205-230 | From any earlier point, even with a torn trailing entry, a refresh leaves the reader with the offset map of the whole log |
| Segment.SegmentReader.ScanFromCursor | crates/pif-store/src/segment.rs:298-331 | Without the sidecar, scanning on from any earlier point yields the same offset map for exactly the complete frames |
| Segment.SegmentReader.Read | crates/pif-store/src/segment.rs:233-283 | Returns the last payload of a number among the records seen, refreshing first when the number is unknown, or scanning on when there is no sidecar; never an error on a described segment |
| Layout.StemRoundTrip | crates/pif-store/src/layout.rs:78-96 | A segment's file name, index or data, gives back the block it starts at, for every segment; after the dash it names the last block, each in nine digits or more |
| Layout.InSegment | crates/pif-store/src/layout.rs:21-33 | A number lies between a segment's bounds iff the segment is the one its index names |
| Layout.NameOrderIsBlockOrder | crates/pif-store/src/layout.rs:72-84 | Below a billion, the padded first numbers are listed in block order and no other |
| Layout.FilesListInBlockOrder | crates/pif-store/src/layout.rs:62-84 | Of two different segments below a billion, whichever of their files, the earlier one is listed first |
| Layout.OrderEndsAtABillion | crates/pif-store/src/layout.rs:72-84 | The first name beyond a billion is listed before the last one below it |
| Segstore.Segments.Put | crates/pif-store/src/segstore.rs:127-181 | One more record in the hot copy of its segment, nothing else changed; the cached reader stays current or is dropped; only the open writer's segment may hold unflushed records |
| Segstore.Segments.Get | crates/pif-store/src/segstore.rs:184-201 | Answers what the two tiers hold for that number, whichever reader was cached |
| Segstore.Segments.Has | crates/pif-store/src/segstore.rs:204-214 | True iff a read would answer |
| Segstore.Segments.Sync | crates/pif-store/src/segstore.rs:217-223 | Flushing only the open writer leaves every file of every segment flushed |
| Segstore.Segments.OpenReader | crates/pif-store/src/segstore.rs:433-486 | Finds a segment iff some tier has it, hot first, and sees all of its records |
| Segstore.Segments.CopyToCold | crates/pif-store/src/segstore.rs:338-367 | Succeeds iff there is a cold tier and a hot copy; the cold copy then holds the same records |
| Segstore.Segments.DropHot | crates/pif-store/src/segstore.rs:374-392 | Removes the hot copy and any handle on it, flushing it first |
| Segstore.Segments.ContiguousEnd | crates/pif-store/src/segstore.rs:228-258 | Across segments and tiers, the number before the first missing one, as a scan one number at a time would find; none iff the first is missing |
| StoreRefinement.RefinesOneMap | crates/pif-store/src/segstore.rs:127-201 | For any puts, copies and drops in tiering's order, every read answers with the last payload put for that chain and number |
| StoreRefinement.TiersAgree | crates/pif-store/src/segstore.rs:338-392 | In such a run a copy is current until the next put, and only dropped segments are cold-only |
| StoreRefinement.ViewAfterPut | crates/pif-store/src/segstore.rs:121-181 | What every read answers after a put, shadowing included |
| StoreRefinement.PutKeepsOthersIff | crates/pif-store/src/segstore.rs:465-486 | A put changes no other number iff it does not land beside a cold-only copy that holds another number |
| StoreRefinement.TieredAgainKeepsIff | crates/pif-store/src/segstore.rs:121-126 | After writes to a cold-only segment are tiered in turn, what the segment held is still there iff all of it was written again |
| StoreRefinement.CopyThenDrop | crates/pif-store/src/segstore.rs:334-392 | Copying a segment, and then dropping its hot copy, changes no answer |
| StoreRefinement.OnlyTheWriterLoses | crates/pif-store/src/segstore.rs:132-150 | A power loss, whatever it cuts from either file, only touches the open writer's segment, and nothing right after a sync; every flushed entry still reads, and so do all the index still names iff the segment was not cut below them |
| StoreRefinement.ReadAfterIs | crates/pif-store/src/segment.rs:205-283 | After such a loss a number is answered with the last payload named for it iff the segment was not cut below that frame, and is an error otherwise, even if an earlier record of it was flushed |
| StoreRefinement.FlushedSurvivesIff | crates/pif-store/src/segment.rs:138-146 | A flushed number is answered with what was flushed after every power loss iff it was not put again since; if it was, some power loss makes it an error |
| StoreRefinement.PutBetweenCopies | crates/pif-store/src/segstore.rs:338-367 | A put between the copies of the two files is an error on the cold tier, and every other number answers as when the copy began |
| StoreRefinement.FilesAnswer | crates/pif-store/src/segstore.rs:184-201 | The bytes of the segment and index files of a log, read through the index, answer what the store is taken to hold |
| TierMove.Disk.MoveSegment | crates/pif-store/src/cold.rs:84-137 | The move, statement by statement, leaves the files of the point where it stopped, and stops right after installing a copy whose checksum does not agree |
| TierMove.CopyBytes | crates/pif-store/src/cold.rs:89-118 | Copying buffer by buffer writes the source's bytes, or a prefix when interrupted |
| TierMove.NeverLoses | crates/pif-chain/src/tiering.rs:187-206 | However many passes are interrupted, wherever each stops, on good cold disks or bad: reads are answered from the same bytes as before |
| TierMove.RerunsFinishIff | crates/pif-store/src/segstore.rs:385-391 | Rerunning the pass until one gets to its end always reaches the same files, unless one died between the two deletes of a segment with an index |
| TierMove.LeftoverIndexMisleads | crates/pif-store/src/segment.rs:52-99 | The index left there puts the first new frame past a gap: the new record reads back, and every old entry is refused by the number or the length in its frame, save an empty record of number 0 |
| TierMove.GapReads | crates/pif-store/src/segment.rs:233-283 | What a read answers where a file was filled with zeros |
| Tiering.Tier.TierArchive | crates/pif-chain/src/tiering.rs:159-227 | A prefix leaves the hot tier, and only archiving puts it on the cold one; no segment in it ends above the digest bound or is younger than the retention, and the first one left is or does |
| Tiering.Tier.Pass | crates/pif-chain/src/tiering.rs:120-155 | A pass keeps archive at or below digest, and no hot segment lies wholly at or below the archive watermark |
| Tiering.RestIsAbove | crates/pif-chain/src/tiering.rs:172-182 | Moving a prefix is what leaves every remaining segment above the new watermark |
| Tiering.WritesStayAbove | crates/pif-chain/src/tiering.rs:139-151 | A block written above the watermark never brings back a cleared segment |
| Queue.Repo.SeedChunks | crates/pif-db/src/repo.rs:671-704 | Tiles are inserted where no chunk starts, and the result counts the rows added |
| Queue.SeedCoversIff | crates/pif-db/src/repo.rs:664-704 | Seeding from anywhere in the queued range leaves no block uncovered iff the tile that reaches past the range does not start at a queued chunk |
| Queue.SeedCoversBlockIff | crates/pif-db/src/repo.rs:664-704 | Whatever the queue holds: after seeding, a block is covered iff it was before, or its tile does not start at a queued chunk |
| Queue.SeedKeepsTilingIff | crates/pif-db/src/repo.rs:667-670 | Seeding keeps every block in exactly one chunk iff the new tiles fall on the old chunks |
| Queue.SeedOnlyAdds | crates/pif-db/src/repo.rs:664-670 | Seeding never changes a queued chunk and adds only from its start on |
| Queue.ReseedIsNoOp | crates/pif-db/src/repo.rs:664-670 | Seeding the identical range again changes nothing |
| Queue.SeedAgainCompletes | crates/pif-db/src/repo.rs:684-701 | Seeding that a crash cut short after any of its inserts is completed by seeding the range again, to the same queue |
| Queue.NewTileFitsIff | crates/pif-db/src/repo.rs:684-701 | Seeding adds a chunk that can be claimed under a ceiling iff some tile is not queued and ends below it |
| Queue.ClippedChunkLeavesAHole | crates/pif-db/src/repo.rs:684-701 | A concrete restart after which a block lies in no chunk, and the done end still passes it |
| Queue.Repo.ClaimChunk | crates/pif-db/src/repo.rs:732-773 | Leases the lowest pending chunk that ends at or below the ceiling, counting the attempt; none iff there is none |
| Queue.Repo.CompleteChunk | crates/pif-db/src/repo.rs:780-794 | No other row, bound or attempt changes; every chunk below all open ones stays so, and no block becomes uncovered |
| Queue.Repo.ReleaseChunk | crates/pif-db/src/repo.rs:801-821 | The chunk, even a done one, can be claimed under any ceiling it fits, its attempts still counted, and the done prefix now ends before it; no other row changes |
| Queue.Repo.FailChunk | crates/pif-db/src/repo.rs:828-848 | While it is failed the chunk is claimed under no ceiling and reclaimed at no time, and the done prefix ends before it; no other row changes |
| Queue.Repo.ReclaimExpiredChunks | crates/pif-db/src/repo.rs:854-867 | No lease is left that has run out; only such chunks changed, to pending; the done prefix and the attempts are as before; the result is how many more are pending |
| Queue.LeaseRunsOutIff | crates/pif-db/src/repo.rs:850-867 | A claimed chunk comes back to the pool iff its lease has run out, with the attempt still counted |
| Queue.Repo.ContiguousDoneEnd | crates/pif-db/src/repo.rs:874-892 | The highest end among done chunks below every chunk that is not done; none iff there is no such chunk |
| Queue.DonePrefixHasNoHole | crates/pif-db/src/repo.rs:869-892 | Every block up to the done end lies in a done chunk, even where chunks overlap |
| Queue.DoneEndIs | crates/pif-db/src/repo.rs:869-892 | On a tiled queue the done end is just before the lowest chunk that is not done |
| Queue.DoneEndReaches | crates/pif-db/src/repo.rs:869-892 | Even where chunks overlap, the done end reaches every block before the lowest open chunk |
| Queue.ResetLowersArchive | crates/pif-db/src/repo.rs:480-499 | Moving the watermarks back keeps their order and lowers the archive watermark just as far as that asks; without a row everything up to the block counts as done and nothing as archived beyond block 0 |
| Queue.Repo.ResetWatermarks | crates/pif-db/src/repo.rs:480-499 | Fetch and digest move to the block, archive at most down to it, in order, whether or not there was a row |
| Queue.Repo.InitWatermarks | crates/pif-db/src/repo.rs:457-472 | An existing row is kept; a new one is in order, with everything up to the block counted as fetched and digested, and archive at block 0 or, below that, at the block |
| Queue.Repo.AdvanceFetchWatermark | crates/pif-db/src/repo.rs:506-520 | Fetch never moves back, reaches the block, and is either of the two; digest, archive and their order are kept; nothing without a row |
| Backfill.NoHoleAdvertised | crates/pif-chain/src/fetch.rs:207-214 | After any run archive <= digest <= fetch; if its restarts were careful, every block from the start through the fetch watermark has been on disk; if every step was, those the digest has not committed still are, flushed and readable |
| Backfill.AdvertisedWasOnDisk | crates/pif-chain/src/fetch.rs:207-214 | After any run whose restarts skipped this one block only if it had been on disk, whatever crashes, stores and cut resets did: once advertised it has been on disk, and it is readable iff nothing took it away since it was last stored |
| Backfill.MarksInOrder | crates/pif-db/src/repo.rs:501-566 | From watermarks in order, any run whatever leaves them in order, with those read by the digest and by a tiering pass behind them |
| Backfill.StepInv | crates/pif-chain/src/fetch.rs:175-291 | Every careful step of every worker, the digest, tiering that moves or deletes segments, restarts, the two statements of a reset, and crashes keeps the invariant behind it |
| Backfill.StartKeepsInvIff | crates/pif-chain/src/fetch.rs:128-140 | A restart keeps the invariant iff every block of the queue is covered or gets a tile of its own and no open chunk ends beyond the stop |
| Backfill.NoGapIsNotClipped | crates/pif-db/src/repo.rs:664-704 | Unless a reset was cut, that is: iff the tile reaching past the queue is not taken for a chunk that is there |
| Holes.RestartDoesHarmIff | crates/pif-chain/src/fetch.rs:128-140 | A block not stored so far, with a chunk that reaches past it and none given up on before it, can be advertised by the runs from a restart, never having been on disk, iff the restart was not careful for that block |
| Holes.CarefulIff | crates/pif-chain/src/fetch.rs:128-140 | That is so iff every block from the start on lies in a chunk, and none of an open chunk beyond the stop |
| Holes.RestartLeadsToAHole | crates/pif-chain/src/fetch.rs:175-291 | After any restart, from a block that cannot be read, that no chunk will store and that some chunk reaches past with none given up on before, the run can go on to advertise it, unreadable and undigested, with no further crash or restart |
| Backfill.CrashKeepsInvIff | crates/pif-chain/src/pipeline.rs:563-567 | Every crash keeps the invariant iff no block promised, which is above the digest watermark and done or advertised, was stored again since the last flush; in a reset, iff each such block is on disk too |
| Backfill.AdvertisedSurviveIff | crates/pif-chain/src/pipeline.rs:563-567 | Every crash leaves every advertised, undigested block readable iff none of them was stored again since the last flush |
| Backfill.InterruptedResetIff | crates/pif-chain/src/pipeline.rs:553-561 | A reset that dies between its statements keeps every promise, whatever the crash loses, iff each block above the mark in a chunk marked done is on disk and was not stored again |
| Backfill.StoreKeepsInvIff | crates/pif-chain/src/fetch.rs:255-280 | Storing a block keeps the invariant iff it does not land beside a cold-only copy that promised blocks are read from |
| Backfill.UndisturbedIsCareful | crates/pif-chain/src/pipeline.rs:553-567 | If restarts and crashes are careful and no crash falls inside a reset, every store is: above the digest watermark no segment is cold-only |
| Backfill.StaysReadableIff | crates/pif-chain/src/tiering.rs:159-227 | After any run, careful or not, a block is readable iff since it was last stored, or since the start if it was readable then, no drop of a hot file found it without a cold record, be it deletion or a store after the copy, no other block was stored beside a cold-only copy of it, and no crash lost it |
| BlockArchive.ReadableIff | crates/pif-store/src/segstore.rs:465-486 | The same of the archive alone, over stores, flushes, copies, drops and crashes |
| BlockArchive.StaysSafeIff | crates/pif-chain/src/tiering.rs:173-179 | A block above the digest bound that is on disk stays so, whatever is stored, moved, deleted or lost, iff no crash loses it and its segment is not stored into with only a cold copy there |
| BlockArchive.SurvivesIff | crates/pif-store/src/segment.rs:133-146 | A block on disk is so after every crash iff it was not stored again since it was flushed |
| ArchiveRefinement.StepFollows | crates/pif-store/src/segstore.rs:127-181 | Puts, flushes, copies, drops and power losses of the segment files are the steps of the archive the pipeline is proved over, and no power loss takes more than it allows; flushed and stored again are read off the files |
| ArchiveRefinement.AnsweredIff | crates/pif-store/src/segstore.rs:184-201 | After any run of puts, flushes, copies, drops and power losses from given files, a read answers a block iff nothing took it away since it was last stored, or since the start if it was answered then |
| ArchiveRefinement.AllDirtyCanBeLost | crates/pif-store/src/segment.rs:133-146 | The worst the archive allows for can happen: one power loss takes every block stored since the last flush, flushed before or not |
| ArchiveRefinement.HolesAreInBytes | crates/pif-store/src/segment.rs:52-131 | The frames counted as lost are those missing from the bytes: a cut loses exactly them, and an append loses none |
| ArchiveRefinement.OperationsAreTheStores | crates/pif-store/src/segstore.rs:127-181 | With flushing and losses left aside, the operations on these files are those of the two-tier store |
| Backfill.WatermarksOnlyAdvance | crates/pif-db/src/repo.rs:501-566 | Short of an explicit reset no watermark ever moves back |
| Backfill.MarksReach | crates/pif-db/src/repo.rs:501-566 | Each step takes the one mark it moves as far as it says, and no other mark |
| Backfill.CanAlwaysHappen | crates/pif-chain/src/fetch.rs:175-253 | Nothing in the protocol keeps an error, a claim past a locked row, an expiring lease or a crash from happening |
| Backfill.RestartCoversIff | crates/pif-chain/src/pipeline.rs:553-579 | A restart from one past the digest watermark covers every block iff the tail of the queue was not clipped |
| Backfill.BoundedLead | crates/pif-chain/src/fetch.rs:302-313 | With a finite lag, every leased or done chunk ends within the lag of the digest watermark in every later state, as long as no crash inside a reset leaves one beyond the lag of the new mark |
| Backfill.StepWithinLagIff | crates/pif-chain/src/pipeline.rs:553-561 | Each step keeps that bound iff it is no crash inside a reset, or every chunk ever claimed ends within the lag of the new mark |
| Backfill.NextChunkFitsIff | crates/pif-chain/src/fetch.rs:293-313 | The chunk right after the digested block fits under the brake iff the lag is neither zero nor negative as a signed integer |
| Backfill.BrakeHoldsIff | crates/pif-chain/src/fetch.rs:302-313 | With no lag configured nothing is held back; with one, a pending chunk is iff it ends beyond the lag as a signed integer |
| Backfill.EffectiveChunkSizeIs | crates/pif-chain/src/fetch.rs:293-299 | A lease is the largest size within the configured one and the lag, and one block at least |
| Backfill.ClippedChunkIsWholeIff | crates/pif-chain/src/fetch.rs:255-280 | A chunk archived through the end of the backfill is marked done as a whole; it is wholly on disk iff the blocks from there to its own end were in the archive already, also when it lies beyond the end altogether |
| Witnesses.ShortRestartAdvertisesAHole | crates/pif-chain/src/fetch.rs:128-140 | A run from an empty chain, with one restart to an earlier stop, after which the fetch watermark covers a block never stored |
| Witnesses.LateStoreHidesABlock | crates/pif-chain/src/fetch.rs:200-204 | A run of careful steps, with one expired lease and one tiering pass, after which an advertised block that was on disk cannot be read |
| Witnesses.StoredAgainIsLost | crates/pif-chain/src/fetch.rs:200-204 | A run of careful steps, one lease expired, after which a power loss makes a flushed, advertised, undigested block unreadable while its chunk is done |
| Witnesses.CutResetAdvertisesDeletedBlocks | crates/pif-chain/src/pipeline.rs:555-559 | A run with deletion, one reset cut by a crash and a careful restart, after which the watermark advertises a deleted block that is to be digested again |
| Progress.NoDeadlock | crates/pif-chain/src/fetch.rs:293-313 | In any backfill under way, overlapping chunks and leases of dead workers included, with its due advance in a worker's hands, blocks left to digest and no failed chunk, some worker or the digest can do something other than look again; at once, unless it waits for such a lease |
| Progress.StepDecreases | crates/pif-chain/src/fetch.rs:226-250 | Every step but looking again brings a natural number down |
| Progress.QuietRun | crates/pif-chain/src/fetch.rs:175-253 | Over a run with no crash and no lease lost by a worker that holds it, chunks overlapping or not and orphaned leases coming back at any time, the productive steps are bounded by the starting measure, attempts by their limit, and a completed chunk leaves its advance due |
| Progress.BackfillRuns | crates/pif-chain/src/fetch.rs:128-253 | From an empty queue: no chunk is claimed a sixth time, one is failed iff it had five errors, productive steps are bounded, the watermark never passes a failed chunk, and the run rests only with everything digested, or with the watermarks just before the first failed chunk and pending exactly the chunks beyond the window |
| Progress.AfterError | crates/pif-chain/src/fetch.rs:226-250 | After the error of a worker that holds its lease, the chunk is failed iff that was its fifth attempt or a later one; otherwise it can be claimed again under any ceiling it fits |
| Progress.FailsAtFive | crates/pif-chain/src/fetch.rs:226-250 | Through a run with no crash every attempt is an error, the one under way or the one that succeeded, and a chunk is failed iff five of them were errors |
| Progress.StartIsSteady | crates/pif-chain/src/fetch.rs:293-299 | Whatever the configured chunk size, a freshly seeded backfill meets the hypotheses of the liveness proof |
| Progress.RestartRuns | crates/pif-chain/src/fetch.rs:128-174 | A careful restart from any state reached by careful steps with no reset cut, whichever leases of the dead process are still running: productive steps and attempts are bounded, and once a chunk was completed the run rests only with everything digested or the first open chunk failed |
| Progress.ResumesIff | crates/pif-chain/src/fetch.rs:192-205 | With no chunk in hand, a backfill that may reclaim leases moves on iff the digest has something to read, or can read the next block it has been told of, or some pending or orphaned chunk fits under the brake |
| Progress.RestartResumesIff | crates/pif-chain/src/fetch.rs:128-140 | After a crash with the digest caught up, a restart moves on iff some unfetched chunk fits, or one of its tiles is not queued and fits |
| Progress.CrashBeforeAdvanceStalls | crates/pif-chain/src/fetch.rs:213-214 | A crash right after completing the last open chunk leaves all chunks done and the watermark behind; nothing moves on, reclaiming included, and a restart does iff one of its tiles is not queued and fits |
| Witnesses.StallLastsUntilMoreIsAsked | crates/pif-chain/src/fetch.rs:213-214 | An ordinary run into that stall; a restart to the same stop stays in it, a restart to the next block leaves it |
| Digest.Stage.Run | crates/pif-chain/src/digest.rs:71-124 | For every batch size and every sequence of fetch watermarks seen, the database is what digesting the same blocks one at a time leaves. A run waits only with every watermark seen digested, or the stop passed, and never once a watermark has reached the stop; it never went past one seen; a failing batch, as large as allowed, leaves exactly the batches before it, and its error is that batch's |
| Digest.Stage.Commit | crates/pif-chain/src/digest.rs:174-268 | A batch commits what one transaction per block would, or fails with nothing written: for a read or a link before any handler |
| Digest.Stage.ReplayRange | crates/pif-chain/src/digest.rs:131-149 | The same for an explicit range |
| Digest.Stage.InsertRuntimes | crates/pif-db/src/repo.rs:189-222 | Deduplicating within the batch and inserting where absent equals inserting block by block |
| Digest.BatchIsOneByOne | crates/pif-chain/src/digest.rs:160-268 | One transaction over a batch succeeds iff one per block would, with the same rows, cursor, watermark and handler tables |
| Digest.DigestedInTwo | crates/pif-chain/src/digest.rs:95-103 | Adjoining batches with the hash carried over are one range |
| Digest.ReadsIffChain | crates/pif-chain/src/digest.rs:192-216 | Checking batch by batch with the carried hash is checking the whole range as one chain |
| Digest.RestartChecksIff | crates/pif-chain/src/digest.rs:74-76 | Two runs accept what one would iff the block where they meet links back |
| Digest.DigestedRows | crates/pif-db/src/repo.rs:112-222 | A digested range has each block's row and no other, each new runtime at its first block, cursor and watermark at its end, and handler tables made block by block, each from the one before |
| Digest.FailsWhere | crates/pif-chain/src/digest.rs:174-248 | A batch fails at its first block that is missing or does not link, before any handler ran; or, all of it read, at the first block whose handlers refuse, over the tables they have made by then; the error names it |
| Digest.RefusalIs | crates/pif-chain/src/digest.rs:240-248 | A refusal over the tables made by then is the batch's error |
| Digest.ReplayAddsNoRows | crates/pif-db/src/repo.rs:109-123 | Digesting any part of a committed range again adds no row and moves no watermark; the cursor ends at the replay's end |
| ReadCache.BlockReads.Get | crates/pif-store/src/cache.rs:83-88 | Distinguishes a read never made from an archived absence |
| ReadCache.BlockReads.Insert | crates/pif-store/src/cache.rs:91-96 | Replaces the first entry of its key in place, or appends |
| ReadCache.LookupAfterInsert | crates/pif-store/src/cache.rs:83-96 | An insert changes the answer of its own key and no other |
| ReadCache.CachedStorage.Fetch | crates/pif-chain/src/cache.rs:150-219 | Archived answers are served with or without a node; a miss a live node answers is returned, archived and learned; one it refuses, or that finds no node, is an error by name and changes nothing |
| ReadCache.CachedStorage.Serve | crates/pif-chain/src/cache.rs:150-219 | Any adaptive handler run through the cache gets the answers, the result and the learned reads of the pass as specified, whether it finishes or fails |
| ReadCache.CachedStorage.Persist | crates/pif-chain/src/cache.rs:88-104 | Writes the block's record iff something was learned |
| ReadCache.DigestBatch | crates/pif-chain/src/digest.rs:238-265 | Nothing is written back unless every block of the batch finished; after that the blocks' passes are written one by one, each having run over the archive as it was before the batch, and a crash keeps the first ones |
| ReadCache.OfflineReplays | crates/pif-chain/src/cache.rs:150-219 | Once a pass has finished, the same handler over its archive, or a larger one, gives the same answers and result with no node and learns nothing |
| ReadCache.ReplaysAfterAnything | crates/pif-chain/src/cache.rs:88-219 | A pass that was written back replays identically with no node after any batches of any blocks, any tiering and any power loss, as long as nothing is learned beside a cold-only copy of its segment, a segment is dropped only with a current copy, and no power loss finds its write-back unflushed |
| ReadCache.RunAgrees | crates/pif-chain/src/cache.rs:150-219 | Over an archive that agrees with the chain a finished pass has the chain's own result, and what it learns agrees again |
| ReadCache.OfflineFinishesIff | crates/pif-chain/src/cache.rs:190-192 | With no node a handler finishes iff every read it makes is archived, absences included; otherwise it stops at one that is not, by name |
| ReadCache.PassFinishesIff | crates/pif-chain/src/cache.rs:150-219 | With or without a node, a pass finishes iff every read it makes is archived or answered; then all are archived, and it learned something iff one was not; otherwise it stops at one that is neither, by name |
| ReadCache.PassesOnlyGrow | crates/pif-store/src/cache.rs:160-169 | Under that condition, digesting any blocks in any batches, tiering and power losses only add to a block's archive |
| ReadCache.LearningHidesIff | crates/pif-store/src/cache.rs:160-169 | Writing one block's reads leaves another block's as they were iff it does not land beside a cold-only copy that holds some |
| ReadCache.OwnPassDecides | crates/pif-chain/src/digest.rs:260-265 | After a batch a block's record is what its own pass learned over the archive before the batch, whatever the other blocks wrote, under the same condition |
| Limiter.Endpoint.Poll | crates/pif-chain/src/limiter.rs:97-118 | Before its time an open breaker refuses and says how long; at its time one poll goes through and half-opens it; otherwise the bucket refills and a token is spent, or the wait for one is named |
| Limiter.Endpoint.RecordSuccess | crates/pif-chain/src/limiter.rs:121-137 | Failures are forgotten and the breaker closes; a probe resets rate and backoff, any other call adds one step to the rate up to the limit |
| Limiter.Endpoint.RecordFailure | crates/pif-chain/src/limiter.rs:143-158 | The rate halves down to the floor; a failed probe doubles the backoff and reopens, the fifth failure in a row opens, an earlier one is counted |
| Limiter.WindowBound | crates/pif-chain/src/limiter.rs:168-179 | In any run, calls granted from the bucket in a window of length T are at most max_rate * (T + 1) |
| Limiter.StepValid | crates/pif-chain/src/limiter.rs:97-187 | In every reachable state the rate lies between min(2, max_rate) and max_rate, fewer than five failures are counted, the backoff is between 1 and 60 s, and the jitter state is not zero |
| Limiter.WaitIsExact | crates/pif-chain/src/limiter.rs:115-117 | A caller told to wait is let through after exactly that long and no sooner |
| Limiter.NoBurstBanked | crates/pif-chain/src/limiter.rs:168-179 | However long the endpoint was idle, a poll leaves at most one second's worth of calls |
| Limiter.BurstIs | crates/pif-chain/src/limiter.rs:97-118 | Of polls at one instant, the k-th is let through iff k is at most what the bucket held and what came in since at the current rate, up to one second's worth and at least one |
| Limiter.RateClimbs | crates/pif-chain/src/limiter.rs:132-135 | k successes in a row raise the rate by k/2 up to the limit |
| Limiter.RateHalves | crates/pif-chain/src/limiter.rs:143-158 | k failures in a row halve the rate k times down to the floor, and exactly the fifth opens the breaker |
| Limiter.SilentUntil | crates/pif-chain/src/limiter.rs:97-101 | Before its time an open breaker refuses every poll and nothing changes |
| Limiter.BackoffSchedule | crates/pif-chain/src/limiter.rs:143-166 | k failed probes in a row give a backoff of min(2^k times the first one, 60) s, and a wait of that and less than a second more |
| Limiter.OpensForBackoff | crates/pif-chain/src/limiter.rs:160-166 | However the breaker opens, it stays open for its backoff and the milliseconds drawn, under a second |
| Limiter.SecondProbeIff | crates/pif-chain/src/limiter.rs:102-113 | While a probe is in flight a second call is granted iff the bucket holds a token |
| Limiter.NextOutageShortIff | crates/pif-chain/src/limiter.rs:121-137 | After a success the backoff is the initial one iff the success was a probe's or the backoff already was |
| Limiter.JitterNonzero | crates/pif-chain/src/limiter.rs:182-187 | The xorshift state never becomes zero |
| Limiter.JitterVector | crates/pif-chain/src/limiter.rs:182-187 | From 1 the generator goes to the first number published for it |
| Limiter.FnvVectors | crates/pif-chain/src/limiter.rs:191-200 | The hash behind the seed has the published values of FNV-1a for the empty string and for a |
| Limiter.SeedFrom | crates/pif-chain/src/limiter.rs:191-200 | The seed is the FNV-1a hash of the URL with the low bit set, hence not zero |
| Identities.Store.PutIdentity | crates/pif-identity/src/store.rs:23-112 | Only the account's rows change: nothing if it already has that identity, else the open interval ends before the block and one opens at it |
| Identities.Store.ClearIdentity | crates/pif-identity/src/store.rs:115-146 | The open interval is closed before the block, and one begun at the block is gone |
| Identities.Store.AliasAt | crates/pif-identity/src/resolver.rs:144-168 | Returns the row with the highest start among those covering the block, or none |
| Identities.TableIsHistory | crates/pif-identity/src/store.rs:23-146 | For any writes at blocks that never go back, intervals are non-empty, disjoint, ordered with at most the last open, and the identity at any block is what the last write at or before it set |
| Identities.WriteDecides | crates/pif-identity/src/store.rs:23-146 | A write decides every block from its own on and leaves earlier ones as they were |
| Identities.AliasIsUnique | crates/pif-identity/src/resolver.rs:144-168 | The query has one answer at every block |
| Identities.SameIdentityIsNoOp | crates/pif-identity/src/store.rs:34-49 | Setting the identity an account already has opens no interval, then or later |
| Identities.ReplayedBlockIsNoOp | crates/pif-identity/src/store.rs:1-14 | Repeating all of a block's writes to an account leaves the same rows |
| SubIdentities.Store.Sync | crates/pif-identity/src/handler.rs:106-137 | Terminates on any lists, cyclic ones included; syncs each account reachable from the touched ones once and no other |
| SubIdentities.Store.SyncAccount | crates/pif-identity/src/read.rs:53-80 | Writes, deletes or leaves the account's own row, then drops the subs its list no longer names |
| SubIdentities.RowAfterSync | crates/pif-identity/src/read.rs:53-80 | After a sync in any order, a synced account has the chain's row, and another keeps its row unless its parent's list was read without it |
| SubIdentities.RowIsRightIff | crates/pif-identity/src/handler.rs:106-137 | When lists and links agree, an account's row is right iff it was reached, or was right already, or its link is gone and its stored parent was reached |
| SubIdentities.TableFollowsIff | crates/pif-identity/src/handler.rs:106-137 | The table equals the chain's links after the block iff every changed link was reached at its child or, when gone, at its stored parent |
| SubIdentities.UnreadableKeepsRow | crates/pif-identity/src/read.rs:63-67 | An account whose link cannot be read keeps its row unless its stored parent drops it |
| Codec.BytesToHex | crates/pif-core/src/codec.rs:103-117 | A composite is shown as hex iff it is sixteen or more integers below 256, and then as exactly their bytes |
| Codec.BytesJson | crates/pif-core/src/codec.rs:23-40 | Bytes render as hex from sixteen on and as decimal strings below |
| Hex.HighFirst | crates/pif-core/src/codec.rs:103-117 | Hex is written in lower case, the high half of a byte first, and read in either case |
| Codec.SignedJson | crates/pif-core/src/codec.rs:72-87 | Signed integers of any width are decimal text, after a minus sign below zero |
| Codec.NamedJson | crates/pif-core/src/codec.rs:23-40 | A named composite has each name once, with the last value under it |
| Codec.VariantJson | crates/pif-core/src/codec.rs:43-70 | An option is its value or null; any other variant keeps its name as the one key of an object |
| Codec.PlainJson | crates/pif-core/src/codec.rs:66-87 | Bits are shown one by one in order, 256-bit integers as the hex of their bytes, text and booleans as they are |
| Codec.IntegerRoundTripIff | crates/pif-identity/src/model.rs:105-112 | An integer inside any number of newtypes is read back iff it fits 64 bits |
| Codec.BytesRoundTripIff | crates/pif-identity/src/model.rs:285-296 | A byte string, bare or inside newtypes, is read back iff it is not exactly one byte long |
| Codec.PayloadRoundTripIff | crates/pif-identity/src/model.rs:241-262 | The bytes of a text field are recovered unless there is exactly one, which is lost |
| Codec.PlainIntegerReads | crates/pif-identity/src/model.rs:105-112 | A whole number is read as a number or as text, with a plus sign or without, or inside a newtype, iff it fits 64 bits |
| Codec.NumbersAreBytes | crates/pif-identity/src/model.rs:271-296 | An array of JSON numbers is the bytes they are, one alone included |
| Codec.HexReads | crates/pif-identity/src/model.rs:241-296 | Byte fields take hex with its mark or without; text fields take it marked, and not empty |
| Codec.AccountRoundTripIff | crates/pif-core/src/ss58.rs:85-98 | An account field is read iff it is 32 bytes inside at most one newtype |
| Ss58.RoundTripIff | crates/pif-core/src/ss58.rs:20-64 | Decoding undoes encoding, for every prefix and any checksum hash, iff the account is 32 bytes |
| Ss58.DecodedIsChecked | crates/pif-core/src/ss58.rs:39-64 | An address that decodes is its account after one or two bytes, with the right checksum |
| Ss58.AddressIs | crates/pif-core/src/ss58.rs:20-31 | An address is the prefix, the account, and the first two bytes of the hash of SS58PRE and both |
| Ss58.PrefixReadsBack | crates/pif-core/src/ss58.rs:101-111 | The first byte tells the form of a prefix below 16384, and its bytes give it back: itself below 64, else the middle six bits under the tag 01, then the low two and the high six |
| Ss58.PrefixesCollideIff | crates/pif-core/src/ss58.rs:101-111 | Two prefixes share an encoding iff they are equal, or both take two bytes and fold to the same fourteen bits |
| Ss58.PrefixInjectiveBelow | crates/pif-core/src/ss58.rs:101-111 | No two prefixes below 16384 share an encoding |

## Left out

- Segstore.Segments: a segment file is taken as the log it names, which is what `Segment` proves of its bytes, and one that lost frames is the subject of `ArchiveRefinement`; zstd is elided as an inverse pair, and a payload over 4 GiB is refused only at the segment level.
- Segment.SegmentWriter.constructor: does not cover an index file deleted under a segment that still has frames, which the writer trusts by design, nor torn 8-byte magics.
- Queue.Repo.ClaimChunk: a claim on its own, which takes the lowest chunk; rows it skips because another claim holds them locked are covered in `Backfill`, where a claim may take any claimable chunk or come back with none.
- Segstore.Segments.CopyToCold: the two files are copied with no put in between; `StoreRefinement.PutBetweenCopies` is about one that comes there.
- TierMove.NeverLoses: asks that a corrupt copy does not share its source's CRC-32, which no checksum can promise.
- Digest.Stage.Run: handlers see their own tables only, not the core rows of the same transaction; a replay past the fetch watermark, which the table's order constraint would abort, and the extrinsic and event rows, which follow the block rows, are not modelled.
- Backfill.NoHoleAdvertised: asks for careful restarts, and for careful stores and crashes where it claims that blocks can still be read, without which it fails (`Witnesses`); with deletion on digest, blocks below the digest watermark go by design, and only that they were on disk is claimed of them. No other process, a tiering pass included, runs between the statements of a reset.
- Holes.RestartLeadsToAHole: the run that goes on to advertise the block has no brake.
- Holes.RestartDoesHarmIff: likewise; that a careful restart does no harm holds under any brake (`Backfill.AdvertisedWasOnDisk`).
- Queue.SeedAgainCompletes: in the step protocol seeding is one step, which no worker precedes; what a crash between its inserts leaves is the subject here.
- ArchiveRefinement.StepFollows: a torn frame whose missing bytes happen to be zeros becomes whole with the next append (`SegmentDamage.AppendHoles`) and counts as lost until it is stored again here; a new file is taken to survive a crash with its name.
- ReadCache.ReplaysAfterAnything: a power loss is taken to leave a prefix of the write-backs; for the block in question the condition rules out an index entry that outlives its frame as well, and other blocks' records may become errors (`StoreRefinement.ReadAfterIs`).
- Progress.BackfillRuns: steps taken after a worker lost a lease it still holds are covered by the safety results only; a failed chunk ends the backfill with an error and the process with it, so the runs of the source are beginnings of the runs here.
- Progress.RestartRuns: starts where no promised block is read from a cold copy, which holds unless a reset was cut (`Backfill.UndisturbedIsCareful`). It claims where the run rests only if a chunk was completed in it, or the advance was due already; the other case is the stall of `Progress.ResumesIff`.
- Limiter.WindowBound: over exact reals, so floating-point rounding is not modelled.
- ReadCache.CachedStorage.Fetch: key rendering is taken as injective and JSON and SCALE encoding as inverse pairs, so the error for a corrupt archived answer does not arise; `iter` is not cached and not modelled.
- Identities.Store.PutIdentity: the row is its raw JSON, from which the other columns are derived; writing below blocks the table already holds is not covered, nor guaranteed by the code.
- Codec.PayloadRoundTripIff: stops at the bytes; their lossy decoding as UTF-8 is not modelled.
- Ss58.RoundTripIff: base58 is an inverse pair and Blake2b a parameter.
- I/O errors, poisoned locks, two processes on one segment, and wrap-around of file sizes and block numbers at 2^64.
- The second archive a tiering pass walks, the read cache, which moves the same way and sets no watermark.
- Following the head, which stores and advances one block at a time after the backfill.
- Networking, endpoints, metadata download, the light client, and configuration; `seen_runtimes` marks a runtime before storing it, so metadata completeness is not claimed.
- Postgres itself: a statement is one atomic update and a transaction is all or nothing; update times and error texts are dropped.
- The rows of the `segments` table, usernames, registrars, judgements and the bootstrap sweep.
- The lowest stored number of a chain, disk usage, and the check on chain identifiers in paths: each reads off one function.
