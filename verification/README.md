# Rock Node in Dafny

A model of the block store and the two block streams of Rock Node, with proofs about all of their runs.

The node keeps blocks in two tiers. Live blocks go to a hot tier, in one atomic batch with the ledger:
the latest number, the highest contiguous number, and the ranges recorded as missing. An archiver moves
full batches from the front of the hot tier into pairs of files. A backfill worker asks peers for the
recorded ranges. Publisher sessions compete for block numbers, hand complete blocks to a verifier and to
persistence, and are told what became of them. Subscriber sessions are sent ranges of blocks.

## How the model is built

- `Basics`, `Gaps`, `Database`, `Ledger`: blocks, the range map, the database as column families with
  atomic batches, and the effect of one live write.
- `ColdFiles`, `ArchiveNames`: the bytes of index and data files, and their names.
- `Tiers`, `TierInvariant`, `TierSteps`, `TierTheorems`, `Arithmetic`: the two-tier store as a transition
  system in which an archival is five separate steps and a restart can follow any of them; its invariant;
  what holds over every run.
- `Writer`, `Service`: the operations as methods and as the class `PersistenceService`, each a step of that
  system. A service is valid when its state is reachable.
- `GapFill`, `Backfill`: what gap checks do to the ledger, and the worker that runs them.
- `Sessions`, `Election`, `Accounting`, `Replies`: publisher sessions as a transition system with one step per
  uninterrupted stretch of a session; the look-up and the insertion of a winner are separate steps, and so
  are the two halves of every release.
- `Pipeline`, `Publishing`, `Handlers`: cache, verifier, persistence and store below the sessions; the main
  results about whole runs; the two event handlers.
- `Publisher`, `Subscriber`: the sessions as classes.
- `Scenarios`: methods that produce runs in which the store falls short.

Histories are kept beside the state, to say what a run has done: the blocks written and the blocks kept, the
chunks archived, the elections won and settled, what was submitted and acknowledged.

## Where the code does less than one would expect

- Archive names take ten digits. A batch that ends at 10^10 or above is archived and removed from the hot
  tier, but its index is never loaded (`ArchivalKeepsReadsIff`, `ParseOfRender`, `LongNameIsLost`).
- A compressed block of 4 GiB or more gets a wrong length in its index record (`ArchiveReadsBack`).
- The archiver is woken by a gap fill only if batches start at multiples of the batch size (`WakeupIff`,
  `SkippedBatchSleepsOn`).
- A block written again while its batch is being archived is lost when the batch leaves the hot tier
  (`LosesIff`, `LateWriteSurvivesIff`, `LateWriteIsLost`); a restart before then saves it
  (`RestartKeepsReads`). Nothing else is ever lost (`PunctualStoreIsMap`).
- The earliest number is set by the first live write and not lowered by later ones. Blocks below it are
  readable, but no stream may start at them (`ReadableRefusedIff`, `EarliestStaysLeastIff`,
  `EarlierBlockIsRefused`).
- The first number of a historical batch is recorded last. After a stop before that, in a store that has an
  earliest number, its blocks are readable but no stream may start at them (`BatchStaysLeastIff`,
  `RestartStaysLeastIff`, `StopBeforeRecord`).
- The cold lookup asks one chunk only, the last that starts at or below the number. So a number of a batch is
  hidden exactly by a chunk that starts above the batch's first number and not above the number itself; what
  is read is that chunk's older block, or, past its end, nothing (`BatchShowsIff`, `ChunkHidesNewerBlock`).
- A subscriber looks for a block before it listens for announcements. A block announced in between is not
  heard of, and the session can time out beside it (`ProcessNextBlock`, `AnnouncementIsMissed`).
- The comment on the walk after a gap fill says the next write advances the counter. The records above it
  are in fact cleared by a second gap check only (`StreamLeavesRecords`, `GapFillConverges`).
- A header sent while a block is open does not clear the buffer. The block is then acknowledged under one
  number and stored under another (`HeaderIntoOpenBlock`, `ReportedReadableIff`, `MisfiledExample`).
- A session that loses an election in the race window is told to skip its previous number
  (`LostRaceNames`, `LostRaceExample`).

## Model

| member | source | states |
|---|---|---|
| `Gaps.FindContainingGapScans` | crates/rock-node-persistence-plugin/src/state.rs:127-144 | On a map of separated ranges, the lookup of the single range at or before a number answers exactly as a scan of all ranges would, and returns the range that contains the number. |
| `Gaps.AddGapRange` | crates/rock-node-persistence-plugin/src/state.rs:146-202 | The batch built for a new range leaves separated, non-adjacent ranges that cover exactly what was covered before together with the range; an empty range changes nothing. |
| `Gaps.CollapseFrom` | crates/rock-node-persistence-plugin/src/state.rs:180-198 | The forward sweep deletes exactly the ranges that touch the growing merged range and stops before the first that does not. |
| `Gaps.FillGapBlock` | crates/rock-node-persistence-plugin/src/state.rs:204-219 | Filling one number leaves separated ranges that cover exactly what was covered before without that number; a number in no range changes nothing. |
| `Gaps.Canonical` | crates/rock-node-persistence-plugin/src/state.rs:146-219 | Two maps of separated ranges that cover the same numbers are equal, so the results above are fixed completely by what they cover. |
| `Ledger.Walk` | crates/rock-node-persistence-plugin/src/service.rs:143-151 | The walk ends at the limit or directly before a recorded gap, and steps over unrecorded numbers only. |
| `Writer.BuildWriteBatch` | crates/rock-node-persistence-plugin/src/service.rs:115-173 | Committing the batch has the effect of one live write on every column family: the block, latest, true earliest, earliest hot, the gap records and the highest contiguous number, each as a function of the state before the batch. |
| `Writer.PushLedger` | crates/rock-node-persistence-plugin/src/service.rs:134-171 | The three-way branch: beyond the next number a gap is added and the contiguous number stays; at or below it the number filled leaves the records and the walk decides the contiguous number, reading the gaps as they were before the batch. |
| `Ledger.WriteKeepsSound` | crates/rock-node-persistence-plugin/src/service.rs:121-171 | Every write keeps the ledger sound, lowers neither counter, moves latest to the maximum, and walks at most one number beyond the block written. |
| `Ledger.WriteEffect` | crates/rock-node-persistence-plugin/src/service.rs:115-173 | What one write does to every field of a sound ledger, in closed form: latest is the greater number, the earliest numbers are set once, a jump records exactly what it leaves out, a number at or below the contiguous one leaves the records, and the contiguous number moves exactly if the block follows it, by one, or two when the next is the latest. |
| `Ledger.WalkStops` | crates/rock-node-persistence-plugin/src/service.rs:143-170 | Where the walk ends in a sound ledger, in all three cases. |
| `Ledger.ShapeOfRanges` | crates/rock-node-persistence-plugin/src/service.rs:121-171 | The shape of the records in both readings: either the contiguous number is the latest and no range reaches above it, or it is at least two below and exactly one range reaches above it, ending just below the latest. |
| `ColdFiles.WriteTempFiles` | crates/rock-node-persistence-plugin/src/cold_storage/writer.rs:59-110 | Succeeds exactly if every block has a header; then the index holds one 20-byte big-endian record per block with the number it carries, whatever that is, its running offset and its 32-bit length, and the data file is the compressed blocks one after the other. |
| `ColdFiles.RecordRoundTrip` | crates/rock-node-persistence-plugin/src/cold_storage/reader.rs:20-27 | Decoding the 20 bytes of a record gives the record back, for all field values that fit. |
| `ColdFiles.MostSignificantFirst` | crates/rock-node-persistence-plugin/src/cold_storage/writer.rs:88-92 | The byte order of the records is big-endian. |
| `ColdFiles.SlicesTile` | crates/rock-node-persistence-plugin/src/cold_storage/writer.rs:78-102 | The slices named by the records follow one another from 0 to the end of the data file, and each is its block's bytes. |
| `ColdFiles.ArchiveReadsBack` | crates/rock-node-persistence-plugin/src/cold_storage/writer.rs:82-101 | Every block of an archive reads back exactly if no compressed block is 4 GiB or longer, the length being cut to 32 bits otherwise. |
| `ColdFiles.ArchiveRoundTrip` | crates/rock-node-persistence-plugin/src/cold_storage/reader.rs:41-60 | Reading any number of a batch through its index returns the bytes of that block. |
| `ColdFiles.ReadRawIff` | crates/rock-node-persistence-plugin/src/cold_storage/reader.rs:41-60 | Whatever the files hold: nothing is read exactly if the index has no whole record for the number; each error exactly for its own reason; otherwise what the bytes named by the record decompress to. |
| `ArchiveNames.ParseOfRender` | crates/rock-node-persistence-plugin/src/cold_storage/reader.rs:81-87 | Parsing the formatted index file name returns the range exactly if both numbers are below 10^10, and nothing otherwise. |
| `ArchiveNames.RenderInjective` | crates/rock-node-persistence-plugin/src/cold_storage/writer.rs:42-47 | Different archives and kinds of file never share a file name. |
| `ArchiveNames.RenderLayout` | crates/rock-node-persistence-plugin/src/cold_storage/writer.rs:42-47 | The name of every file spelled out: the fixed marks, and each number in decimal with at least ten digits. |
| `Writer.IsBatchComplete` | crates/rock-node-persistence-plugin/src/hot_tier.rs:61-76 | True exactly if every number of the batch is in the hot tier. |
| `Writer.ReadBlockBatch` | crates/rock-node-persistence-plugin/src/hot_tier.rs:78-92 | Returns the decoded blocks of the batch in order exactly if each is present and decodes, and otherwise names one that is not. |
| `Writer.BuildRetireBatch` | crates/rock-node-persistence-plugin/src/cold_storage/archiver.rs:122-131 | One commit removes the batch from the hot tier, moves the earliest hot number behind it and clears its skipped mark. |
| `Service.ScanAndBuildIndex` | crates/rock-node-persistence-plugin/src/cold_storage/reader.rs:89-123 | Whatever the order of the scan: each entry is that of an archive whose two files are there and whose numbers have at most ten digits, under its first number, and every such archive's first number has an entry. |
| `Service.LoadableIff` | crates/rock-node-persistence-plugin/src/cold_storage/reader.rs:125-150 | An index file is loaded exactly if its data file is there and both of its numbers have at most ten digits, and then as the range it was written for. |
| `Service.WriteArchive` | crates/rock-node-persistence-plugin/src/cold_storage/writer.rs:30-57 | Succeeds exactly for one or more blocks that all have headers; then the final files are named by the first and the last number, hold all blocks under their own numbers, and no other final file changes. For consecutive blocks this is an archive of the range. |
| `Service.WriteFrontTemporaries` | crates/rock-node-persistence-plugin/src/cold_storage/archiver.rs:105-114 | Reads the front batch from the hot tier and puts an archive of exactly those blocks into the two temporary files, touching no other file. |
| `TierInvariant.ReadRefinesMap` | crates/rock-node-persistence-plugin/src/service.rs:55-91 | Under the invariant of the store a read of any number returns the bytes of the block kept under it, or nothing if none was ever written; it never fails. |
| `TierSteps.NextKeepsInv` | crates/rock-node-persistence-plugin/src/service.rs:100-243 | Every step of the store keeps the invariant: live writes at any moment, historical batches and the recording of their first number, each step of an archival, skipping, files torn by a crash, and a restart after any of them. |
| `TierTheorems.StoreRefinesMap` | crates/rock-node-persistence-plugin/src/service.rs:55-91 | In every reachable state the two tiers read as a plain map from the numbers ever written to the block kept, and that is the last block written exactly if it was not lost. |
| `TierTheorems.LosesIff` | crates/rock-node-persistence-plugin/src/cold_storage/archiver.rs:105-131 | Of all steps of all runs, the one that loses a block is the retirement of a batch, and it loses exactly the blocks that were written again, with a different block, after the archiver had read them. |
| `TierTheorems.PunctualStoreIsMap` | crates/rock-node-persistence-plugin/src/service.rs:55-198 | In every run in which no block is written again while its batch is being archived, every read returns exactly the last block written. |
| `TierTheorems.MaintenanceKeepsReadsIff` | crates/rock-node-persistence-plugin/src/cold_storage/archiver.rs:98-140 | A step of an archival, a crash between two of them, or a restart keeps the read of a number exactly unless it retires a batch in which that number was written again after staging. |
| `TierTheorems.MaintenanceKeepsRecords` | crates/rock-node-persistence-plugin/src/cold_storage/archiver.rs:122-131 | The archiver and a restart change neither the gap records nor the latest nor the contiguous number. |
| `TierTheorems.StoreContiguous` | crates/rock-node-persistence-plugin/src/service.rs:121-171 | In every reachable state the gap records have their shape, everything above the seed up to the contiguous number can be read, and everything up to the latest can be read or is found in a recorded gap. |
| `TierTheorems.CountersNeverFall` | crates/rock-node-persistence-plugin/src/service.rs:121-171 | No step of any run lowers the latest or the highest contiguous number. |
| `TierTheorems.ArchivedChunksTile` | crates/rock-node-persistence-plugin/src/cold_storage/archiver.rs:51-140 | Over every run the archived chunks are full batches that follow one another from the first one to the earliest hot number. |
| `TierTheorems.OnlyFrontSkipped` | crates/rock-node-persistence-plugin/src/cold_storage/archiver.rs:82-91 | In every reachable state only the batch at the earliest hot number can be recorded as skipped. |
| `TierTheorems.WakeupIff` | crates/rock-node-persistence-plugin/src/service.rs:177-187 | Writing a missing block of a skipped front batch wakes the archiver exactly if the batch starts at a multiple of the batch size. |
| `TierTheorems.TriggersIff` | crates/rock-node-persistence-plugin/src/service.rs:177-187 | A write wakes the archiver exactly if its number was recorded as missing and lies in a batch recorded as skipped that starts at a multiple of the batch size. |
| `Scenarios.SkippedBatchSleepsOn` | crates/rock-node-persistence-plugin/src/service.rs:177-187 | A run with batches of two in which the skipped batch of blocks 1 and 2 is completed by the write of block 2, and nobody is woken. |
| `TierTheorems.RetireKeepsAlignment` | crates/rock-node-persistence-plugin/src/cold_storage/archiver.rs:122-128 | Archiving a batch keeps the remainder of the earliest hot number by the batch size. |
| `TierTheorems.ArchivalKeepsReadsIff` | crates/rock-node-persistence-plugin/src/cold_storage/archiver.rs:98-140 | A whole archival keeps every read exactly if its last number is below 10^10; beyond, the new index is not loaded and the batch is lost to readers. |
| `Scenarios.LongNameIsLost` | crates/rock-node-persistence-plugin/src/cold_storage/archiver.rs:98-140 | A run in which block 10^10 is written and archived by itself; it could be read before, and after the five steps nothing is read. |
| `TierTheorems.LateWriteSurvivesIff` | crates/rock-node-persistence-plugin/src/cold_storage/archiver.rs:105-131 | From any reachable state in the middle of an archival: once the archival has run to its end a number reads as before exactly if its block was not written again, with a different block, after the archiver had read it; otherwise the older block comes back. |
| `TierTheorems.RestartKeepsReads` | crates/rock-node-persistence-plugin/src/lib.rs:112-140 | A restart at any moment of an archival keeps every read, that of a block written late included. |
| `Scenarios.LateWriteIsLost` | crates/rock-node-persistence-plugin/src/cold_storage/archiver.rs:105-131 | A run in which block 1 is written again after its batch was copied, and the older block 1 is read at the end. |
| `TierTheorems.BatchShowsIff` | crates/rock-node-persistence-plugin/src/cold_storage/reader.rs:167-175 | When an archive is loaded beside the chunks of a reachable store, a number of it that is not hot reads as the archive has it exactly if no chunk starts above the archive's first number and not above that number, or the cold tier had the same block; otherwise it reads as the cold tier had it, which past the end of that chunk is nothing. |
| `Scenarios.ChunkHidesNewerBlock` | crates/rock-node-persistence-plugin/src/cold_storage/reader.rs:167-175 | A run in which blocks 1 and 2 are cold, 0 and another block 1 are written live and archived in five steps, and the older block 1 is read. |
| `TierTheorems.EarliestStaysLeastIff` | crates/rock-node-persistence-plugin/src/service.rs:130-132 | A live write keeps the recorded earliest number the least of all stored ones exactly if it does not go below it. |
| `TierTheorems.BatchStaysLeastIff` | crates/rock-node-persistence-plugin/src/service.rs:220-231 | So does a batch, once its files are in place and before its first number is recorded, exactly if an earliest number at or below its first is on record. |
| `TierTheorems.RecordedBatchIsLeast` | crates/rock-node-persistence-plugin/src/state.rs:71-83 | With its first number recorded it always does: the record is then the smaller of the number before and the batch's first, or the first if there was none. |
| `TierTheorems.EarliestIsMinimum` | crates/rock-node-persistence-plugin/src/state.rs:71-83 | In every run the recorded earliest number is that of a readable block, and where it is not above any stored block it is exactly the smallest number stored; there is none exactly while nothing is stored. |
| `TierTheorems.RestartStaysLeastIff` | crates/rock-node-persistence-plugin/src/lib.rs:118-138 | After a restart the recorded earliest number is the least exactly if it was before or none was on record: a stop before a batch is recorded is made good only in a store without an earliest number. |
| `TierTheorems.InitializeIs` | crates/rock-node-persistence-plugin/src/lib.rs:118-142 | Whatever start-up finds, it changes only what is missing: the earliest number becomes the smallest that is hot or starts a loaded chunk, if any, and the contiguous number the one below the configured start. |
| `Scenarios.StopBeforeRecord` | crates/rock-node-persistence-plugin/src/service.rs:220-231 | A run in which a stop comes before the batch of blocks 1 and 2, below the hot block 5, is recorded: after the restart block 1 can be read and a stream from it on is refused. |
| `TierTheorems.OthersKeepEarliestLeast` | crates/rock-node-persistence-plugin/src/state.rs:71-83 | No step of the archiver, no restart and no recording of a number makes the recorded earliest number cease to be the least. |
| `Service.PersistenceService.constructor` | crates/rock-node-persistence-plugin/src/lib.rs:108-140 | A new store is the initial state of the model, with the contiguous number one below the configured start. |
| `Service.PersistenceService.Reopen` | crates/rock-node-persistence-plugin/src/lib.rs:112-140 | From any state, in the middle of an archival too, a restart leaves a reachable state with every archive of the directory indexed, the files and the database as they were but for a missing earliest number, which becomes the smallest stored; reads stay as they were by RestartKeepsReads. |
| `Service.PersistenceService.ReadBlock` | crates/rock-node-persistence-plugin/src/service.rs:55-91 | Returns the block kept under the number, or nothing; that is the last block written exactly if it was not lost. |
| `Service.PersistenceService.WriteBlock` | crates/rock-node-persistence-plugin/src/service.rs:100-198 | At any moment of an archival: a block without a header is refused and changes nothing; any other is one live write of the model with the effect WriteEffect states field by field, and the archiver is woken exactly if the number was recorded missing and lies in an aligned batch recorded as skipped. |
| `Service.PersistenceService.WriteBlockBatch` | crates/rock-node-persistence-plugin/src/service.rs:200-243 | An empty batch changes nothing; any other is placed in the cold tier and loaded, and in a second step the true earliest number becomes the batch's first if that is lower or there was none; nothing else of the database changes. |
| `Service.PersistenceService.StageFront` | crates/rock-node-persistence-plugin/src/cold_storage/archiver.rs:105-114 | Writes the temporary files of the front batch as one step of the model. |
| `Service.PersistenceService.MoveDataFile` | crates/rock-node-persistence-plugin/src/cold_storage/writer.rs:53-53 | Renames the data file as one step of the model. |
| `Service.PersistenceService.MoveIndexFile` | crates/rock-node-persistence-plugin/src/cold_storage/writer.rs:54-54 | Renames the index file as one step of the model. |
| `Service.PersistenceService.LoadNewIndex` | crates/rock-node-persistence-plugin/src/cold_storage/archiver.rs:115-120 | Loads the new index as one step of the model. |
| `Service.PersistenceService.RetireFront` | crates/rock-node-persistence-plugin/src/cold_storage/archiver.rs:122-131 | Drops the batch from the hot tier as one step of the model. |
| `Service.PersistenceService.ArchiveBatch` | crates/rock-node-persistence-plugin/src/cold_storage/archiver.rs:98-140 | Moves exactly the front batch, keeps the stored content and every other field of the database, and leaves a reachable state. |
| `Service.PersistenceService.ArchiveTurn` | crates/rock-node-persistence-plugin/src/cold_storage/archiver.rs:54-93 | A batch is archived exactly if the window from the earliest hot number to the latest is larger than the limit and the front batch complete; it is marked as skipped exactly if the window is too large and the batch incomplete; otherwise nothing changes. |
| `Service.PersistenceService.RunArchivalCycle` | crates/rock-node-persistence-plugin/src/cold_storage/archiver.rs:51-96 | The cycle ends; a window that fits on entry leaves everything as it is; otherwise exactly the numbers from the old to the new front leave the hot tier, each batch while the window was too large, a new mark is on an incomplete front in a window still too large, and the stored content is unchanged. |
| `Service.PersistenceService.MarkSkipped` | crates/rock-node-persistence-plugin/src/cold_storage/archiver.rs:87-89 | Records the incomplete front batch as skipped as one step of the model. |
| `GapFill.StreamFills` | crates/rock-node-persistence-plugin/src/service.rs:134-171 | A stream of consecutive blocks that starts within reach of the contiguous stretch carries it at least to the end of the stream, opens no gap, and clears every record in what was contiguous before. |
| `GapFill.AttemptsFill` | crates/rock-node-backfill-plugin/src/worker.rs:382-454 | Several broken-off streams of a range lose nothing; a complete one at the end fills the range. |
| `GapFill.CycleFills` | crates/rock-node-backfill-plugin/src/worker.rs:362-458 | Whatever fails in between, a check fills every range that was served, loses nothing and opens no gap. |
| `GapFill.AnyCycleGrows` | crates/rock-node-backfill-plugin/src/worker.rs:362-458 | A gap check with any failures keeps the ledger sound, forgets no block, lowers no counter and opens no gap. |
| `GapFill.TraceStaysSound` | crates/rock-node-persistence-plugin/src/service.rs:121-171 | Whatever is written, in whatever order, the ledger stays sound and neither counter falls. |
| `GapFill.FirstCycleReachesLatest` | crates/rock-node-backfill-plugin/src/worker.rs:362-458 | One gap check whose ranges are all delivered brings the contiguous number to the latest. |
| `GapFill.SecondCycleClears` | crates/rock-node-backfill-plugin/src/worker.rs:362-458 | From there, one more clears every gap record. |
| `GapFill.GapFillConverges` | crates/rock-node-backfill-plugin/src/worker.rs:362-458 | From any sound state two gap checks whose ranges are all delivered leave no record, the contiguous number at the latest, and every number in between stored. |
| `Backfill.TwoChecksConverge` | crates/rock-node-backfill-plugin/src/worker.rs:362-458 | From any reachable store, at any moment of an archival, and with any steps of the archiver and restarts between the writes: two checks whose recorded ranges were all delivered end in a reachable store with no recorded gap, the contiguous number at the unchanged latest, and every number above the seed up to it readable. |
| `Backfill.ShiftIsTrace` | crates/rock-node-backfill-plugin/src/worker.rs:362-458 | Whatever the archiver does between the writes of a check, the gap records and both counters are those of the writes alone, and the store stays reachable. |
| `Backfill.ReplayIsReady` | crates/rock-node-backfill-plugin/src/worker.rs:481-541 | Streamed blocks are live writes: after any of them the store is reachable again and can take more. |
| `Backfill.OneFullPeerIsGenerous` | crates/rock-node-backfill-plugin/src/worker.rs:362-458 | A single peer that has every block and streams what it is asked for meets the condition of RunGapFillLoop. |
| `GapFill.StreamLeavesRecords` | crates/rock-node-persistence-plugin/src/service.rs:139-152 | A stream leaves every record above the contiguous number as it was, so the first check advances the counter and only a later one clears the records. |
| `Backfill.TryPeer` | crates/rock-node-backfill-plugin/src/worker.rs:59-88 | A stream is found exactly if one of the first four attempts connects after errors only; every attempt but the last was an error, the last was not or was the fourth, and the sleep is 0, 1, 3 or 7 seconds for one to four attempts. |
| `Backfill.TryRound` | crates/rock-node-backfill-plugin/src/worker.rs:58-89 | One pass over the peers finds a stream exactly if one of some peer's first four attempts connects after errors only, within four attempts and seven seconds per peer. |
| `Backfill.StreamBlocksFromPeers` | crates/rock-node-backfill-plugin/src/worker.rs:48-103 | For any peers and outcomes the search ends within twenty attempts and thirty-five seconds of sleep per peer, and succeeds exactly if some peer answers in one of five rounds. |
| `Backfill.GetAllGaps` | crates/rock-node-backfill-plugin/src/worker.rs:543-554 | Returns exactly the recorded ranges, in ascending order. |
| `Backfill.EffectiveGaps` | crates/rock-node-backfill-plugin/src/worker.rs:376-379 | Cutting the recorded ranges off at the configured start changes none of them, in every sound ledger. |
| `Backfill.EffectiveIff` | crates/rock-node-backfill-plugin/src/worker.rs:376-379 | Of any ranges, exactly those that reach the configured start are asked for, from there on. |
| `Backfill.FinalIs` | crates/rock-node-backfill-plugin/src/worker.rs:381-455 | The search for a range ends with a reply exactly if some peer has, among its first four replies and after ones worth retrying only, one whose first and last number span the range and whose stream ends well; it is then the first such reply of the first such peer. |
| `Backfill.SuppliedIff` | crates/rock-node-backfill-plugin/src/worker.rs:381-455 | A range is supplied exactly if the stream of that reply is as long as the range. |
| `Backfill.CheckReaches` | crates/rock-node-backfill-plugin/src/worker.rs:362-458 | A check brings the contiguous number up to the end of every recorded range that is supplied, whatever becomes of the others. |
| `Backfill.BackfillWorker.StreamFromPeer` | crates/rock-node-backfill-plugin/src/worker.rs:481-541 | Writes exactly the blocks before the first without a header, in order and each under its own number, and fails exactly if there is one without; consecutive blocks give a stream of the range. |
| `Backfill.BackfillWorker.FillFromPeer` | crates/rock-node-backfill-plugin/src/worker.rs:382-454 | Asks a peer one to four times: every reply but the last was worth retrying, the last was not or was the fourth, and it is the result exactly if it spans the range and its stream ends well. Nothing is written from replies that do not span the range. With peers that stream in order the attempts are streams of the range. |
| `Backfill.BackfillWorker.FillGap` | crates/rock-node-backfill-plugin/src/worker.rs:381-455 | Asks the peers in order, at most four times each, and ends with the first reply of the first peer that spans the range and ends well, or with none if there is none; with peers that stream in order, the range is filled if that stream delivered all of it. |
| `Backfill.BackfillWorker.RunSingleGapCheck` | crates/rock-node-backfill-plugin/src/worker.rs:362-458 | Against any peers the store stays reachable, changed by live writes only; against peers that stream in order every range recorded at the start is visited, once and in order, and the contiguous number reaches the end of each that is supplied. |
| `Backfill.BackfillWorker.RunGapFillLoop` | crates/rock-node-backfill-plugin/src/worker.rs:228-247 | Against any peers no counter falls. After two or more ticks against peers that deliver every range no gap is recorded, the contiguous number is the unchanged latest, and every number above the seed up to it can be read. |
| `Subscriber.RefusedIff` | crates/rock-node-subscriber-plugin/src/session.rs:209-340 | Each code exactly for its own reason: both ends given in the wrong order; a given start below the earliest block; a given start above latest plus look-ahead in 64-bit arithmetic, or the earliest block asked for up to an end before it or while there is none. Every other request starts where it asks to. |
| `Subscriber.ReadableRefusedIff` | crates/rock-node-subscriber-plugin/src/session.rs:209-340 | In every reachable store, a request that starts at a readable number above the seed and up to the latest is refused exactly if it starts below the recorded earliest number, or if latest plus look-ahead overflows 64 bits and falls below its start. |
| `Scenarios.EarlierBlockIsRefused` | crates/rock-node-persistence-plugin/src/service.rs:130-132 | A run in which block 3 is written after block 5, can be read, and a stream from it on is refused. |
| `Subscriber.OrderedIsConsecutive` | crates/rock-node-subscriber-plugin/src/session.rs:93-166 | What a subscriber is sent carries consecutive numbers from its start, which is what a gap check relies on. |
| `Subscriber.SubscriberSession.WaitForNewBlock` | crates/rock-node-subscriber-plugin/src/session.rs:168-205 | Ends well exactly if, after announcements of earlier blocks only, a block at or above the needed one is announced or the session has lagged; times out exactly if only earlier blocks are announced; fails exactly if the channel closes after such announcements only. |
| `Subscriber.SubscriberSession.ProcessNextBlock` | crates/rock-node-subscriber-plugin/src/session.rs:133-166 | Sends the needed block whenever the store has it and the client is there, with its own number; otherwise sends nothing; ends exactly past the end of a finite request; times out exactly if the block was not there when the session looked and only earlier ones are announced once it listens. |
| `Scenarios.AnnouncementIsMissed` | crates/rock-node-subscriber-plugin/src/session.rs:143-169 | A run in which block 5 is stored and announced after a session has looked for it and before it listens, and the session times out. |
| `Subscriber.SubscriberSession.ExecuteStream` | crates/rock-node-subscriber-plugin/src/session.rs:93-132 | Whatever the store does between turns, the blocks sent are those numbered from the start on, in order, each as stored when sent, none past the end. The stream goes on exactly for the turns in which the needed block is sent or announced later, and ends exactly as the next turn says: shut down, past the end, disconnected, closed or timed out. It ends well only after exactly the requested range, and does so when the range is there. |
| `Subscriber.SubscriberSession.Run` | crates/rock-node-subscriber-plugin/src/session.rs:71-91 | Every code is reported exactly for its reason: the three refusals as RefusedIff has them, success exactly if the stream ends well, and a failure otherwise; a refused request is sent nothing. |
| `Publisher.SharedState.SendToAll` | crates/rock-node-publish-plugin/src/session_manager.rs:768-770 | Every registered session that is not excepted gets the message once, the others nothing. |
| `Publisher.SessionManager.FindHeader` | crates/rock-node-publish-plugin/src/session_manager.rs:95-103 | Returns the number of the first header among the items. |
| `Publisher.SessionManager.HandleAccept` | crates/rock-node-publish-plugin/src/session_manager.rs:385-435 | Buffers the items up to the first proof; a proof completes the block and what follows it is dropped. |
| `Publisher.SessionManager.HandleRequest` | crates/rock-node-publish-plugin/src/session_manager.rs:76-87 | From any sound session a request is at most two steps of the model: the session stays sound, no entry of another session changes, and what it owes changes exactly by what is logged. What the publisher is told, and what is taken in, is as RequestIsAnswered states; a block to submit is all that was accepted, cut after the first proof, under a number the session holds. |
| `Replies.RequestIsAnswered` | crates/rock-node-publish-plugin/src/session_manager.rs:89-435 | For every request and every state: a header is answered Behind with the latest number exactly below it, DuplicateBlock exactly at it or for a number the session holds, SkipBlock exactly for a number above it that another holds, and with nothing exactly for a free number above it, which is then taken; a set is refused exactly if empty, too long or with a late header; other items join the block exactly if the session was accepted for it and holds it; an end of block is taken exactly for that number. Others are told nothing. |
| `Replies.HeaderIsAnswered` | crates/rock-node-publish-plugin/src/session_manager.rs:223-335 | The first half of that for a header, as one step of the model: a free number above the latest opens an election and nothing is sent. |
| `Replies.PersistedIsHeard` | crates/rock-node-publish-plugin/src/session_manager.rs:733-780 | A persisted block is acknowledged to every registered session once, its own publisher included. |
| `Replies.FailureIsHeard` | crates/rock-node-publish-plugin/src/session_manager.rs:781-823 | A failed verification tells the publisher of the bad proof and every other session to resend, each once. |
| `Publisher.SessionManager.FinishPersisted` | crates/rock-node-publish-plugin/src/session_manager.rs:733-780 | Two steps of the model that settle the number once: it alone is released, what is owed for it falls by one, the latest number is set, every registered session is sent one acknowledgement of it, and the session is idle and sound. |
| `Publisher.SessionManager.FinishVerificationFailed` | crates/rock-node-publish-plugin/src/session_manager.rs:781-823 | Two steps of the model that settle the number once: it alone is released, what is owed for it falls by one, the publisher is told of the bad proof and every other session to resend it, and the session goes on to leave. |
| `Publisher.SessionManager.FinishTimedOut` | crates/rock-node-publish-plugin/src/session_manager.rs:824-868 | Two steps of the model that settle the number once: it alone is released, what is owed for it falls by one, every other session is told to resend it and the publisher nothing, and the session goes on to leave. |
| `Publisher.SessionManager.Leave` | crates/rock-node-publish-plugin/src/service.rs:75-107 | Steps of the model that release exactly the numbers the session still holds, each once, after which it holds and owes nothing and is unregistered; every other session is sent one call to resend for each, in that order, and nothing else. |
| `Publisher.PathSettles` | crates/rock-node-publish-plugin/src/session_manager.rs:76-87 | Any sequence of steps from a sound session ends in one, leaves the entries of others alone, and logs exactly what changes in what is owed. |
| `Election.ItemsKeep` | crates/rock-node-publish-plugin/src/session_manager.rs:89-186 | Any set of items keeps a sound session sound: after it no block is open, or the buffer is all that was accepted, starts with a header the session holds, and has no proof, or a complete block is ready. |
| `Election.EndOfBlockKeeps` | crates/rock-node-publish-plugin/src/session_manager.rs:554-590 | So does any end of block: what it completes is all that was accepted. |
| `Election.SessionStepKeeps` | crates/rock-node-publish-plugin/src/session_manager.rs:89-435 | Every step of a session keeps its own invariant and leaves the entries of all other sessions alone. |
| `Election.StepKeepsSound` | crates/rock-node-publish-plugin/src/session_manager.rs:223-373 | Every step of any session keeps all sessions sound: accepting sessions are recorded winners, winners are known, and sessions that have not gone are registered. |
| `Election.ContinuationAccepted` | crates/rock-node-publish-plugin/src/session_manager.rs:338-373 | While a session accepts a block its items are never refused: neither a changed nor a vanished winner can be observed. |
| `Election.LostRaceNames` | crates/rock-node-publish-plugin/src/session_manager.rs:318-333 | A session that loses the race between the look-up and the insertion is told to skip the right number only for block 0 with no block open; the reply names the session's previous number. |
| `Election.LostRaceExample` | crates/rock-node-publish-plugin/src/session_manager.rs:318-333 | Two sessions look up block 5, one wins it, and the other is told to skip block 0. |
| `Election.HeaderIntoOpenBlock` | crates/rock-node-publish-plugin/src/session_manager.rs:299-317 | A header for a free number while a block is open wins its election, and what is then handed over under that number is a block numbered by the header that opened it. |
| `Election.MisfiledExample` | crates/rock-node-publish-plugin/src/session_manager.rs:299-317 | Block 5 is opened and block 7 sent whole: block 5 is submitted as number 7. |
| `Accounting.SessionStepBalances` | crates/rock-node-publish-plugin/src/session_manager.rs:732-869 | A step changes what a session owes for a number exactly by what it adds to the log of elections, acknowledgements and calls to resend. |
| `Accounting.OthersHearOfSettling` | crates/rock-node-publish-plugin/src/session_manager.rs:733-868 | Whatever a session does, every other registered session hears exactly of the elections it settles: one acknowledgement or one call to resend, and nothing else. |
| `Publishing.MutualExclusion` | crates/rock-node-publish-plugin/src/session_manager.rs:223-373 | In every interleaving at most one session accepts or awaits a block, and it is the recorded winner. |
| `Publishing.WinnersAreActive` | crates/rock-node-publish-plugin/src/service.rs:75-107 | In every run each recorded winner is a registered session that has not gone. |
| `Publishing.HeldNumbersAreSigned` | crates/rock-node-publish-plugin/src/session_manager.rs:223-335 | In every run the numbers held are below 2^63, so that their signed and unsigned readings agree. |
| `Replies.SignedRoundTrip` | crates/rock-node-publish-plugin/src/session_manager.rs:96-103 | The signed reading of a number determines it, is negative exactly from 2^63 on, and is the number itself below. |
| `Publishing.BetweenRequests` | crates/rock-node-publish-plugin/src/session_manager.rs:89-186 | In every run a session between requests is idle with an empty buffer, or accepts a block it has won, with a buffer that starts with a header it holds and has no proof. |
| `Publishing.HandsOverWhatItAccepted` | crates/rock-node-publish-plugin/src/session_manager.rs:385-435 | In every run a session hands over all items it accepted since it opened the block, in order, cut after the first proof, however they came in sets and also on an end of block; when no block was open before, the block starts with the header of the number won. |
| `Publishing.ReleaseAccounting` | crates/rock-node-publish-plugin/src/session_manager.rs:732-869 | In every run and for every number, elections won = acknowledgements + calls to resend + sessions that still owe one; outside a release in progress the last term is 1 exactly if the number is held. |
| `Publishing.AllSettled` | crates/rock-node-publish-plugin/src/service.rs:75-107 | When every session has gone no number is held and every election won was settled. |
| `Publishing.EachAckIsDurable` | crates/rock-node-publish-plugin/src/session_manager.rs:689-780 | For each acknowledgement in any run: before it, the very items its winner had accepted, cut after the first proof, were written, and verified where there is a verifier; under its number exactly if its header came while no block was open, and then the number could already be read. |
| `Publishing.AcksAreSubmissions` | crates/rock-node-publish-plugin/src/session_manager.rs:689-780 | In every run a number has been acknowledged exactly once for each submission under it heard to be persisted, and each of these was written as submitted. |
| `Publishing.AcknowledgedIsDurable` | crates/rock-node-publish-plugin/src/session_manager.rs:689-780 | If any publisher was told of an acknowledgement of a number, a submission under it was verified, where there is a verifier, written unchanged, and heard of; it can be read if its header came while no block was open. |
| `Publishing.DurableFromThenOn` | crates/rock-node-publish-plugin/src/session_manager.rs:689-780 | It stays readable in every later state of the run. |
| `Pipeline.ReportedReadableIff` | crates/rock-node-persistence-plugin/src/lib.rs:289-331 | A block reported persisted under a number not stored before can be read under that number exactly if its header came while no block was open. |
| `Pipeline.PersistKeepsRecords` | crates/rock-node-persistence-plugin/src/lib.rs:289-331 | Whatever persistence takes from the cache, reported events are for submitted blocks, written unchanged, and verified where there is a verifier. |
| `Pipeline.VerifyDecides` | crates/rock-node-verifier-plugin/src/lib.rs:89-115 | The verifier settles every event once: it passes on exactly what is still in the cache and reports the rest as failed. |
| `Pipeline.PersistDecides` | crates/rock-node-persistence-plugin/src/lib.rs:289-331 | Persistence takes an event once, from the verifier where there is one, writes exactly what is still in the cache under its own number, and reports it; otherwise nothing is written or reported. |
| `Handlers.VerifyEvent` | crates/rock-node-verifier-plugin/src/lib.rs:89-115 | A submitted block passes exactly if it is still in the cache, and what is looked at is the block submitted: it fails only by eviction. For every event this is the verifier's step of the model. |
| `Handlers.ProcessEvent` | crates/rock-node-persistence-plugin/src/lib.rs:289-331 | Announces the event exactly if the cached bytes decode to a block with a header, after writing that block, and otherwise changes nothing. For every event this is persistence's step of the model. |

## Left out

- Service.PersistenceService.WriteBlock: requires a number below 2^64 - 1, because the code computes the next number, and, for the write that opens the hot tier, a number above everything in the cold tier; BatchShowsIff says exactly what is hidden otherwise.
- Service.PersistenceService.WriteBlockBatch: requires consecutive blocks that are not stored yet, lie below the hot tier and fit the file formats, because the cold lookup needs chunks that do not overlap. To readers its two files and the loaded index appear at once. A stop leaves torn temporaries or a data file without an index (the step TearFiles), or the batch in place with its first number not yet recorded.
- Service.PersistenceService.StageFront: requires blocks that fit the file formats; what happens otherwise is stated by ArchivalKeepsReadsIff and ArchiveReadsBack.
- Service.PersistenceService.ArchiveBatch: as StageFront. A load of the new index that fails for another reason is not modelled.
- Service.PersistenceService.ArchiveTurn: as StageFront.
- Service.PersistenceService.RunArchivalCycle: as StageFront, and with no write in between; interleaved writes are covered by the transition system.
- Backfill.BackfillWorker.StreamFromPeer: no block with the number 2^64 - 1, as WriteBlock. That a range is filled is stated for peers that stream in order, which is what OrderedIsConsecutive proves of a subscriber session.
- Backfill.BackfillWorker.FillFromPeer: as StreamFromPeer; sleeping is only counted in TryPeer.
- Backfill.BackfillWorker.FillGap: as StreamFromPeer.
- Backfill.BackfillWorker.RunSingleGapCheck: as StreamFromPeer, and as a method no one else moves during a check; TwoChecksConverge has the archiver move between the writes. Live writes of publishers in between are not modelled.
- Backfill.BackfillWorker.RunGapFillLoop: as RunSingleGapCheck.
- Publisher.SessionManager.HandleRequest: as a method it runs without interruption; all interleavings are covered by the transition system.
- Handlers.ProcessEvent: requires that the store can take the write, as WriteBlock does.
- Parallel calls of the block writer: writes are atomic steps, as each is one database batch.
- The periodic sweep of the winner map: it can remove the entry of a live session, so exclusion and accounting are stated without it.
- The latest number of the publisher is a plain store and can go down; nothing is claimed about its order, and a number can be published more than once after a time-out.
- A broadcast to all sessions is one step, and messages to a session are never lost before it leaves.
- A header looks at the latest number and at the winner in one step; no result turns on it.
- Channels of the publisher as sets of messages: their order, capacity and missed broadcasts are not modelled; a session may time out at any moment instead.
- Liveness of publishing: that a time-out or an outcome eventually comes is not modelled.
- RocksDB, protobuf, zstd, memory maps and file system: maps, atomic batches, and encoders with decoders that undo them.
- Continuous backfill, the choice of peers at random, and the connection handling of gRPC.
- Metrics, logging, configuration, plugin life cycle, and the session statistics.
- State management, query, block access, status and observability plugins.
