/** Runs of the store that show where it falls short: each produces the states it speaks of. */
module Scenarios {
  import opened ArchiveNames
  import opened Basics
  import opened ColdFiles
  import Gaps
  import opened Database
  import opened Service
  import opened Subscriber
  import opened Tiers
  import opened TierSteps
  import opened TierTheorems
  import opened Writer

  lemma OnlyStretch(cfg: Config, block: Block)
    requires cfg.batchSize == 1 && Archivable(cfg, 1, [block])
    ensures AllArchivable(cfg, map[1 := block])
  {
    forall first: nat, blocks: seq<Block> | IsStretch(cfg, map[1 := block], first, blocks)
      ensures Archivable(cfg, first, blocks)
    {
      assert first in map[1 := block] && blocks == [block];
    }
  }

  /** A store with nothing but block `n`, which is hot. */
  method OpenedAt(cfg: Config, n: nat, block: Block) returns (service: PersistenceService)
    requires ValidConfig(cfg) && Faithful(cfg.codec) && Numbered(block, n) && n < U64_MAX
    ensures fresh(service) && service.cfg == cfg && service.Valid()
    ensures service.history.content == map[n := block] && service.db.earliestHot == Some(n)
    ensures service.db.hot == map[n := cfg.codec.encode(block)] && service.db.skipped == {}
    ensures service.db.trueEarliest == Some(n) && (cfg.seed < n ==> service.db.latest == Some(n))
  {
    service := new PersistenceService(cfg, 0);
    var written := service.WriteBlock(block);
    assert service.history.content == map[n := block];
  }

  /** A store with nothing but block 1, which the archiver has copied to the cold tier. */
  method CopiedToCold(cfg: Config, block: Block) returns (service: PersistenceService)
    requires ValidConfig(cfg) && Faithful(cfg.codec) && cfg.batchSize == 1
    requires Numbered(block, 1) && Archivable(cfg, 1, [block])
    ensures fresh(service) && service.cfg == cfg && service.Sound() && service.phase.Loaded?
    ensures service.history.content == map[1 := block] && service.db.earliestHot == Some(1)
    ensures service.phase.blocks == [block]
  {
    service := OpenedAt(cfg, 1, block);
    OnlyStretch(cfg, block);
    service.PlaceFront();
    ReachableHot(cfg, service.Now());
    assert InFront(cfg, service.db.earliestHot, 1);
    StagedBlocks(cfg, service.db, service.history.content, service.phase.blocks);
  }

  /** Block 1 is written again after its batch was copied to the cold tier; the older one comes back. */
  method LateWriteIsLost(cfg: Config, older: Block, newer: Block) returns (ghost w: World, ghost w': World)
    requires ValidConfig(cfg) && Faithful(cfg.codec) && cfg.batchSize == 1
    requires Numbered(older, 1) && Numbered(newer, 1) && older != newer && Archivable(cfg, 1, [older])
    ensures Reachable(cfg, w) && Read(cfg.codec, w.store, 1) == Ok(Some(cfg.codec.encode(newer)))
    ensures Completes(cfg, w, w') && Reachable(cfg, w') && Lost(w'.history, 1)
    ensures Read(cfg.codec, w'.store, 1) == Ok(Some(cfg.codec.encode(older)))
  {
    var service := CopiedToCold(cfg, older);
    var written := service.WriteBlock(newer);
    w := service.Now();
    StoreRefinesMap(cfg, w, 1);
    service.RetireFront();
    w' := service.Now();
    assert 1 in Range(1, 1);
    StoreRefinesMap(cfg, w', 1);
  }

  /** Block 3 is written after block 5: it can be read, but a stream from it on is refused. */
  method EarlierBlockIsRefused(cfg: Config, first: Block, second: Block) returns (ghost w: World)
    requires ValidConfig(cfg) && Faithful(cfg.codec) && cfg.seed == 0
    requires Numbered(first, 5) && Numbered(second, 3)
    ensures Reachable(cfg, w) && Readable(cfg, w.store, 3)
    ensures Validate(Request(3, 5), w.store.db.trueEarliest, w.store.db.latest, 0)
            == Err(Validation(InvalidStartBlockNumber))
  {
    var service := new PersistenceService(cfg, 0);
    var one := service.WriteBlock(first);
    var two := service.WriteBlock(second);
    w := service.Now();
    StoreRefinesMap(cfg, w, 3);
  }

  /** A store with nothing but blocks 1 and 2, in the cold tier. */
  method ColdStart(cfg: Config, cold: seq<Block>) returns (service: PersistenceService)
    requires ValidConfig(cfg) && Faithful(cfg.codec)
    requires |cold| == 2 && Consecutive(cold, 1) && Archivable(cfg, 1, cold)
    ensures fresh(service) && service.cfg == cfg && service.Valid() && service.db.hot == map[]
    ensures service.phase.Idle? && service.db.earliestHot.None?
    ensures 1 in service.history.content && service.history.content[1] == cold[0]
    ensures service.indices.Keys == {1} && service.indices[1].start == 1 && service.indices[1].end == 2
  {
    service := new PersistenceService(cfg, 0);
    ghost var placed := service.WriteBlockBatch(cold);
    LoadsChunk(service.disk, map[], 1, cold);
  }

  /** A block is written, whatever lies in the cold tier. */
  method WriteAnywhere(cfg: Config, ghost w: World, n: nat, block: Block, db: Db)
    returns (db': Db, ghost w': World)
    requires db == w.store.db && Gaps.Separated(db.gaps) && Numbered(block, n) && n < U64_MAX
    ensures w'.store.db == db' && Written(cfg, w, w', n, block) && Gaps.Separated(db'.gaps)
  {
    var batch := BuildWriteBatch(cfg.seed, db, n, cfg.codec.encode(block));
    db' := Commit(db, batch);
    w' := World(w.store.(db := db'), w.history.(content := w.history.content[n := block],
                                                written := w.history.written[n := block]));
  }

  /** The two blocks below the hot tier's opening are written, whatever lies in the cold tier. */
  method WriteBelow(cfg: Config, ghost w: World, db: Db, batch: seq<Block>)
    returns (db': Db, ghost w1: World, ghost w2: World)
    requires Faithful(cfg.codec) && db == w.store.db && Gaps.Separated(db.gaps) && db.earliestHot.None?
    requires cfg.batchSize == 2 && |batch| == 2 && Consecutive(batch, 0)
    ensures Written(cfg, w, w1, 0, batch[0]) && Written(cfg, w1, w2, 1, batch[1]) && w2.store.db == db'
    ensures db'.earliestHot == Some(0) && FrontBlocks(cfg, db', batch)
  {
    var db1;
    db1, w1 := WriteAnywhere(cfg, w, 0, batch[0], db);
    db', w2 := WriteAnywhere(cfg, w1, 1, batch[1], db1);
  }

  /** What is left of an archival once the temporaries are written can always be done. */
  lemma Finish(cfg: Config, w: World) returns (moved: World, indexed: World, loaded: World, retired: World)
    requires ValidConfig(cfg) && w.store.phase.Staged? && w.store.db.earliestHot.Some?
    requires FrontFile(cfg, w.store.db.earliestHot, DataTemp) in w.store.disk
    requires FrontFile(cfg, w.store.db.earliestHot, IndexTemp) in w.store.disk
    ensures MoveData(cfg, w, moved) && MoveIndex(cfg, moved, indexed)
    ensures Load(cfg, indexed, loaded) && Retire(cfg, loaded, retired)
  {
    var Store(db, disk, indices, phase) := w.store;
    var front, blocks := db.earliestHot, phase.blocks;
    var disk2 := Rename(disk, FrontFile(cfg, front, DataTemp), FrontFile(cfg, front, Data));
    var disk3 := Rename(disk2, FrontFile(cfg, front, IndexTemp), FrontFile(cfg, front, Index));
    var loadedIndices := LoadIndex(disk3, indices, FrontFile(cfg, front, Index));
    moved := World(Store(db, disk2, indices, DataMoved(blocks)), w.history);
    indexed := World(Store(db, disk3, indices, IndexMoved(blocks)), w.history);
    loaded := World(Store(db, disk3, loadedIndices, Loaded(blocks)), w.history);
    retired := World(Store(DropFront(db, front.value, cfg.batchSize), disk3, loadedIndices, Idle),
                     w.history.(content := WithNumbers(w.history.content, front.value, blocks),
                                chunks := w.history.chunks[front.value := blocks],
                                archived := w.history.archived + [front.value]));
  }

  /** The archival of a complete front batch, step by step. */
  method ArchiveFrom(cfg: Config, ghost w: World, db: Db, disk: Disk, batch: seq<Block>)
    returns (ghost steps: seq<World>)
    requires ValidConfig(cfg) && w.store.db == db && w.store.disk == disk && w.store.phase.Idle?
    requires FrontBlocks(cfg, db, batch) && Consecutive(batch, db.earliestHot.value)
    ensures Archives(cfg, steps, batch) && steps[0] == w
  {
    var staged := WriteTemporaries(cfg, disk, db.earliestHot, batch);
    ghost var w1 := World(w.store.(disk := staged, phase := Staged(batch)), w.history);
    ghost var w2, w3, w4, w5 := Finish(cfg, w1);
    steps := [w, w1, w2, w3, w4, w5];
  }

  /**
   * Blocks 1 and 2 are cold. Then 0 and another block 1 are written live and archived: the older block
   * 1 is read.
   */
  method ChunkHidesNewerBlock(cfg: Config, cold: seq<Block>, batch: seq<Block>)
    returns (ghost w: World, ghost w1: World, ghost steps: seq<World>)
    requires ValidConfig(cfg) && Faithful(cfg.codec) && cfg.batchSize == 2
    requires |cold| == 2 && Consecutive(cold, 1) && Archivable(cfg, 1, cold)
    requires |batch| == 2 && Consecutive(batch, 0) && Archivable(cfg, 0, batch) && batch[1] != cold[0]
    ensures Reachable(cfg, w) && Archives(cfg, steps, batch)
    ensures Written(cfg, w, w1, 0, batch[0]) && Written(cfg, w1, steps[0], 1, batch[1])
    ensures Read(cfg.codec, steps[5].store, 1) == Ok(Some(cfg.codec.encode(cold[0])))
    ensures Read(cfg.codec, steps[5].store, 1) != Ok(Some(cfg.codec.encode(batch[1])))
  {
    var service := ColdStart(cfg, cold);
    w := service.Now();
    ReachableSeparated(cfg, w);
    var db;
    ghost var w2;
    db, w1, w2 := WriteBelow(cfg, w, service.db, batch);
    steps := ArchiveFrom(cfg, w2, db, service.disk, batch);
    HidesNewer(cfg, w, steps, cold, batch);
  }

  lemma HidesNewer(cfg: Config, w: World, steps: seq<World>, cold: seq<Block>, batch: seq<Block>)
    requires ValidConfig(cfg) && Faithful(cfg.codec) && cfg.batchSize == 2 && Reachable(cfg, w)
    requires w.store.db.hot == map[] && w.store.indices.Keys == {1}
    requires 1 in w.history.content && |cold| == 2 && w.history.content[1] == cold[0]
    requires |batch| == 2 && Consecutive(batch, 0) && Archivable(cfg, 0, batch) && Archives(cfg, steps, batch)
    requires steps[0].store.disk == w.store.disk && steps[0].store.indices == w.store.indices
    requires steps[0].store.db.earliestHot == Some(0)
    ensures Read(cfg.codec, steps[5].store, 1) == Ok(Some(cfg.codec.encode(cold[0])))
  {
    ArchivesPlaceFiles(cfg, steps, batch);
    StoreRefinesMap(cfg, w, 1);
    assert 1 in w.store.indices;
    BatchShowsIff(cfg, w, steps[5].store, 0, batch, 1);
  }

  /** A store with blocks 1 and 3, which has skipped the batch of 1 and 2. */
  method SkippedFront(cfg: Config, one: Block, three: Block) returns (service: PersistenceService)
    requires ValidConfig(cfg) && Faithful(cfg.codec) && cfg.seed == 0 && cfg.batchSize == 2
    requires Numbered(one, 1) && Numbered(three, 3)
    ensures fresh(service) && service.cfg == cfg && service.Valid()
    ensures service.db.skipped == {1} && service.db.earliestHot == Some(1) && service.db.hot.Keys == {1, 3}
  {
    service := OpenedAt(cfg, 1, one);
    var second := service.WriteBlock(three);
    assert InFront(cfg, service.db.earliestHot, 2);
    service.MarkSkipped();
  }

  lemma CompletesUnnoticed(cfg: Config, db: Db, hot: map<nat, bytes>)
    requires cfg.batchSize == 2 && db.skipped == {1} && hot.Keys == {1, 2, 3}
    ensures FrontComplete(cfg, hot, Some(1)) && !Triggers(cfg, db, 2)
    ensures forall s | s in db.skipped :: s % cfg.batchSize != 0
  {
  }

  /**
   * With batches of two, blocks 1 and 3 are written and the incomplete batch of 1 and 2 is skipped. The
   * write of block 2 completes that batch and wakes nobody.
   */
  method SkippedBatchSleepsOn(cfg: Config, one: Block, two: Block, three: Block)
    returns (ghost w: World, ghost w': World, woken: Result<bool, ()>)
    requires ValidConfig(cfg) && Faithful(cfg.codec) && cfg.seed == 0 && cfg.batchSize == 2
    requires Numbered(one, 1) && Numbered(two, 2) && Numbered(three, 3)
    ensures Reachable(cfg, w) && w.store.db.skipped == {1} && LiveWrite(cfg, w, w', 2, two)
    ensures !FrontComplete(cfg, w.store.db.hot, w.store.db.earliestHot)
    ensures FrontComplete(cfg, w'.store.db.hot, w'.store.db.earliestHot) && !Triggers(cfg, w.store.db, 2)
    ensures woken == Ok(false)
  {
    var service := SkippedFront(cfg, one, three);
    w := service.Now();
    assert InFront(cfg, w.store.db.earliestHot, 2);
    CompletesUnnoticed(cfg, w.store.db, w.store.db.hot[2 := cfg.codec.encode(two)]);
    woken := service.WriteBlock(two);
    w' := service.Now();
  }

  /** Block 10^10 is written and archived by itself: its files are never loaded, and nothing is read. */
  method LongNameIsLost(cfg: Config, block: Block) returns (ghost steps: seq<World>)
    requires ValidConfig(cfg) && Faithful(cfg.codec) && cfg.batchSize == 1 && Numbered(block, TEN_DIGITS)
    ensures Archives(cfg, steps, [block]) && Reachable(cfg, steps[0])
    ensures Read(cfg.codec, steps[0].store, TEN_DIGITS) == Ok(Some(cfg.codec.encode(block)))
    ensures Read(cfg.codec, steps[5].store, TEN_DIGITS) == Ok(None)
  {
    var service := OpenedAt(cfg, TEN_DIGITS, block);
    StoreRefinesMap(cfg, service.Now(), TEN_DIGITS);
    steps := ArchiveFrom(cfg, service.Now(), service.db, service.disk, [block]);
    ReachableInv(cfg, steps[0]);
    ArchivesBeyondNames(cfg, steps, [block]);
  }

  /**
   * Block 5 is hot. A stop comes after the batch of blocks 1 and 2 is in the cold tier and before its first
   * number is recorded: after the restart both can be read, but a stream from 1 on is refused.
   */
  method StopBeforeRecord(cfg: Config, hot: Block, cold: seq<Block>) returns (ghost w: World, ghost w': World)
    requires ValidConfig(cfg) && Faithful(cfg.codec) && cfg.seed == 0 && Numbered(hot, 5)
    requires |cold| == 2 && Consecutive(cold, 1) && Archivable(cfg, 1, cold)
    ensures Reachable(cfg, w) && Restart(cfg, w, w') && Reachable(cfg, w') && Readable(cfg, w'.store, 1)
    ensures Validate(Request(1, 5), w'.store.db.trueEarliest, w'.store.db.latest, 0)
            == Err(Validation(InvalidStartBlockNumber))
  {
    var service := OpenedAt(cfg, 5, hot);
    ghost var before := service.Now();
    w := service.WriteBlockBatch(cold);
    var indices := ScanAndBuildIndex(service.disk);
    w' := World(Store(Initialize(cfg, w.store.db, indices), w.store.disk, indices, Idle), w.history);
    BatchWriteReachable(cfg, before, w, 1, cold);
    RestartKeepsReads(cfg, w, w', 1);
    assert 1 in Range(1, 2);
    StoreRefinesMap(cfg, w, 1);
  }

  /** Block 5 is stored and announced between a session's look and its listening: the session times out. */
  method AnnouncementIsMissed(cfg: Config, block: Block) returns (turn: Turn, r: Result<Option<nat>, StreamError>)
    requires ValidConfig(cfg) && Faithful(cfg.codec) && Numbered(block, 5)
    ensures Reachable(cfg, turn.world) && LiveWrite(cfg, turn.world, turn.listening, 5, block) && Slipped(turn, 5)
    ensures turn.connected && !turn.shutdown && r == Err(TimeoutWaitingForBlock(5))
  {
    var service := new PersistenceService(cfg, 0);
    var empty := World(Store(service.db, service.disk, service.indices, Idle), History(map[], map[], [], map[]));
    var written := service.WriteBlock(block);
    var later := World(Store(service.db, service.disk, service.indices, Idle),
                       History(map[5 := block], map[], [], map[5 := block]));
    turn := Turn(empty, later, false, true, []);
    var session := new SubscriberSession(cfg, Request(5, 5), 0);
    r := session.ProcessNextBlock(turn, 5);
  }
}
