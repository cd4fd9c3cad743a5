/** The persistence service: the block store as an object, every operation one step of the model. */
module Service {
  import opened Basics
  import opened Database
  import opened ColdFiles
  import opened ArchiveNames
  import opened Tiers
  import opened TierInvariant
  import opened TierSteps
  import opened TierTheorems
  import opened Writer
  import Gaps
  import Ledger

  /** Both files of the range are there, and its numbers have at most ten digits. */
  ghost predicate HasArchive(disk: Disk, first: nat, last: nat) {
    && FileName(first, last, Index) in disk && FileName(first, last, Data) in disk
    && first < TEN_DIGITS && last < TEN_DIGITS
  }

  ghost predicate MapsArchive(disk: Disk, index: MappedIndex) {
    HasArchive(disk, index.start, index.end) && index.mapped == disk[FileName(index.start, index.end, Index)]
  }

  /** An index file can be loaded exactly if its data file is there and its name can be read. */
  lemma LoadableIff(disk: Disk, file: FileName)
    requires file in disk && file.kind == Index
    ensures LoadableRange(disk, file) ==
            if HasArchive(disk, file.first, file.last) then Some((file.first, file.last)) else None
  {
    ParseOfRender(file.first, file.last);
  }

  lemma ScannedArchives(disk: Disk, indices: map<nat, MappedIndex>)
    requires Scanned(disk, indices)
    ensures forall s | s in indices :: indices[s].start == s && MapsArchive(disk, indices[s])
    ensures forall first: nat, last: nat | HasArchive(disk, first, last) :: first in indices
  {
    forall s | s in indices ensures indices[s].start == s && MapsArchive(disk, indices[s]) {
      var file :| ComesFrom(disk, file, s, indices[s]);
      LoadableIff(disk, file);
    }
    forall first: nat, last: nat | HasArchive(disk, first, last) ensures first in indices {
      LoadableIff(disk, FileName(first, last, Index));
    }
  }

  /**
   * Reads every index file of the directory, in an arbitrary order: each index found is that of an archive
   * under its first number, and every archive's first number is found.
   */
  method ScanAndBuildIndex(disk: Disk) returns (indices: map<nat, MappedIndex>)
    ensures Scanned(disk, indices)
    ensures forall s | s in indices :: indices[s].start == s && MapsArchive(disk, indices[s])
    ensures forall first: nat, last: nat | HasArchive(disk, first, last) :: first in indices
  {
    indices := map[];
    var pending := disk.Keys;
    while pending != {}
      invariant pending <= disk.Keys
      invariant forall s | s in indices :: exists file :: ComesFrom(disk, file, s, indices[s])
      invariant forall file | file in disk && file !in pending && file.kind == Index
                              && LoadableRange(disk, file).Some? :: LoadableRange(disk, file).value.0 in indices
      decreases pending
    {
      var file :| file in pending;
      if file.kind == Index {
        var range := LoadableRange(disk, file);
        if range.Some? {
          ghost var index := MappedIndex(range.value.0, range.value.1, disk[file]);
          assert ComesFrom(disk, file, range.value.0, index);
        }
        indices := LoadIndex(disk, indices, file);
      }
      pending := pending - {file};
    }
    ScannedArchives(disk, indices);
  }

  /**
   * The final files are named by the first and the last block and hold all of them under their own
   * numbers; no other final file changes.
   */
  ghost predicate Placed(codec: Codec, disk: Disk, disk': Disk, blocks: seq<Block>)
    requires blocks != [] && Headed(blocks)
  {
    var first, last := BlockNumber(blocks[0]).value, BlockNumber(blocks[|blocks| - 1]).value;
    var index, data := FileName(first, last, Index), FileName(first, last, Data);
    && index in disk' && IsIndex(disk'[index], OwnNumbers(blocks), Blobs(codec, blocks))
    && data in disk' && disk'[data] == Concat(Blobs(codec, blocks))
    && (forall file | IsFinal(file) && file != index && file != data ::
          (file in disk' <==> file in disk) && (file in disk ==> disk'[file] == disk[file]))
  }

  /**
   * Writes the two files of an archive: temporaries first, then the data file, then the index. There
   * is no archive of no blocks, or of blocks without a header.
   */
  method WriteArchive(cfg: Config, disk: Disk, blocks: seq<Block>) returns (r: Result<Disk, ()>)
    ensures r.Ok? <==> blocks != [] && Headed(blocks)
    ensures r.Ok? ==> Placed(cfg.codec, disk, r.value, blocks)
    ensures r.Ok? ==> forall first | Consecutive(blocks, first) :: FilesPlaced(cfg, disk, r.value, first, blocks)
  {
    if blocks == [] {
      return Err(());
    }
    var files := WriteTempFiles(cfg.codec, blocks);
    if files.Err? {
      return Err(());
    }
    var (index, data) := files.value;
    var first, last := BlockNumber(blocks[0]).value, BlockNumber(blocks[|blocks| - 1]).value;
    var disk' := PlaceFiles(disk, first, last, index, data);
    forall start | Consecutive(blocks, start) ensures FilesPlaced(cfg, disk, disk', start, blocks) {
      ConsecutiveNumbers(blocks, start);
      assert Numbered(blocks[0], start) && Numbered(blocks[|blocks| - 1], Last(start, blocks));
    }
    r := Ok(disk');
  }

  /** The two files reach their final names and no other final file changes. */
  method PlaceFiles(disk: Disk, first: nat, last: nat, index: bytes, data: bytes) returns (disk': Disk)
    ensures var indexFile, dataFile := FileName(first, last, Index), FileName(first, last, Data);
            && indexFile in disk' && disk'[indexFile] == index && dataFile in disk' && disk'[dataFile] == data
            && (forall file | file != indexFile && file != dataFile && (IsFinal(file) || file.first != first) ::
                  (file in disk' <==> file in disk) && (file in disk ==> disk'[file] == disk[file]))
  {
    var dataTemp, indexTemp := FileName(first, last, DataTemp), FileName(first, last, IndexTemp);
    disk' := disk[dataTemp := data][indexTemp := index];
    disk' := Rename(disk', dataTemp, FileName(first, last, Data));
    disk' := Rename(disk', indexTemp, FileName(first, last, Index));
  }

  /** Whichever stretch of stored blocks the archiver may pick up fits the file formats. */
  ghost predicate AllArchivable(cfg: Config, content: map<nat, Block>) {
    forall first: nat, blocks: seq<Block> | IsStretch(cfg, content, first, blocks) :: Archivable(cfg, first, blocks)
  }

  ghost predicate IsStretch(cfg: Config, content: map<nat, Block>, first: nat, blocks: seq<Block>) {
    |blocks| == cfg.batchSize
    && forall n: nat | first <= n < first + cfg.batchSize :: n in content && blocks[n - first] == content[n]
  }

  /** Dropping `count` stored blocks leaves exactly that many fewer. */
  lemma {:induction false} WithoutSize(hot: map<nat, bytes>, first: nat, count: nat)
    requires forall n | first <= n < first + count :: n in hot
    ensures |Without(hot, first, count)| == |hot| - count
  {
    if count == 0 {
      assert Without(hot, first, 0) == hot;
    } else {
      WithoutSize(hot, first, count - 1);
      var last := first + count - 1;
      assert Without(hot, first, count) == Without(hot, first, count - 1) - {last};
      assert Without(hot, first, count).Keys == Without(hot, first, count - 1).Keys - {last};
    }
  }

  /** Every block of a complete front batch decodes. */
  lemma FrontDecodes(cfg: Config, db: Db, content: map<nat, Block>)
    requires Faithful(cfg.codec) && HotSound(cfg, db.hot, db.earliestHot, content)
    requires FrontComplete(cfg, db.hot, db.earliestHot)
    ensures forall n: nat | db.earliestHot.value <= n < db.earliestHot.value + cfg.batchSize ::
              Decodable(cfg.codec, db.hot, n)
  {
    forall n: nat | db.earliestHot.value <= n < db.earliestHot.value + cfg.batchSize
      ensures Decodable(cfg.codec, db.hot, n)
    {
      assert InFront(cfg, db.earliestHot, n);
    }
  }

  /** The window from `front` to the latest number, both included, holds more than `limit` numbers. */
  ghost predicate Oversized(latest: Option<nat>, front: nat, limit: nat) {
    limit == 0 || (latest.Some? && front + limit <= latest.value)
  }

  /**
   * One turn of the archiver. A batch is archived exactly if the window is too large and the front
   * complete; a mark is made exactly if the window is too large and the front incomplete; otherwise nothing
   * changes. Whatever happens, the blocks stored stay the same.
   */
  ghost predicate Turn(cfg: Config, limit: nat, w: World, w': World, archives: bool) {
    var db, db' := w.store.db, w'.store.db;
    var tooLarge := db.earliestHot.Some? && Oversized(db.latest, db.earliestHot.value, limit);
    && (archives <==> tooLarge && FrontComplete(cfg, db.hot, db.earliestHot))
    && w'.history.content == w.history.content
    && (archives ==>
          && w'.history.archived == w.history.archived + [db.earliestHot.value]
          && db' == db.(hot := db'.hot, earliestHot := Some(db.earliestHot.value + cfg.batchSize),
                        skipped := db.skipped - {db.earliestHot.value})
          && Leaves(db.hot, db'.hot, db.earliestHot.value, db.earliestHot.value + cfg.batchSize))
    && (tooLarge && !archives ==>
          w' == w.(store := w.store.(db := db.(skipped := db.skipped + {db.earliestHot.value}))))
    && (!tooLarge ==> w' == w)
  }

  /** The numbers of `[from, to)`, all of them hot before, have left the hot tier, and nothing else has. */
  ghost predicate Leaves(hot: map<nat, bytes>, hot': map<nat, bytes>, from: nat, to: nat) {
    && (forall n | from <= n < to :: n in hot)
    && (forall n :: n in hot' <==> n in hot && !(from <= n < to))
    && (forall n | n in hot' :: hot'[n] == hot[n])
  }

  /**
   * A cycle. Exactly the numbers up to the new front leave the hot tier, each batch while the window was
   * too large; a new mark is on a front that is incomplete in a window that is too large; a mark goes only
   * with its batch; nothing else of the database changes.
   */
  ghost predicate Cycled(cfg: Config, limit: nat, w: World, w': World) {
    var db, db' := w.store.db, w'.store.db;
    && w'.history.content == w.history.content && w.history.archived <= w'.history.archived
    && (forall i | |w.history.archived| <= i < |w'.history.archived| ::
          Oversized(db.latest, w'.history.archived[i], limit))
    && db' == db.(hot := db'.hot, earliestHot := db'.earliestHot, skipped := db'.skipped)
    && (db.earliestHot.None? ==> db' == db)
    && (db.earliestHot.Some? ==>
          && db'.earliestHot.Some? && db.earliestHot.value <= db'.earliestHot.value
          && Leaves(db.hot, db'.hot, db.earliestHot.value, db'.earliestHot.value)
          && (forall s | s in db'.skipped && s !in db.skipped ::
                && s == db'.earliestHot.value && Oversized(db.latest, s, limit)
                && !FrontComplete(cfg, db'.hot, db'.earliestHot))
          && (forall s | s in db.skipped && s !in db'.skipped ::
                db.earliestHot.value <= s < db'.earliestHot.value))
  }

  lemma LeavesMore(hot: map<nat, bytes>, mid: map<nat, bytes>, hot': map<nat, bytes>, from: nat, at: nat, to: nat)
    requires from <= at <= to && Leaves(hot, mid, from, at) && Leaves(mid, hot', at, to)
    ensures Leaves(hot, hot', from, to)
  {
    forall n | from <= n < to ensures n in hot {
      assert n < at || n in mid;
    }
  }

  /** The turns of a cycle, one after the other; only the last one makes a mark. */
  lemma TurnCycles(cfg: Config, limit: nat, w: World, v: World, w': World, archives: bool)
    requires cfg.batchSize >= 1 && Turn(cfg, limit, v, w', archives)
    requires v == w || (Cycled(cfg, limit, w, v) && v.store.db.skipped <= w.store.db.skipped)
    ensures Cycled(cfg, limit, w, w') && (archives ==> w'.store.db.skipped <= w.store.db.skipped)
  {
    if w.store.db.earliestHot.Some? && archives {
      var from, at := w.store.db.earliestHot.value, v.store.db.earliestHot.value;
      LeavesMore(w.store.db.hot, v.store.db.hot, w'.store.db.hot, from, at, at + cfg.batchSize);
    }
  }

  lemma FrontCompleteIff(cfg: Config, hot: map<nat, bytes>, front: Option<nat>)
    requires front.Some?
    ensures FrontComplete(cfg, hot, front) <==>
              forall n | front.value <= n < front.value + cfg.batchSize :: n in hot
  {
    forall n | front.value <= n < front.value + cfg.batchSize ensures InFront(cfg, front, n) { }
  }

  lemma FrontSize(cfg: Config, db: Db)
    requires FrontComplete(cfg, db.hot, db.earliestHot)
    ensures |DropFront(db, db.earliestHot.value, cfg.batchSize).hot| == |db.hot| - cfg.batchSize
  {
    forall n | db.earliestHot.value <= n < db.earliestHot.value + cfg.batchSize ensures n in db.hot {
      assert InFront(cfg, db.earliestHot, n);
    }
    WithoutSize(db.hot, db.earliestHot.value, cfg.batchSize);
  }

  lemma FrontIsStretch(cfg: Config, db: Db, content: map<nat, Block>, blocks: seq<Block>)
    requires |blocks| == cfg.batchSize && db.earliestHot.Some?
    requires forall n: nat | InFront(cfg, db.earliestHot, n) ::
               n in content && blocks[n - db.earliestHot.value] == content[n]
    ensures IsStretch(cfg, content, db.earliestHot.value, blocks)
  {
    forall n: nat | db.earliestHot.value <= n < db.earliestHot.value + cfg.batchSize
      ensures n in content && blocks[n - db.earliestHot.value] == content[n]
    {
      assert InFront(cfg, db.earliestHot, n);
    }
  }

  lemma FrontArchivable(cfg: Config, db: Db, content: map<nat, Block>, blocks: seq<Block>)
    requires ValidConfig(cfg) && Faithful(cfg.codec) && HotSound(cfg, db.hot, db.earliestHot, content)
    requires FrontBlocks(cfg, db, blocks) && AllArchivable(cfg, content)
    ensures Consecutive(blocks, db.earliestHot.value) && Archivable(cfg, db.earliestHot.value, blocks)
  {
    StagedBlocks(cfg, db, content, blocks);
    FrontIsStretch(cfg, db, content, blocks);
  }

  /** Both temporary files of the batch at `front` hold an archive of `blocks`, and no other file changed. */
  ghost predicate TemporariesHold(cfg: Config, disk: Disk, disk': Disk, front: Option<nat>, blocks: seq<Block>)
    requires ValidConfig(cfg) && front.Some?
  {
    var dataTemp, indexTemp := FrontFile(cfg, front, DataTemp), FrontFile(cfg, front, IndexTemp);
    && dataTemp in disk' && indexTemp in disk'
    && disk' == disk[dataTemp := disk'[dataTemp]][indexTemp := disk'[indexTemp]]
    && IsArchive(cfg.codec, blocks, front.value, disk'[indexTemp], disk'[dataTemp])
  }

  method WriteTemporaries(cfg: Config, disk: Disk, front: Option<nat>, blocks: seq<Block>) returns (disk': Disk)
    requires ValidConfig(cfg) && front.Some? && |blocks| > 0 && Consecutive(blocks, front.value)
    ensures TemporariesHold(cfg, disk, disk', front, blocks)
  {
    ConsecutiveNumbers(blocks, front.value);
    var files := WriteTempFiles(cfg.codec, blocks);
    disk' := disk[FrontFile(cfg, front, DataTemp) := files.value.1][FrontFile(cfg, front, IndexTemp) := files.value.0];
  }

  /** Reads the front batch from the hot tier and writes it to temporary files. */
  method WriteFrontTemporaries(cfg: Config, db: Db, disk: Disk, ghost content: map<nat, Block>)
    returns (blocks: seq<Block>, disk': Disk)
    requires ValidConfig(cfg) && Faithful(cfg.codec) && HotSound(cfg, db.hot, db.earliestHot, content)
    requires FrontComplete(cfg, db.hot, db.earliestHot)
    ensures FrontBlocks(cfg, db, blocks) && TemporariesHold(cfg, disk, disk', db.earliestHot, blocks)
  {
    blocks := ReadFront(cfg, db, content);
    StagedBlocks(cfg, db, content, blocks);
    disk' := WriteTemporaries(cfg, disk, db.earliestHot, blocks);
  }

  method ReadFront(cfg: Config, db: Db, ghost content: map<nat, Block>) returns (blocks: seq<Block>)
    requires ValidConfig(cfg) && Faithful(cfg.codec) && HotSound(cfg, db.hot, db.earliestHot, content)
    requires FrontComplete(cfg, db.hot, db.earliestHot)
    ensures FrontBlocks(cfg, db, blocks)
  {
    var first := db.earliestHot.value;
    FrontDecodes(cfg, db, content);
    var read := ReadBlockBatch(cfg.codec, db.hot, first, cfg.batchSize);
    blocks := read.value;
    forall i | 0 <= i < |blocks| ensures cfg.codec.decode(db.hot[first + i]) == Some(blocks[i]) {
      assert Decodes(cfg.codec, db.hot, first + i, blocks[i]);
    }
  }

  // ----- what a method may rely on, and how it hands on that the world is reachable -----

  lemma ReachableHot(cfg: Config, w: World)
    requires ValidConfig(cfg) && Faithful(cfg.codec) && Reachable(cfg, w)
    ensures HotSound(cfg, w.store.db.hot, w.store.db.earliestHot, w.history.content)
  {
    ReachableInv(cfg, w);
  }

  lemma ReachableSeparated(cfg: Config, w: World)
    requires ValidConfig(cfg) && Faithful(cfg.codec) && Reachable(cfg, w)
    ensures Gaps.Separated(w.store.db.gaps)
  {
    ReachableInv(cfg, w);
  }

  lemma ReachablePhase(cfg: Config, w: World)
    requires ValidConfig(cfg) && Faithful(cfg.codec) && Reachable(cfg, w)
    ensures PhaseSound(cfg, w)
  {
    ReachableInv(cfg, w);
  }

  /** The files the next archival step needs are there. */
  lemma PhaseFiles(cfg: Config, w: World)
    requires ValidConfig(cfg) && PhaseSound(cfg, w) && !w.store.phase.Idle?
    ensures w.store.db.earliestHot.Some?
    ensures w.store.phase.Staged? ==> FrontFile(cfg, w.store.db.earliestHot, DataTemp) in w.store.disk
    ensures w.store.phase.DataMoved? ==> FrontFile(cfg, w.store.db.earliestHot, IndexTemp) in w.store.disk
    ensures w.store.phase.IndexMoved? ==> FrontFile(cfg, w.store.db.earliestHot, Index) in w.store.disk
  {
  }

  lemma LiveWriteReachable(cfg: Config, w: World, w': World, n: nat, block: Block)
    requires ValidConfig(cfg) && Reachable(cfg, w) && LiveWrite(cfg, w, w', n, block)
    ensures Reachable(cfg, w')
  {
    StepReachable(cfg, w, w');
  }

  lemma WriteTakesEffect(cfg: Config, w: World, w': World, n: nat, block: Block)
    requires ValidConfig(cfg) && Faithful(cfg.codec) && Reachable(cfg, w) && LiveWrite(cfg, w, w', n, block)
    ensures Ledger.Effect(cfg.seed, w.store.db, w'.store.db, n, cfg.codec.encode(block))
  {
    ReachableInv(cfg, w);
    Ledger.WriteEffect(cfg.seed, w.store.db, w'.store.db, n, cfg.codec.encode(block), w.history.content.Keys);
  }

  /** The first start of all counts from one below the configured number. */
  lemma InitializesEmpty(cfg: Config)
    ensures Initialize(cfg, EMPTY, map[]) == EMPTY.(highestContiguous := Some(cfg.seed))
  {
    var none: map<nat, MappedIndex>, nothing: map<nat, bytes> := map[], map[];
    assert none.Keys == {} && nothing.Keys == {};
    LeastIsKey({});
  }

  lemma BatchWriteReachable(cfg: Config, w: World, w': World, first: nat, blocks: seq<Block>)
    requires ValidConfig(cfg) && Reachable(cfg, w) && BatchWrite(cfg, w, w', first, blocks)
    ensures Reachable(cfg, w')
  {
    StepReachable(cfg, w, w');
  }

  lemma RecordReachable(cfg: Config, w: World, w': World, first: nat)
    requires ValidConfig(cfg) && Reachable(cfg, w) && RecordEarliest(w, w', first)
    ensures Reachable(cfg, w')
  {
    StepReachable(cfg, w, w');
  }

  lemma StageReachable(cfg: Config, w: World, w': World, blocks: seq<Block>)
    requires ValidConfig(cfg) && Reachable(cfg, w) && Stage(cfg, w, w', blocks)
    requires Archivable(cfg, w.store.db.earliestHot.value, blocks)
    ensures Reachable(cfg, w')
  {
    StepReachable(cfg, w, w');
  }

  class PersistenceService {
    const cfg: Config
    const hotLimit: nat
    var db: Db
    var disk: Disk
    var indices: map<nat, MappedIndex>
    ghost var phase: Phase
    ghost var history: History

    ghost function Now(): World
      reads this
    {
      World(Store(db, disk, indices, phase), history)
    }

    ghost predicate Sound()
      reads this
    {
      ValidConfig(cfg) && Faithful(cfg.codec) && Reachable(cfg, Now())
    }

    ghost predicate Valid()
      reads this
    {
      Sound() && phase.Idle?
    }

    constructor (cfg: Config, hotLimit: nat)
      requires ValidConfig(cfg) && Faithful(cfg.codec)
      ensures this.cfg == cfg && this.hotLimit == hotLimit
      ensures Valid() && Initial(cfg, Now())
    {
      this.cfg, this.hotLimit := cfg, hotLimit;
      InitializesEmpty(cfg);
      db, disk, indices := Initialize(cfg, EMPTY, map[]), map[], map[];
      phase, history := Idle, History(map[], map[], [], map[]);
      new;
      assert ReachableIn(cfg, 0, Now());
    }

    /** A stop after whatever the archiver had got to, and a new start. */
    method Reopen()
      requires Sound()
      modifies this
      ensures Valid() && Restart(cfg, old(Now()), Now())
      ensures disk == old(disk) && history == old(history) && db == old(db).(trueEarliest := db.trueEarliest)
      ensures old(db.trueEarliest.Some?) ==> db.trueEarliest == old(db.trueEarliest)
      ensures old(db.trueEarliest.None?) ==> EarliestIsLeast(Now())
      ensures forall s | s in indices :: indices[s].start == s && MapsArchive(disk, indices[s])
      ensures forall first: nat, last: nat | HasArchive(disk, first, last) :: first in indices
    {
      ghost var before := Now();
      ReachableCounted(cfg, before);
      indices := ScanAndBuildIndex(disk);
      db := Initialize(cfg, db, indices);
      phase := Idle;
      StepReachable(cfg, before, Now());
      RestartStaysLeastIff(cfg, before, Now());
    }

    method ReadBlock(n: nat) returns (r: Result<Option<bytes>, ReadError>)
      requires Sound()
      ensures r == Expected(cfg, history.content, n)
      ensures r == Expected(cfg, history.written, n) <==> !Lost(history, n)
    {
      StoreRefinesMap(cfg, Now(), n);
      r := Read(cfg.codec, Store(db, disk, indices, Idle), n);
    }

    /** Stores one block; the result says whether the archiver is woken. */
    method WriteBlock(block: Block) returns (r: Result<bool, ()>)
      requires Sound()
      requires BlockNumber(block).Some? ==> CanWrite(cfg, Now(), BlockNumber(block).value)
      modifies this`db, this`history
      ensures Sound() && phase == old(phase)
      ensures r.Err? <==> BlockNumber(block).None?
      ensures r.Ok? <==> block.items != [] && block.items[0].Header?
      ensures r.Ok? ==> BlockNumber(block) == Some(block.items[0].number)
      ensures r.Err? ==> Now() == old(Now())
      ensures r.Ok? ==> LiveWrite(cfg, old(Now()), Now(), BlockNumber(block).value, block)
      ensures r.Ok? ==> Ledger.Effect(cfg.seed, old(db), db, BlockNumber(block).value, cfg.codec.encode(block))
      ensures r.Ok? ==>
                var n := BlockNumber(block).value;
                r.value <==> && Gaps.Covers(old(db.gaps), n)
                             && exists s :: && s in old(db.skipped) && s % cfg.batchSize == 0
                                            && s <= n < s + cfg.batchSize
    {
      var number := BlockNumber(block);
      if number.None? {
        return Err(());
      }
      var n := number.value;
      ghost var before := Now();
      ReachableSeparated(cfg, before);
      TriggersIff(cfg, db, n);
      var wasGapFill := Gaps.FindContainingGap(db.gaps, n).Some?;
      var batch := BuildWriteBatch(cfg.seed, db, n, cfg.codec.encode(block));
      db := Commit(db, batch);
      history := history.(content := history.content[n := block], written := history.written[n := block]);
      LiveWriteReachable(cfg, before, Now(), n, block);
      WriteTakesEffect(cfg, before, Now(), n, block);
      r := Ok(wasGapFill && n / cfg.batchSize * cfg.batchSize in db.skipped);
    }

    /** Stores a historical batch straight into the cold tier, and then records its first number. */
    method WriteBlockBatch(blocks: seq<Block>) returns (ghost placed: World)
      requires Sound()
      requires blocks != [] ==>
                 BlockNumber(blocks[0]).Some? && CanBatch(cfg, Now(), BlockNumber(blocks[0]).value, blocks)
      modifies this
      ensures Sound() && phase == old(phase)
      ensures blocks == [] ==> Now() == old(Now())
      ensures blocks != [] ==>
                var first := BlockNumber(blocks[0]).value;
                BatchWrite(cfg, old(Now()), placed, first, blocks) && RecordEarliest(placed, Now(), first)
      ensures blocks != [] ==>
                var first, earliest := BlockNumber(blocks[0]).value, old(db.trueEarliest);
                && db == old(db).(trueEarliest := db.trueEarliest)
                && (earliest.None? || first <= earliest.value ==> db.trueEarliest == Some(first))
                && (earliest.Some? && earliest.value <= first ==> db.trueEarliest == earliest)
    {
      placed := Now();
      if blocks == [] {
        return;
      }
      var first := BlockNumber(blocks[0]).value;
      var archive := WriteArchive(cfg, disk, blocks);
      disk := archive.value;
      indices := LoadIndex(disk, indices, FileName(first, Last(first, blocks), Index));
      history := history.(content := WithNumbers(history.content, first, blocks),
                          written := WithNumbers(history.written, first, blocks),
                          chunks := history.chunks[first := blocks]);
      BatchWriteReachable(cfg, placed, Now(), first, blocks);
      placed := Now();
      db := TrueEarliestAtMost(db, first);
      RecordReachable(cfg, placed, Now(), first);
    }

    // ----- the archiver -----

    /** Reads the front batch and writes its two temporary files. */
    method StageFront()
      requires Valid() && AllArchivable(cfg, history.content) && FrontComplete(cfg, db.hot, db.earliestHot)
      modifies this`disk, this`phase
      ensures Sound() && phase.Staged? && Stage(cfg, old(Now()), Now(), phase.blocks)
    {
      ghost var before := Now();
      ReachableHot(cfg, before);
      var blocks, staged := WriteFrontTemporaries(cfg, db, disk, history.content);
      FrontArchivable(cfg, db, history.content, blocks);
      disk := staged;
      phase := Staged(blocks);
      StageReachable(cfg, before, Now(), blocks);
    }

    method MoveDataFile()
      requires Sound() && phase.Staged?
      modifies this`disk, this`phase
      ensures Sound() && phase.DataMoved? && MoveData(cfg, old(Now()), Now())
    {
      ghost var before := Now();
      ReachablePhase(cfg, before);
      PhaseFiles(cfg, before);
      disk := Rename(disk, FrontFile(cfg, db.earliestHot, DataTemp), FrontFile(cfg, db.earliestHot, Data));
      phase := DataMoved(phase.blocks);
      StepReachable(cfg, before, Now());
    }

    method MoveIndexFile()
      requires Sound() && phase.DataMoved?
      modifies this`disk, this`phase
      ensures Sound() && phase.IndexMoved? && MoveIndex(cfg, old(Now()), Now())
    {
      ghost var before := Now();
      ReachablePhase(cfg, before);
      PhaseFiles(cfg, before);
      disk := Rename(disk, FrontFile(cfg, db.earliestHot, IndexTemp), FrontFile(cfg, db.earliestHot, Index));
      phase := IndexMoved(phase.blocks);
      StepReachable(cfg, before, Now());
    }

    method LoadNewIndex()
      requires Sound() && phase.IndexMoved?
      modifies this`indices, this`phase
      ensures Sound() && phase.Loaded? && Load(cfg, old(Now()), Now())
    {
      ghost var before := Now();
      ReachablePhase(cfg, before);
      PhaseFiles(cfg, before);
      indices := LoadIndex(disk, indices, FrontFile(cfg, db.earliestHot, Index));
      phase := Loaded(phase.blocks);
      StepReachable(cfg, before, Now());
    }

    method RetireFront()
      requires Sound() && phase.Loaded?
      modifies this`db, this`phase, this`history
      ensures Valid() && Retire(cfg, old(Now()), Now())
    {
      ghost var before := Now();
      ReachablePhase(cfg, before);
      PhaseFiles(cfg, before);
      var first := db.earliestHot.value;
      var batch := BuildRetireBatch(db, first, cfg.batchSize);
      db := Commit(db, batch);
      history := history.(content := WithNumbers(history.content, first, phase.blocks),
                          chunks := history.chunks[first := phase.blocks],
                          archived := history.archived + [first]);
      phase := Idle;
      StepReachable(cfg, before, Now());
    }

    /** Moves the front batch to the cold tier. */
    method ArchiveBatch()
      requires Valid() && AllArchivable(cfg, history.content) && FrontComplete(cfg, db.hot, db.earliestHot)
      modifies this
      ensures Valid() && history.content == old(history.content) && history.written == old(history.written)
      ensures history.archived == old(history.archived) + [old(db.earliestHot.value)]
      ensures db == DropFront(old(db), old(db.earliestHot.value), cfg.batchSize)
    {
      PlaceFront();
      ReachableHot(cfg, Now());
      StagedIsKept(cfg, db, history.content, phase.blocks);
      RetireFront();
    }

    /** The archival steps that leave the database alone. */
    method PlaceFront()
      requires Valid() && AllArchivable(cfg, history.content) && FrontComplete(cfg, db.hot, db.earliestHot)
      modifies this`disk, this`indices, this`phase
      ensures Sound() && phase.Loaded? && FrontBlocks(cfg, db, phase.blocks)
    {
      StageFront();
      MoveDataFile();
      MoveIndexFile();
      LoadNewIndex();
    }

    /** How many numbers the hot window spans; the archiver counts at least one. */
    function HotCount(): nat
      reads this
      requires db.earliestHot.Some?
    {
      var latest := if db.latest.Some? then db.latest.value else 0;
      (if latest < db.earliestHot.value then 0 else latest - db.earliestHot.value) + 1
    }

    /** Why a cycle stops: nothing hot, a window that fits, or an incomplete batch marked as skipped. */
    ghost predicate Settled()
      reads this
    {
      || db.earliestHot.None?
      || !Oversized(db.latest, db.earliestHot.value, hotLimit)
      || (!FrontComplete(cfg, db.hot, db.earliestHot) && db.earliestHot.value in db.skipped)
    }

    /** One turn of a cycle: archive a batch, or find out why not. */
    method ArchiveTurn() returns (again: bool)
      requires Valid() && AllArchivable(cfg, history.content)
      modifies this
      ensures Valid() && Turn(cfg, hotLimit, old(Now()), Now(), again)
      ensures again ==> |db.hot| == old(|db.hot|) - cfg.batchSize
      ensures !again ==> Settled()
    {
      if db.earliestHot.None? || HotCount() <= hotLimit {
        return false;
      }
      var complete := IsBatchComplete(db.hot, db.earliestHot.value, cfg.batchSize);
      FrontCompleteIff(cfg, db.hot, db.earliestHot);
      if !complete {
        MarkSkipped();
        return false;
      }
      FrontSize(cfg, db);
      ArchiveBatch();
      again := true;
    }

    /**
     * Archives from the front for as long as the hot tier is too large and its front complete. A window
     * that fits on entry leaves everything as it is.
     */
    method RunArchivalCycle()
      requires Valid() && AllArchivable(cfg, history.content)
      modifies this
      ensures Valid() && Settled() && Cycled(cfg, hotLimit, old(Now()), Now())
      ensures old(db.earliestHot.None?) || !Oversized(old(db.latest), old(db.earliestHot.value), hotLimit) ==>
                Now() == old(Now())
    {
      ghost var start := Now();
      var again := ArchiveTurn();
      TurnCycles(cfg, hotLimit, start, start, Now(), again);
      while again
        invariant Valid() && Cycled(cfg, hotLimit, start, Now()) && (!again ==> Settled())
        invariant again ==> db.skipped <= start.store.db.skipped
        invariant start.store.db.earliestHot.None?
                  || !Oversized(start.store.db.latest, start.store.db.earliestHot.value, hotLimit) ==>
                    !again && Now() == start
        decreases again, |db.hot|
      {
        ghost var before := Now();
        again := ArchiveTurn();
        TurnCycles(cfg, hotLimit, start, before, Now(), again);
      }
    }

    method MarkSkipped()
      requires Valid() && db.earliestHot.Some? && !FrontComplete(cfg, db.hot, db.earliestHot)
      modifies this`db
      ensures Valid() && Skip(cfg, old(Now()), Now())
    {
      ghost var before := Now();
      var batch := Push(db, [], AddSkipped(db.earliestHot.value));
      db := Commit(db, batch);
      StepReachable(cfg, before, Now());
    }
  }
}
