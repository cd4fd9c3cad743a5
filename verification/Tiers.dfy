/**
 * The two-tier store as a transition system: live writes, historical batches, archival one
 * file-system step at a time, and restarts.
 */
module Tiers {
  import opened Basics
  import opened Database
  import opened Gaps
  import opened ColdFiles
  import opened ArchiveNames
  import Ledger

  datatype Config = Config(codec: Codec, seed: nat, batchSize: nat)

  predicate ValidConfig(cfg: Config) {
    cfg.batchSize >= 1 && cfg.seed < U64_MAX
  }

  /** How far the archiver has got with the blocks it has read from the hot tier. */
  datatype Phase =
    | Idle
    | Staged(blocks: seq<Block>)
    | DataMoved(blocks: seq<Block>)
    | IndexMoved(blocks: seq<Block>)
    | Loaded(blocks: seq<Block>)

  type Disk = map<FileName, bytes>

  /** The database and the files survive a restart; the loaded indices and the phase do not. */
  datatype Store = Store(db: Db, disk: Disk, indices: map<nat, MappedIndex>, phase: Phase)

  /**
   * What has happened so far, for use in statements only: the block the store keeps under each
   * number, the chunks completed in the cold tier by first number, the first numbers of those the
   * archiver completed, in order, and the last block written under each number.
   */
  datatype History = History(
    content: map<nat, Block>,
    chunks: map<nat, seq<Block>>,
    archived: seq<nat>,
    written: map<nat, Block>)

  datatype World = World(store: Store, history: History)

  // ----- reading -----

  function DataOf(disk: Disk, first: nat, last: nat): Option<bytes> {
    var file := FileName(first, last, Data);
    if file in disk then Some(disk[file]) else None
  }

  /** The chunk asked is the one with the greatest first number at or below `n`. */
  function ReadCold(codec: Codec, store: Store, n: nat): Result<Option<bytes>, ReadError> {
    match Floor(store.indices.Keys, n)
    case None => Ok(None)
    case Some(first) =>
      var index := store.indices[first];
      ReadRaw(codec, index, DataOf(store.disk, index.start, index.end), n)
  }

  function Read(codec: Codec, store: Store, n: nat): Result<Option<bytes>, ReadError> {
    if n in store.db.hot then Ok(Some(store.db.hot[n])) else ReadCold(codec, store, n)
  }

  // ----- index files -----

  /** The range a reader finds in the name of an index file whose data file exists. */
  function LoadableRange(disk: Disk, file: FileName): Option<(nat, nat)>
    requires file.kind == Index
  {
    match ParseBlockRange(Render(file))
    case None => None
    case Some((first, last)) => if FileName(first, last, Data) in disk then Some((first, last)) else None
  }

  /** Loads one index file into the reader's map; a file that cannot be loaded leaves it alone. */
  function LoadIndex(disk: Disk, indices: map<nat, MappedIndex>, file: FileName): map<nat, MappedIndex>
    requires file in disk && file.kind == Index
  {
    match LoadableRange(disk, file)
    case None => indices
    case Some((first, last)) => indices[first := MappedIndex(first, last, disk[file])]
  }

  ghost predicate ComesFrom(disk: Disk, file: FileName, first: nat, index: MappedIndex) {
    && file in disk && file.kind == Index
    && LoadableRange(disk, file) == Some((first, index.end))
    && index == MappedIndex(first, index.end, disk[file])
  }

  /** The outcome of a scan of the directory, in whatever order it lists the files. */
  ghost predicate Scanned(disk: Disk, indices: map<nat, MappedIndex>) {
    && (forall s | s in indices :: exists file :: ComesFrom(disk, file, s, indices[s]))
    && (forall file | file in disk && file.kind == Index && LoadableRange(disk, file).Some? ::
          LoadableRange(disk, file).value.0 in indices)
  }

  // ----- steps -----

  /** `n` is in the batch at the front of the hot tier. */
  predicate InFront(cfg: Config, front: Option<nat>, n: nat) {
    front.Some? && front.value <= n < front.value + cfg.batchSize
  }

  /** All blocks of the batch at the front of the hot tier are present. */
  ghost predicate FrontComplete(cfg: Config, hot: map<nat, bytes>, front: Option<nat>) {
    front.Some? && forall n | InFront(cfg, front, n) :: n in hot
  }

  function Last(first: nat, blocks: seq<Block>): nat
    requires |blocks| > 0
  {
    first + |blocks| - 1
  }

  /**
   * A live write, at any moment of an archival too. The one that opens the hot tier lies above
   * everything already in the cold one.
   */
  ghost predicate CanWrite(cfg: Config, w: World, n: nat) {
    && n < U64_MAX
    && (w.store.db.earliestHot.None? ==>
          forall s | s in w.history.chunks :: s + |w.history.chunks[s]| <= n)
  }

  ghost predicate LiveWrite(cfg: Config, w: World, w': World, n: nat, block: Block) {
    && Numbered(block, n) && CanWrite(cfg, w, n)
    && Ledger.Writes(cfg.seed, w.store.db, w'.store.db, n, cfg.codec.encode(block))
    && w'.store == w.store.(db := w'.store.db)
    && w'.history == w.history.(content := w.history.content[n := block], written := w.history.written[n := block])
  }

  /** Both files of a chunk are put in place, and nothing else but temporaries is touched. */
  ghost predicate FilesPlaced(cfg: Config, disk: Disk, disk': Disk, first: nat, blocks: seq<Block>)
    requires |blocks| > 0
  {
    var index, data := FileName(first, Last(first, blocks), Index), FileName(first, Last(first, blocks), Data);
    && index in disk' && data in disk'
    && IsArchive(cfg.codec, blocks, first, disk'[index], disk'[data])
    && (forall file | IsFinal(file) && file != index && file != data ::
          (file in disk' <==> file in disk) && (file in disk ==> disk'[file] == disk[file]))
    && (forall file | !IsFinal(file) && file.first != first ::
          (file in disk' <==> file in disk) && (file in disk ==> disk'[file] == disk[file]))
  }

  predicate IsFinal(file: FileName) {
    file.kind == Data || file.kind == Index
  }

  /** A historical batch: consecutive, new, below the hot tier, and within the file formats. */
  ghost predicate CanBatch(cfg: Config, w: World, first: nat, blocks: seq<Block>) {
    && |blocks| > 0 && Consecutive(blocks, first) && Archivable(cfg, first, blocks)
    && (forall n | first <= n < first + |blocks| :: n !in w.history.content)
    && (w.store.db.earliestHot.Some? ==> first + |blocks| <= w.store.db.earliestHot.value)
  }

  /** The limits of the file formats: ten-digit names, u32 lengths and u64 offsets. */
  predicate Archivable(cfg: Config, first: nat, blocks: seq<Block>) {
    first + |blocks| <= TEN_DIGITS && Fits(Blobs(cfg.codec, blocks))
  }

  function Range(first: nat, count: nat): (r: set<nat>)
    ensures forall n :: n in r <==> first <= n < first + count
  {
    if count == 0 then {} else Range(first, count - 1) + {first + count - 1}
  }

  function WithNumbers(content: map<nat, Block>, first: nat, blocks: seq<Block>): map<nat, Block> {
    content + map n | n in Range(first, |blocks|) :: blocks[n - first]
  }

  function TrueEarliestAtMost(db: Db, n: nat): Db {
    if db.trueEarliest.Some? && db.trueEarliest.value <= n then db else db.(trueEarliest := Some(n))
  }

  /** The chunk is in place and loaded; the earliest number is recorded afterwards. */
  ghost predicate BatchWrite(cfg: Config, w: World, w': World, first: nat, blocks: seq<Block>) {
    && CanBatch(cfg, w, first, blocks)
    && FilesPlaced(cfg, w.store.disk, w'.store.disk, first, blocks)
    && w'.store.indices ==
       LoadIndex(w'.store.disk, w.store.indices, FileName(first, Last(first, blocks), Index))
    && w'.store.db == w.store.db && w'.store.phase == w.store.phase
    && w'.history == w.history.(content := WithNumbers(w.history.content, first, blocks),
                                written := WithNumbers(w.history.written, first, blocks),
                                chunks := w.history.chunks[first := blocks])
  }

  /** The last step of a batch; a stop may come before it. */
  ghost predicate RecordEarliest(w: World, w': World, first: nat) {
    first in w.history.chunks && w' == w.(store := w.store.(db := TrueEarliestAtMost(w.store.db, first)))
  }

  /** The blocks of the front batch, as decoded from the hot tier. */
  ghost predicate FrontBlocks(cfg: Config, db: Db, blocks: seq<Block>) {
    && FrontComplete(cfg, db.hot, db.earliestHot) && |blocks| == cfg.batchSize
    && (forall i | 0 <= i < |blocks| ::
          cfg.codec.decode(db.hot[db.earliestHot.value + i]) == Some(blocks[i]))
  }

  function FrontFile(cfg: Config, front: Option<nat>, kind: Kind): FileName
    requires front.Some? && cfg.batchSize >= 1
  {
    FileName(front.value, front.value + cfg.batchSize - 1, kind)
  }

  ghost predicate Stage(cfg: Config, w: World, w': World, blocks: seq<Block>)
    requires ValidConfig(cfg)
  {
    && w.store.phase.Idle? && FrontBlocks(cfg, w.store.db, blocks)
    && var front := w.store.db.earliestHot;
    && var dataTemp, indexTemp := FrontFile(cfg, front, DataTemp), FrontFile(cfg, front, IndexTemp);
    && dataTemp in w'.store.disk && indexTemp in w'.store.disk
    && IsArchive(cfg.codec, blocks, w.store.db.earliestHot.value, w'.store.disk[indexTemp], w'.store.disk[dataTemp])
    && w'.store.disk == w.store.disk[dataTemp := w'.store.disk[dataTemp]][indexTemp := w'.store.disk[indexTemp]]
    && w'.store == w.store.(disk := w'.store.disk, phase := Staged(blocks))
    && w'.history == w.history
  }

  function Rename(disk: Disk, from: FileName, to: FileName): Disk
    requires from in disk
  {
    (disk - {from})[to := disk[from]]
  }

  ghost predicate MoveData(cfg: Config, w: World, w': World)
    requires ValidConfig(cfg)
  {
    && w.store.phase.Staged? && w.store.db.earliestHot.Some?
    && FrontFile(cfg, w.store.db.earliestHot, DataTemp) in w.store.disk
    && w' == w.(store := w.store.(
         disk := Rename(w.store.disk, FrontFile(cfg, w.store.db.earliestHot, DataTemp),
                        FrontFile(cfg, w.store.db.earliestHot, Data)),
         phase := DataMoved(w.store.phase.blocks)))
  }

  ghost predicate MoveIndex(cfg: Config, w: World, w': World)
    requires ValidConfig(cfg)
  {
    && w.store.phase.DataMoved? && w.store.db.earliestHot.Some?
    && FrontFile(cfg, w.store.db.earliestHot, IndexTemp) in w.store.disk
    && w' == w.(store := w.store.(
         disk := Rename(w.store.disk, FrontFile(cfg, w.store.db.earliestHot, IndexTemp),
                        FrontFile(cfg, w.store.db.earliestHot, Index)),
         phase := IndexMoved(w.store.phase.blocks)))
  }

  ghost predicate Load(cfg: Config, w: World, w': World)
    requires ValidConfig(cfg)
  {
    && w.store.phase.IndexMoved? && w.store.db.earliestHot.Some?
    && FrontFile(cfg, w.store.db.earliestHot, Index) in w.store.disk
    && w' == w.(store := w.store.(
         indices := LoadIndex(w.store.disk, w.store.indices, FrontFile(cfg, w.store.db.earliestHot, Index)),
         phase := Loaded(w.store.phase.blocks)))
  }

  /** The batch leaves the hot tier. What is kept of it is what was read when it was staged. */
  ghost predicate Retire(cfg: Config, w: World, w': World) {
    && w.store.phase.Loaded? && w.store.db.earliestHot.Some?
    && var first := w.store.db.earliestHot.value;
    && w'.store == w.store.(db := DropFront(w.store.db, first, cfg.batchSize), phase := Idle)
    && w'.history == w.history.(content := WithNumbers(w.history.content, first, w.store.phase.blocks),
                                chunks := w.history.chunks[first := w.store.phase.blocks],
                                archived := w.history.archived + [first])
  }

  ghost predicate Skip(cfg: Config, w: World, w': World) {
    && w.store.phase.Idle? && w.store.db.earliestHot.Some?
    && !FrontComplete(cfg, w.store.db.hot, w.store.db.earliestHot)
    && w' == w.(store := w.store.(
         db := w.store.db.(skipped := w.store.db.skipped + {w.store.db.earliestHot.value})))
  }

  /**
   * A crash while files are being written can leave anything in temporaries, and data files, those of a
   * historical batch say, for which there is no index.
   */
  ghost predicate TearFiles(w: World, w': World) {
    && w.store.phase.Idle?
    && w' == w.(store := w.store.(disk := w'.store.disk))
    && (forall file: FileName | file.kind == Index || (file.kind == Data && file.(kind := Index) in w.store.disk) ::
          (file in w'.store.disk <==> file in w.store.disk)
          && (file in w.store.disk ==> w'.store.disk[file] == w.store.disk[file]))
  }

  function Least(keys: set<nat>): Option<nat> {
    var ascending := KeysFrom(keys, 0);
    if ascending == [] then None else Some(ascending[0])
  }

  /** What start-up writes into the metadata: only values that are still missing. */
  function Initialize(cfg: Config, db: Db, indices: map<nat, MappedIndex>): Db {
    var cold, hot := Least(indices.Keys), Least(db.hot.Keys);
    var earliest :=
      if cold.None? then hot
      else if hot.None? || cold.value <= hot.value then cold
      else hot;
    db.(trueEarliest := if db.trueEarliest.Some? then db.trueEarliest else earliest,
        highestContiguous := if db.highestContiguous.Some? then db.highestContiguous else Some(cfg.seed))
  }

  /** A stop at any point, and a new start: the directory is scanned and the metadata completed. */
  ghost predicate Restart(cfg: Config, w: World, w': World) {
    && Scanned(w.store.disk, w'.store.indices)
    && w' == w.(store := w.store.(db := Initialize(cfg, w.store.db, w'.store.indices),
                                  indices := w'.store.indices, phase := Idle))
  }

  /** The steps of the archiver, of crashes and of restarts: none of them writes a block. */
  ghost predicate Maintains(cfg: Config, w: World, w': World)
    requires ValidConfig(cfg)
  {
    || (exists blocks :: Stage(cfg, w, w', blocks) && Archivable(cfg, w.store.db.earliestHot.value, blocks))
    || MoveData(cfg, w, w') || MoveIndex(cfg, w, w') || Load(cfg, w, w') || Retire(cfg, w, w')
    || Skip(cfg, w, w') || TearFiles(w, w') || Restart(cfg, w, w')
  }

  ghost predicate Next(cfg: Config, w: World, w': World)
    requires ValidConfig(cfg)
  {
    || (exists n, block :: LiveWrite(cfg, w, w', n, block))
    || (exists first, blocks :: BatchWrite(cfg, w, w', first, blocks))
    || (exists first :: RecordEarliest(w, w', first))
    || Maintains(cfg, w, w')
  }

  ghost predicate Initial(cfg: Config, w: World) {
    w == World(Store(EMPTY.(highestContiguous := Some(cfg.seed)), map[], map[], Idle), History(map[], map[], [], map[]))
  }

  /** A run of `steps` steps from an empty store ends in `w`. */
  ghost predicate ReachableIn(cfg: Config, steps: nat, w: World)
    requires ValidConfig(cfg)
  {
    if steps == 0 then Initial(cfg, w)
    else exists v :: ReachableIn(cfg, steps - 1, v) && Next(cfg, v, w)
  }

  ghost predicate Reachable(cfg: Config, w: World)
    requires ValidConfig(cfg)
  {
    exists steps :: ReachableIn(cfg, steps, w)
  }
}
