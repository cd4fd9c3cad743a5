/**
 * The two-tier store refines a plain map from numbers to blocks: in every run, through archival
 * stopped at any point and restarted, a read returns exactly the block kept under its number.
 */
module TierInvariant {
  import opened Basics
  import opened Database
  import opened Gaps
  import opened ColdFiles
  import opened ArchiveNames
  import opened Tiers
  import Ledger

  // ----- the invariant -----

  ghost predicate InChunk(chunks: map<nat, seq<Block>>, s: nat, n: nat) {
    s in chunks && s <= n < s + |chunks[s]|
  }

  ghost predicate HotSound(cfg: Config, hot: map<nat, bytes>, front: Option<nat>, content: map<nat, Block>) {
    && (forall n | n in content :: Numbered(content[n], n))
    && (forall n | n in hot :: n in content && hot[n] == cfg.codec.encode(content[n]))
    && (front.None? ==> hot == map[])
  }

  ghost predicate ChunkSound(cfg: Config, first: nat, blocks: seq<Block>) {
    |blocks| > 0 && Consecutive(blocks, first) && Archivable(cfg, first, blocks)
  }

  /** Chunks lie below the hot window, and apart from one another. */
  ghost predicate ChunksApart(cfg: Config, front: Option<nat>, chunks: map<nat, seq<Block>>) {
    && (forall s | s in chunks ::
          ChunkSound(cfg, s, chunks[s]) && (front.Some? ==> s + |chunks[s]| <= front.value))
    && (forall s, t, n | InChunk(chunks, s, n) && InChunk(chunks, t, n) :: s == t)
  }

  /** What is written is hot or in a chunk, and chunks hold what is kept unless it is hot. */
  ghost predicate ChunksAgree(hot: map<nat, bytes>, chunks: map<nat, seq<Block>>, content: map<nat, Block>) {
    && (forall s, n {:trigger InChunk(chunks, s, n)} | InChunk(chunks, s, n) ::
          n in content && (n in hot || content[n] == chunks[s][n - s]))
    && (forall n {:trigger n in content} | n in content :: n in hot || exists s :: InChunk(chunks, s, n))
  }

  ghost predicate ArchiveAt(cfg: Config, disk: Disk, first: nat, blocks: seq<Block>, index: Kind, data: Kind)
    requires |blocks| > 0
  {
    var indexFile, dataFile := FileName(first, Last(first, blocks), index), FileName(first, Last(first, blocks), data);
    && indexFile in disk && dataFile in disk
    && IsArchive(cfg.codec, blocks, first, disk[indexFile], disk[dataFile])
  }

  function ChunkFile(first: nat, blocks: seq<Block>): FileName
    requires |blocks| > 0
  {
    FileName(first, Last(first, blocks), Index)
  }

  /** Every chunk has its files. */
  ghost predicate FilesSound(cfg: Config, disk: Disk, chunks: map<nat, seq<Block>>) {
    forall s | s in chunks :: |chunks[s]| > 0 && ArchiveAt(cfg, disk, s, chunks[s], Index, Data)
  }

  /** Every index file is that of a chunk, or of the front batch while all of it is hot. */
  ghost predicate DiskKnown(cfg: Config, hot: map<nat, bytes>, front: Option<nat>, disk: Disk,
                            chunks: map<nat, seq<Block>>)
    requires cfg.batchSize >= 1
  {
    forall file | file in disk && file.kind == Index ::
      || (file.first in chunks && |chunks[file.first]| > 0 && file == ChunkFile(file.first, chunks[file.first]))
      || (FrontComplete(cfg, hot, front) && file == FrontFile(cfg, front, Index))
  }

  function ChunkIndex(disk: Disk, first: nat, blocks: seq<Block>): MappedIndex
    requires |blocks| > 0 && ChunkFile(first, blocks) in disk
  {
    MappedIndex(first, Last(first, blocks), disk[ChunkFile(first, blocks)])
  }

  /** Every chunk is loaded. */
  ghost predicate IndicesSound(disk: Disk, indices: map<nat, MappedIndex>, chunks: map<nat, seq<Block>>) {
    forall s | s in chunks ::
      |chunks[s]| > 0 && ChunkFile(s, chunks[s]) in disk
      && s in indices && indices[s] == ChunkIndex(disk, s, chunks[s])
  }

  /** Every loaded index is that of a chunk, or of the front batch while all of it is hot. */
  ghost predicate IndicesKnown(cfg: Config, hot: map<nat, bytes>, front: Option<nat>,
                               indices: map<nat, MappedIndex>, chunks: map<nat, seq<Block>>)
  {
    forall s | s in indices && s !in chunks ::
      && FrontComplete(cfg, hot, front) && front == Some(s)
      && indices[s].start == s && indices[s].end == s + cfg.batchSize - 1 && indices[s].end < TEN_DIGITS
  }

  /** `blocks` were the blocks of the front batch when it was staged; all of it is still hot. */
  ghost predicate Moving(cfg: Config, hot: map<nat, bytes>, front: Option<nat>, blocks: seq<Block>)
    requires cfg.batchSize >= 1
  {
    FrontComplete(cfg, hot, front) && |blocks| == cfg.batchSize && ChunkSound(cfg, front.value, blocks)
  }

  /** The files of the moving blocks are where the phase says. */
  ghost predicate Progress(cfg: Config, phase: Phase, disk: Disk, indices: map<nat, MappedIndex>, first: nat)
    requires !phase.Idle? && |phase.blocks| > 0
  {
    match phase
    case Staged(blocks) => ArchiveAt(cfg, disk, first, blocks, IndexTemp, DataTemp)
    case DataMoved(blocks) => ArchiveAt(cfg, disk, first, blocks, IndexTemp, Data)
    case IndexMoved(blocks) => ArchiveAt(cfg, disk, first, blocks, Index, Data)
    case Loaded(blocks) =>
      && ArchiveAt(cfg, disk, first, blocks, Index, Data)
      && first in indices && indices[first] == ChunkIndex(disk, first, blocks)
  }

  ghost predicate PhaseSound(cfg: Config, w: World)
    requires cfg.batchSize >= 1
  {
    var store := w.store;
    store.phase.Idle?
    || (&& Moving(cfg, store.db.hot, store.db.earliestHot, store.phase.blocks)
        && Progress(cfg, store.phase, store.disk, store.indices, store.db.earliestHot.value))
  }

  /** The `i`-th archived chunk is a full batch, and ends where the next one, or the hot window, starts. */
  ghost predicate ArchivedAt(cfg: Config, front: Option<nat>, history: History, i: nat)
    requires i < |history.archived|
  {
    var s := history.archived[i];
    && front.Some?
    && s in history.chunks && |history.chunks[s]| == cfg.batchSize
    && s + cfg.batchSize == if i + 1 < |history.archived| then history.archived[i + 1] else front.value
  }

  /**
   * Archived chunks follow one another up to the hot window; only its front can be skipped; the recorded
   * earliest number is that of a stored block.
   */
  ghost predicate FrontierSound(cfg: Config, db: Db, history: History) {
    && (forall s | s in db.skipped :: db.earliestHot == Some(s))
    && (db.trueEarliest.Some? ==> db.trueEarliest.value in history.content)
    && (db.trueEarliest.None? ==> db.earliestHot.None?) && (db.earliestHot.None? ==> db.latest.None?)
    && (forall i | 0 <= i < |history.archived| :: ArchivedAt(cfg, db.earliestHot, history, i))
  }

  ghost predicate Inv(cfg: Config, w: World)
    requires ValidConfig(cfg)
  {
    var hot, front := w.store.db.hot, w.store.db.earliestHot;
    var History(content, chunks, archived, written) := w.history;
    && Ledger.Sound(cfg.seed, w.store.db, content.Keys) && written.Keys == content.Keys
    && HotSound(cfg, hot, front, content)
    && ChunksApart(cfg, front, chunks)
    && ChunksAgree(hot, chunks, content)
    && FilesSound(cfg, w.store.disk, chunks)
    && DiskKnown(cfg, hot, front, w.store.disk, chunks)
    && IndicesSound(w.store.disk, w.store.indices, chunks)
    && IndicesKnown(cfg, hot, front, w.store.indices, chunks)
    && PhaseSound(cfg, w)
    && FrontierSound(cfg, w.store.db, w.history)
  }

  // ----- reads -----

  function Expected(cfg: Config, content: map<nat, Block>, n: nat): Result<Option<bytes>, ReadError> {
    Ok(if n in content then Some(cfg.codec.encode(content[n])) else None)
  }

  lemma ReadThroughIndex(cfg: Config, disk: Disk, s: nat, blocks: seq<Block>, n: nat)
    requires Faithful(cfg.codec) && ChunkSound(cfg, s, blocks)
    requires ArchiveAt(cfg, disk, s, blocks, Index, Data) && s <= n < s + |blocks|
    ensures ReadRaw(cfg.codec, ChunkIndex(disk, s, blocks), DataOf(disk, s, Last(s, blocks)), n)
            == Ok(Some(cfg.codec.encode(blocks[n - s])))
  {
    var index := ChunkIndex(disk, s, blocks);
    ArchiveRoundTrip(cfg.codec, blocks, s, index.mapped, disk[FileName(s, Last(s, blocks), Data)], n);
  }

  /** The greatest loaded first number at or below `n` is that of the chunk holding `n`. */
  lemma FloorOfChunk(cfg: Config, hot: map<nat, bytes>, front: Option<nat>, indices: map<nat, MappedIndex>,
                     chunks: map<nat, seq<Block>>, s: nat, n: nat)
    requires ChunksApart(cfg, front, chunks) && IndicesKnown(cfg, hot, front, indices, chunks)
    requires s in indices && InChunk(chunks, s, n)
    ensures Floor(indices.Keys, n) == Some(s)
  {
    var f := Floor(indices.Keys, n).value;
    assert s <= f <= n && InChunk(chunks, s, f);
    assert f in chunks ==> InChunk(chunks, f, f);
  }

  lemma ReadOfChunk(cfg: Config, w: World, s: nat, n: nat)
    requires ValidConfig(cfg) && Faithful(cfg.codec) && Inv(cfg, w)
    requires InChunk(w.history.chunks, s, n)
    ensures ReadCold(cfg.codec, w.store, n) == Ok(Some(cfg.codec.encode(w.history.chunks[s][n - s])))
  {
    FloorOfChunk(cfg, w.store.db.hot, w.store.db.earliestHot, w.store.indices, w.history.chunks, s, n);
    ReadThroughIndex(cfg, w.store.disk, s, w.history.chunks[s], n);
  }

  lemma ReadOutsideChunks(cfg: Config, w: World, n: nat)
    requires ValidConfig(cfg) && Inv(cfg, w)
    requires n !in w.store.db.hot && !exists s :: InChunk(w.history.chunks, s, n)
    ensures ReadCold(cfg.codec, w.store, n) == Ok(None)
  {
    var f := Floor(w.store.indices.Keys, n);
    if f.Some? {
      var index := w.store.indices[f.value];
      assert !InChunk(w.history.chunks, f.value, n);
      if f.value !in w.history.chunks {
        assert !InFront(cfg, w.store.db.earliestHot, n);
      }
      assert GetRecord(index, n) == None;
    }
  }

  /** A read returns the block kept under the number, and nothing for one never written. */
  lemma ReadRefinesMap(cfg: Config, w: World, n: nat)
    requires ValidConfig(cfg) && Faithful(cfg.codec) && Inv(cfg, w)
    ensures Read(cfg.codec, w.store, n) == Expected(cfg, w.history.content, n)
  {
    if n !in w.store.db.hot {
      if s :| InChunk(w.history.chunks, s, n) {
        ReadOfChunk(cfg, w, s, n);
      } else {
        ReadOutsideChunks(cfg, w, n);
      }
    }
  }
}
