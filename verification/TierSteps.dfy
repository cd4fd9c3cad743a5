/** Every step of the two-tier store keeps the invariant, so every run refines the plain map. */
module TierSteps {
  import opened Basics
  import opened Database
  import opened Gaps
  import opened ColdFiles
  import opened ArchiveNames
  import opened Tiers
  import opened TierInvariant
  import Ledger

  type Hot = map<nat, bytes>
  type Chunks = map<nat, seq<Block>>

  // ----- live writes -----

  lemma FrontStays(cfg: Config, hot: Hot, hot': Hot, front: Option<nat>)
    requires FrontComplete(cfg, hot, front) && hot.Keys <= hot'.Keys
    ensures FrontComplete(cfg, hot', front)
  {
  }

  lemma KnownStays(cfg: Config, hot: Hot, hot': Hot, front: Option<nat>, front': Option<nat>,
                   disk: Disk, indices: map<nat, MappedIndex>, chunks: Chunks)
    requires cfg.batchSize >= 1 && hot.Keys <= hot'.Keys && (front.Some? ==> front' == front)
    requires DiskKnown(cfg, hot, front, disk, chunks) && IndicesKnown(cfg, hot, front, indices, chunks)
    ensures DiskKnown(cfg, hot', front', disk, chunks) && IndicesKnown(cfg, hot', front', indices, chunks)
  {
    if FrontComplete(cfg, hot, front) {
      FrontStays(cfg, hot, hot', front);
    }
  }

  lemma WriteKeepsAgreement(hot: Hot, chunks: Chunks, content: map<nat, Block>, n: nat, value: bytes, block: Block)
    requires ChunksAgree(hot, chunks, content)
    ensures ChunksAgree(hot[n := value], chunks, content[n := block])
  {
  }

  lemma WriteKeepsHot(cfg: Config, w: World, w': World, n: nat, block: Block)
    requires HotSound(cfg, w.store.db.hot, w.store.db.earliestHot, w.history.content) && LiveWrite(cfg, w, w', n, block)
    ensures HotSound(cfg, w'.store.db.hot, w'.store.db.earliestHot, w'.history.content)
  {
  }

  lemma WriteKeepsApart(cfg: Config, w: World, w': World, n: nat, block: Block)
    requires ChunksApart(cfg, w.store.db.earliestHot, w.history.chunks) && LiveWrite(cfg, w, w', n, block)
    ensures ChunksApart(cfg, w'.store.db.earliestHot, w'.history.chunks)
  {
  }

  lemma WriteKeepsLedger(cfg: Config, w: World, w': World, n: nat, block: Block)
    requires Ledger.Sound(cfg.seed, w.store.db, w.history.content.Keys) && LiveWrite(cfg, w, w', n, block)
    ensures Ledger.Sound(cfg.seed, w'.store.db, w'.history.content.Keys)
  {
    Ledger.WriteKeepsSound(cfg.seed, w.store.db, w'.store.db, n, cfg.codec.encode(block), w.history.content.Keys);
    assert w'.history.content.Keys == w.history.content.Keys + {n};
  }

  lemma WriteKeepsPhase(cfg: Config, w: World, w': World, n: nat, block: Block)
    requires ValidConfig(cfg) && PhaseSound(cfg, w) && LiveWrite(cfg, w, w', n, block)
    ensures PhaseSound(cfg, w')
  {
    if !w.store.phase.Idle? {
      FrontStays(cfg, w.store.db.hot, w'.store.db.hot, w.store.db.earliestHot);
    }
  }

  lemma WriteKeepsFrontier(cfg: Config, w: World, w': World, n: nat, block: Block)
    requires FrontierSound(cfg, w.store.db, w.history) && LiveWrite(cfg, w, w', n, block)
    ensures FrontierSound(cfg, w'.store.db, w'.history)
  {
    forall i | 0 <= i < |w'.history.archived| ensures ArchivedAt(cfg, w'.store.db.earliestHot, w'.history, i) {
      assert ArchivedAt(cfg, w.store.db.earliestHot, w.history, i);
    }
  }

  lemma WriteKeepsContent(cfg: Config, w: World, w': World, n: nat, block: Block)
    requires LiveWrite(cfg, w, w', n, block) && Ledger.Sound(cfg.seed, w.store.db, w.history.content.Keys)
    requires HotSound(cfg, w.store.db.hot, w.store.db.earliestHot, w.history.content)
    requires ChunksApart(cfg, w.store.db.earliestHot, w.history.chunks)
    requires ChunksAgree(w.store.db.hot, w.history.chunks, w.history.content)
    ensures Ledger.Sound(cfg.seed, w'.store.db, w'.history.content.Keys)
    ensures HotSound(cfg, w'.store.db.hot, w'.store.db.earliestHot, w'.history.content)
    ensures ChunksApart(cfg, w'.store.db.earliestHot, w'.history.chunks)
    ensures ChunksAgree(w'.store.db.hot, w'.history.chunks, w'.history.content)
  {
    WriteKeepsLedger(cfg, w, w', n, block);
    WriteKeepsHot(cfg, w, w', n, block);
    WriteKeepsApart(cfg, w, w', n, block);
    WriteKeepsAgreement(w.store.db.hot, w.history.chunks, w.history.content, n, cfg.codec.encode(block), block);
  }

  lemma LiveWriteKeepsInv(cfg: Config, w: World, w': World, n: nat, block: Block)
    requires ValidConfig(cfg) && Inv(cfg, w) && LiveWrite(cfg, w, w', n, block)
    ensures Inv(cfg, w')
  {
    var db, db' := w.store.db, w'.store.db;
    WriteKeepsContent(cfg, w, w', n, block);
    KnownStays(cfg, db.hot, db'.hot, db.earliestHot, db'.earliestHot, w.store.disk, w.store.indices, w.history.chunks);
    WriteKeepsPhase(cfg, w, w', n, block);
    WriteKeepsFrontier(cfg, w, w', n, block);
  }

  // ----- historical batches -----

  /** A chunk within the file formats is loaded under its first number. */
  lemma LoadsChunk(disk: Disk, indices: map<nat, MappedIndex>, first: nat, blocks: seq<Block>)
    requires |blocks| > 0 && first + |blocks| <= TEN_DIGITS
    requires ChunkFile(first, blocks) in disk && FileName(first, Last(first, blocks), Data) in disk
    ensures LoadIndex(disk, indices, ChunkFile(first, blocks)) == indices[first := ChunkIndex(disk, first, blocks)]
  {
    ParseOfRender(first, Last(first, blocks));
  }

  lemma BatchApart(cfg: Config, w: World, first: nat, blocks: seq<Block>)
    requires ChunksApart(cfg, w.store.db.earliestHot, w.history.chunks)
    requires ChunksAgree(w.store.db.hot, w.history.chunks, w.history.content) && CanBatch(cfg, w, first, blocks)
    ensures first !in w.history.chunks
    ensures ChunksApart(cfg, w.store.db.earliestHot, w.history.chunks[first := blocks])
  {
    var chunks, chunks' := w.history.chunks, w.history.chunks[first := blocks];
    assert !InChunk(chunks, first, first);
    forall s: nat, n: nat | s != first && InChunk(chunks', s, n) ensures n !in Range(first, |blocks|) {
      assert InChunk(chunks, s, n);
    }
    forall s: nat, t: nat, n: nat | InChunk(chunks', s, n) && InChunk(chunks', t, n) ensures s == t {
      if s != first && t != first {
        assert InChunk(chunks, s, n) && InChunk(chunks, t, n);
      }
    }
  }

  lemma BatchAgrees(hot: Hot, chunks: Chunks, content: map<nat, Block>, first: nat, blocks: seq<Block>)
    requires ChunksAgree(hot, chunks, content) && first !in chunks
    requires forall n: nat | first <= n < first + |blocks| :: n !in content
    ensures ChunksAgree(hot, chunks[first := blocks], WithNumbers(content, first, blocks))
  {
    var chunks', content' := chunks[first := blocks], WithNumbers(content, first, blocks);
    forall s, n: nat | InChunk(chunks', s, n)
      ensures n in content' && (n in hot || content'[n] == chunks'[s][n - s])
    {
      assert s != first ==> InChunk(chunks, s, n);
    }
    forall n: nat | n in content' ensures n in hot || exists s :: InChunk(chunks', s, n) {
      if n in Range(first, |blocks|) {
        assert InChunk(chunks', first, n);
      } else if n !in hot {
        var s :| InChunk(chunks, s, n);
        assert InChunk(chunks', s, n);
      }
    }
  }

  lemma PlacedElsewhere(cfg: Config, disk: Disk, disk': Disk, first: nat, blocks: seq<Block>,
                        s: nat, other: seq<Block>, index: Kind, data: Kind)
    requires |blocks| > 0 && |other| > 0 && s != first
    requires FilesPlaced(cfg, disk, disk', first, blocks) && ArchiveAt(cfg, disk, s, other, index, data)
    ensures ArchiveAt(cfg, disk', s, other, index, data)
    ensures disk'[FileName(s, Last(s, other), index)] == disk[FileName(s, Last(s, other), index)]
  {
  }

  lemma BatchKeepsFiles(cfg: Config, disk: Disk, disk': Disk, chunks: Chunks, first: nat, blocks: seq<Block>)
    requires FilesSound(cfg, disk, chunks) && first !in chunks
    requires |blocks| > 0 && FilesPlaced(cfg, disk, disk', first, blocks)
    ensures FilesSound(cfg, disk', chunks[first := blocks])
  {
    forall s | s in chunks ensures ArchiveAt(cfg, disk', s, chunks[s], Index, Data) {
      PlacedElsewhere(cfg, disk, disk', first, blocks, s, chunks[s], Index, Data);
    }
  }

  lemma BatchKeepsIndices(cfg: Config, disk: Disk, disk': Disk, indices: map<nat, MappedIndex>, chunks: Chunks,
                          first: nat, blocks: seq<Block>)
    requires FilesSound(cfg, disk, chunks) && IndicesSound(disk, indices, chunks) && first !in chunks
    requires |blocks| > 0 && FilesPlaced(cfg, disk, disk', first, blocks)
    ensures IndicesSound(disk', indices[first := ChunkIndex(disk', first, blocks)], chunks[first := blocks])
  {
    forall s | s in chunks
      ensures ChunkFile(s, chunks[s]) in disk' && ChunkIndex(disk', s, chunks[s]) == ChunkIndex(disk, s, chunks[s])
    {
      PlacedElsewhere(cfg, disk, disk', first, blocks, s, chunks[s], Index, Data);
    }
  }

  lemma BatchKeepsKnown(cfg: Config, hot: Hot, front: Option<nat>, disk: Disk, disk': Disk,
                        indices: map<nat, MappedIndex>, chunks: Chunks, first: nat, blocks: seq<Block>)
    requires cfg.batchSize >= 1 && first !in chunks && |blocks| > 0 && FilesPlaced(cfg, disk, disk', first, blocks)
    requires DiskKnown(cfg, hot, front, disk, chunks) && IndicesKnown(cfg, hot, front, indices, chunks)
    ensures DiskKnown(cfg, hot, front, disk', chunks[first := blocks])
    ensures IndicesKnown(cfg, hot, front, indices[first := ChunkIndex(disk', first, blocks)], chunks[first := blocks])
  {
  }

  lemma BatchKeepsProgress(cfg: Config, phase: Phase, disk: Disk, disk': Disk, indices: map<nat, MappedIndex>,
                           first: nat, blocks: seq<Block>, eh: nat)
    requires |blocks| > 0 && !phase.Idle? && |phase.blocks| > 0 && eh != first
    requires Progress(cfg, phase, disk, indices, eh) && FilesPlaced(cfg, disk, disk', first, blocks)
    ensures Progress(cfg, phase, disk', indices[first := ChunkIndex(disk', first, blocks)], eh)
  {
    match phase
    case Staged(moving) => PlacedElsewhere(cfg, disk, disk', first, blocks, eh, moving, IndexTemp, DataTemp);
    case DataMoved(moving) => PlacedElsewhere(cfg, disk, disk', first, blocks, eh, moving, IndexTemp, Data);
    case IndexMoved(moving) => PlacedElsewhere(cfg, disk, disk', first, blocks, eh, moving, Index, Data);
    case Loaded(moving) => PlacedElsewhere(cfg, disk, disk', first, blocks, eh, moving, Index, Data);
  }

  lemma BatchKeepsPhase(cfg: Config, w: World, w': World, first: nat, blocks: seq<Block>)
    requires ValidConfig(cfg) && PhaseSound(cfg, w) && BatchWrite(cfg, w, w', first, blocks)
    ensures PhaseSound(cfg, w')
  {
    if !w.store.phase.Idle? {
      LoadsChunk(w'.store.disk, w.store.indices, first, blocks);
      BatchKeepsProgress(cfg, w.store.phase, w.store.disk, w'.store.disk, w.store.indices, first, blocks,
                         w.store.db.earliestHot.value);
    }
  }

  lemma BatchKeepsFrontier(cfg: Config, w: World, w': World, first: nat, blocks: seq<Block>)
    requires FrontierSound(cfg, w.store.db, w.history) && BatchWrite(cfg, w, w', first, blocks)
    requires first !in w.history.chunks
    ensures FrontierSound(cfg, w'.store.db, w'.history)
  {
    forall i | 0 <= i < |w'.history.archived| ensures ArchivedAt(cfg, w'.store.db.earliestHot, w'.history, i) {
      assert ArchivedAt(cfg, w.store.db.earliestHot, w.history, i);
    }
  }

  lemma BatchKeepsHot(cfg: Config, w: World, first: nat, blocks: seq<Block>)
    requires HotSound(cfg, w.store.db.hot, w.store.db.earliestHot, w.history.content) && CanBatch(cfg, w, first, blocks)
    ensures HotSound(cfg, w.store.db.hot, w.store.db.earliestHot, WithNumbers(w.history.content, first, blocks))
  {
    var content := WithNumbers(w.history.content, first, blocks);
    forall n | n in content ensures Numbered(content[n], n) {
      assert n in Range(first, |blocks|) ==> content[n] == blocks[n - first];
    }
  }

  lemma BatchKeepsContent(cfg: Config, w: World, w': World, first: nat, blocks: seq<Block>)
    requires BatchWrite(cfg, w, w', first, blocks) && Ledger.Sound(cfg.seed, w.store.db, w.history.content.Keys)
    requires HotSound(cfg, w.store.db.hot, w.store.db.earliestHot, w.history.content)
    requires ChunksApart(cfg, w.store.db.earliestHot, w.history.chunks)
    requires ChunksAgree(w.store.db.hot, w.history.chunks, w.history.content)
    ensures first !in w.history.chunks && Ledger.Sound(cfg.seed, w'.store.db, w'.history.content.Keys)
    ensures HotSound(cfg, w'.store.db.hot, w'.store.db.earliestHot, w'.history.content)
    ensures ChunksApart(cfg, w'.store.db.earliestHot, w'.history.chunks)
    ensures ChunksAgree(w'.store.db.hot, w'.history.chunks, w'.history.content)
  {
    BatchKeepsHot(cfg, w, first, blocks);
    BatchApart(cfg, w, first, blocks);
    BatchAgrees(w.store.db.hot, w.history.chunks, w.history.content, first, blocks);
    assert w.history.content.Keys <= w'.history.content.Keys;
  }

  lemma BatchKeepsDisk(cfg: Config, w: World, w': World, first: nat, blocks: seq<Block>)
    requires ValidConfig(cfg) && BatchWrite(cfg, w, w', first, blocks) && first !in w.history.chunks
    requires FilesSound(cfg, w.store.disk, w.history.chunks)
    requires DiskKnown(cfg, w.store.db.hot, w.store.db.earliestHot, w.store.disk, w.history.chunks)
    requires IndicesSound(w.store.disk, w.store.indices, w.history.chunks)
    requires IndicesKnown(cfg, w.store.db.hot, w.store.db.earliestHot, w.store.indices, w.history.chunks)
    ensures FilesSound(cfg, w'.store.disk, w'.history.chunks)
    ensures DiskKnown(cfg, w'.store.db.hot, w'.store.db.earliestHot, w'.store.disk, w'.history.chunks)
    ensures IndicesSound(w'.store.disk, w'.store.indices, w'.history.chunks)
    ensures IndicesKnown(cfg, w'.store.db.hot, w'.store.db.earliestHot, w'.store.indices, w'.history.chunks)
  {
    var db, store, store', chunks := w.store.db, w.store, w'.store, w.history.chunks;
    BatchKeepsFiles(cfg, store.disk, store'.disk, chunks, first, blocks);
    LoadsChunk(store'.disk, store.indices, first, blocks);
    BatchKeepsIndices(cfg, store.disk, store'.disk, store.indices, chunks, first, blocks);
    BatchKeepsKnown(cfg, db.hot, db.earliestHot, store.disk, store'.disk, store.indices, chunks, first, blocks);
  }

  lemma BatchWriteKeepsInv(cfg: Config, w: World, w': World, first: nat, blocks: seq<Block>)
    requires ValidConfig(cfg) && Inv(cfg, w) && BatchWrite(cfg, w, w', first, blocks)
    ensures Inv(cfg, w')
  {
    BatchKeepsContent(cfg, w, w', first, blocks);
    BatchKeepsDisk(cfg, w, w', first, blocks);
    BatchKeepsPhase(cfg, w, w', first, blocks);
    BatchKeepsFrontier(cfg, w, w', first, blocks);
  }

  // ----- archival -----

  /** The final files of every chunk but the front one are the same. */
  ghost predicate SameChunkFiles(disk: Disk, disk': Disk, front: nat) {
    forall file | IsFinal(file) && file.first != front ::
      (file in disk' <==> file in disk) && (file in disk ==> disk'[file] == disk[file])
  }

  lemma ChunkFilesStay(cfg: Config, disk: Disk, disk': Disk, chunks: Chunks, front: nat)
    requires FilesSound(cfg, disk, chunks) && front !in chunks && SameChunkFiles(disk, disk', front)
    ensures FilesSound(cfg, disk', chunks)
  {
    forall s | s in chunks ensures ArchiveAt(cfg, disk', s, chunks[s], Index, Data) {
      assert ArchiveAt(cfg, disk, s, chunks[s], Index, Data);
    }
  }

  lemma ChunkIndicesStay(disk: Disk, disk': Disk, indices: map<nat, MappedIndex>, indices': map<nat, MappedIndex>,
                         chunks: Chunks, front: nat)
    requires IndicesSound(disk, indices, chunks) && front !in chunks && SameChunkFiles(disk, disk', front)
    requires indices' - {front} == indices - {front}
    ensures IndicesSound(disk', indices', chunks)
  {
    forall s | s in chunks ensures s in indices' && indices'[s] == indices[s] {
      assert s in indices - {front};
      assert s in indices' - {front};
      assert (indices' - {front})[s] == (indices - {front})[s];
    }
  }

  /** A step of the archiver before it touches the database concerns only the front batch. */
  lemma ArchivalStepKeepsInv(cfg: Config, w: World, w': World)
    requires ValidConfig(cfg) && Inv(cfg, w) && w'.store.db == w.store.db && w'.history == w.history
    requires w.store.db.earliestHot.Some?
    requires SameChunkFiles(w.store.disk, w'.store.disk, w.store.db.earliestHot.value)
    requires w'.store.indices - {w.store.db.earliestHot.value} == w.store.indices - {w.store.db.earliestHot.value}
    requires DiskKnown(cfg, w.store.db.hot, w.store.db.earliestHot, w'.store.disk, w.history.chunks)
    requires IndicesKnown(cfg, w.store.db.hot, w.store.db.earliestHot, w'.store.indices, w.history.chunks)
    requires PhaseSound(cfg, w')
    ensures Inv(cfg, w')
  {
    var front, chunks := w.store.db.earliestHot.value, w.history.chunks;
    assert front !in chunks;
    ChunkFilesStay(cfg, w.store.disk, w'.store.disk, chunks, front);
    ChunkIndicesStay(w.store.disk, w'.store.disk, w.store.indices, w'.store.indices, chunks, front);
  }

  lemma FrontBlock(cfg: Config, db: Db, content: map<nat, Block>, blocks: seq<Block>, i: nat)
    requires ValidConfig(cfg) && Faithful(cfg.codec) && FrontBlocks(cfg, db, blocks) && i < |blocks|
    requires HotSound(cfg, db.hot, db.earliestHot, content)
    ensures db.earliestHot.value + i in content && blocks[i] == content[db.earliestHot.value + i]
  {
    var n := db.earliestHot.value + i;
    assert InFront(cfg, db.earliestHot, n);
    assert db.hot[n] == cfg.codec.encode(content[n]);
  }

  /** The blocks are those kept under the numbers of the front batch. */
  ghost predicate AsKept(cfg: Config, front: Option<nat>, content: map<nat, Block>, blocks: seq<Block>) {
    && |blocks| == cfg.batchSize
    && (forall n: nat {:trigger InFront(cfg, front, n)} | InFront(cfg, front, n) ::
          n in content && blocks[n - front.value] == content[n])
  }

  lemma StagedBlocks(cfg: Config, db: Db, content: map<nat, Block>, blocks: seq<Block>)
    requires ValidConfig(cfg) && Faithful(cfg.codec) && FrontBlocks(cfg, db, blocks)
    requires HotSound(cfg, db.hot, db.earliestHot, content)
    ensures Consecutive(blocks, db.earliestHot.value)
    ensures AsKept(cfg, db.earliestHot, content, blocks)
  {
    forall n: nat | InFront(cfg, db.earliestHot, n)
      ensures n in content && blocks[n - db.earliestHot.value] == content[n]
    {
      FrontBlock(cfg, db, content, blocks, n - db.earliestHot.value);
    }
    forall i | 0 <= i < |blocks| ensures Numbered(blocks[i], db.earliestHot.value + i) {
      FrontBlock(cfg, db, content, blocks, i);
    }
  }

  lemma StageKeepsInv(cfg: Config, w: World, w': World, blocks: seq<Block>)
    requires ValidConfig(cfg) && Faithful(cfg.codec) && Inv(cfg, w) && Stage(cfg, w, w', blocks)
    requires Archivable(cfg, w.store.db.earliestHot.value, blocks)
    ensures Inv(cfg, w')
  {
    StageMoving(cfg, w.store.db, w.history.content, blocks);
    StageProgress(cfg, w, w', blocks);
    ArchivalStepKeepsInv(cfg, w, w');
  }

  lemma StageMoving(cfg: Config, db: Db, content: map<nat, Block>, blocks: seq<Block>)
    requires ValidConfig(cfg) && Faithful(cfg.codec) && FrontBlocks(cfg, db, blocks)
    requires HotSound(cfg, db.hot, db.earliestHot, content) && Archivable(cfg, db.earliestHot.value, blocks)
    ensures Moving(cfg, db.hot, db.earliestHot, blocks)
  {
    StagedBlocks(cfg, db, content, blocks);
  }

  lemma StageProgress(cfg: Config, w: World, w': World, blocks: seq<Block>)
    requires ValidConfig(cfg) && Stage(cfg, w, w', blocks)
    ensures Progress(cfg, w'.store.phase, w'.store.disk, w'.store.indices, w.store.db.earliestHot.value)
    ensures SameChunkFiles(w.store.disk, w'.store.disk, w.store.db.earliestHot.value)
    ensures forall file: FileName | file.kind == Index :: file in w'.store.disk <==> file in w.store.disk
  {
  }

  lemma MoveKeepsFiles(cfg: Config, w: World, w': World)
    requires ValidConfig(cfg) && (MoveData(cfg, w, w') || MoveIndex(cfg, w, w'))
    ensures SameChunkFiles(w.store.disk, w'.store.disk, w.store.db.earliestHot.value)
    ensures forall file: FileName | file.kind == Index ::
              file in w'.store.disk ==> file in w.store.disk || file == FrontFile(cfg, w.store.db.earliestHot, Index)
  {
  }

  lemma MoveKeepsKnown(cfg: Config, w: World, w': World)
    requires ValidConfig(cfg) && (MoveData(cfg, w, w') || MoveIndex(cfg, w, w')) && PhaseSound(cfg, w)
    requires DiskKnown(cfg, w.store.db.hot, w.store.db.earliestHot, w.store.disk, w.history.chunks)
    ensures DiskKnown(cfg, w.store.db.hot, w.store.db.earliestHot, w'.store.disk, w.history.chunks)
  {
    MoveKeepsFiles(cfg, w, w');
  }

  lemma MoveKeepsInv(cfg: Config, w: World, w': World)
    requires ValidConfig(cfg) && Inv(cfg, w) && (MoveData(cfg, w, w') || MoveIndex(cfg, w, w'))
    ensures Inv(cfg, w')
  {
    MovePhase(cfg, w, w');
    MoveKeepsFiles(cfg, w, w');
    MoveKeepsKnown(cfg, w, w');
    ArchivalStepKeepsInv(cfg, w, w');
  }

  lemma MovePhase(cfg: Config, w: World, w': World)
    requires ValidConfig(cfg) && PhaseSound(cfg, w) && (MoveData(cfg, w, w') || MoveIndex(cfg, w, w'))
    ensures PhaseSound(cfg, w')
  {
  }

  lemma LoadKeepsInv(cfg: Config, w: World, w': World)
    requires ValidConfig(cfg) && Inv(cfg, w) && Load(cfg, w, w')
    ensures Inv(cfg, w')
  {
    LoadPhase(cfg, w, w');
    LoadKeepsKnown(cfg, w, w');
    ArchivalStepKeepsInv(cfg, w, w');
  }

  lemma LoadKeepsKnown(cfg: Config, w: World, w': World)
    requires ValidConfig(cfg) && PhaseSound(cfg, w) && Load(cfg, w, w')
    requires IndicesKnown(cfg, w.store.db.hot, w.store.db.earliestHot, w.store.indices, w.history.chunks)
    ensures IndicesKnown(cfg, w.store.db.hot, w.store.db.earliestHot, w'.store.indices, w.history.chunks)
  {
    LoadPhase(cfg, w, w');
  }

  lemma LoadPhase(cfg: Config, w: World, w': World)
    requires ValidConfig(cfg) && PhaseSound(cfg, w) && Load(cfg, w, w')
    ensures PhaseSound(cfg, w')
    ensures w'.store.indices - {w.store.db.earliestHot.value} == w.store.indices - {w.store.db.earliestHot.value}
    ensures forall s | s in w'.store.indices ::
              || (s in w.store.indices && w'.store.indices[s] == w.store.indices[s])
              || (FrontComplete(cfg, w.store.db.hot, w.store.db.earliestHot) && w.store.db.earliestHot == Some(s)
                  && w'.store.indices[s].start == s && w'.store.indices[s].end == s + cfg.batchSize - 1 < TEN_DIGITS)
  {
    LoadsChunk(w.store.disk, w.store.indices, w.store.db.earliestHot.value, w.store.phase.blocks);
  }

  // ----- retirement -----

  /** The numbers of a batch that is being moved are kept already, so retirement adds none. */
  lemma RetireKeepsKeys(cfg: Config, w: World)
    requires ValidConfig(cfg) && HotSound(cfg, w.store.db.hot, w.store.db.earliestHot, w.history.content)
    requires PhaseSound(cfg, w) && !w.store.phase.Idle?
    ensures WithNumbers(w.history.content, w.store.db.earliestHot.value, w.store.phase.blocks).Keys
            == w.history.content.Keys
    ensures w.history.content != map[]
  {
    var first := w.store.db.earliestHot.value;
    forall n: nat | n in Range(first, cfg.batchSize) ensures n in w.history.content {
      assert InFront(cfg, w.store.db.earliestHot, n);
    }
    assert first in Range(first, cfg.batchSize);
  }

  lemma RetireKeepsHot(cfg: Config, w: World, w': World)
    requires ValidConfig(cfg) && PhaseSound(cfg, w) && Retire(cfg, w, w')
    requires HotSound(cfg, w.store.db.hot, w.store.db.earliestHot, w.history.content)
    ensures HotSound(cfg, w'.store.db.hot, w'.store.db.earliestHot, w'.history.content)
  {
    var first, blocks, content := w.store.db.earliestHot.value, w.store.phase.blocks, w'.history.content;
    forall n | n in content ensures Numbered(content[n], n) {
      assert n in Range(first, |blocks|) ==> content[n] == blocks[n - first];
    }
  }

  lemma RetireKeepsApart(cfg: Config, w: World, w': World)
    requires ValidConfig(cfg) && PhaseSound(cfg, w) && Retire(cfg, w, w')
    requires ChunksApart(cfg, w.store.db.earliestHot, w.history.chunks)
    ensures ChunksApart(cfg, w'.store.db.earliestHot, w'.history.chunks)
  {
    var first, chunks, chunks' := w.store.db.earliestHot.value, w.history.chunks, w'.history.chunks;
    forall s: nat, n: nat | InChunk(chunks', s, n)
      ensures if s == first then n >= first else InChunk(chunks, s, n) && n < first
    {
    }
  }

  lemma RetireKeepsAgreement(cfg: Config, w: World, w': World)
    requires ValidConfig(cfg) && PhaseSound(cfg, w) && Retire(cfg, w, w')
    requires HotSound(cfg, w.store.db.hot, w.store.db.earliestHot, w.history.content)
    requires ChunksApart(cfg, w.store.db.earliestHot, w.history.chunks)
    requires ChunksAgree(w.store.db.hot, w.history.chunks, w.history.content)
    ensures ChunksAgree(w'.store.db.hot, w'.history.chunks, w'.history.content)
  {
    var front := w.store.db.earliestHot;
    forall s: nat, n: nat | InChunk(w.history.chunks, s, n) ensures !InFront(cfg, front, n) { }
    RetireKeepsKeys(cfg, w);
    MovesToChunk(cfg, w.store.db.hot, front, w.history.chunks, w.history.content, w.store.phase.blocks);
  }

  lemma MovedBlock(cfg: Config, hot: Hot, front: Option<nat>, chunks: Chunks, content: map<nat, Block>,
                   blocks: seq<Block>, s: nat, n: nat)
    requires front.Some? && |blocks| == cfg.batchSize && front.value !in chunks && ChunksAgree(hot, chunks, content)
    requires InChunk(chunks, s, n) ==> !InFront(cfg, front, n)
    requires InChunk(chunks[front.value := blocks], s, n)
    ensures var content' := WithNumbers(content, front.value, blocks);
            && n in content'
            && (n in Without(hot, front.value, cfg.batchSize)
                || content'[n] == chunks[front.value := blocks][s][n - s])
  {
    if s == front.value {
      assert n in Range(front.value, |blocks|);
    } else {
      assert InChunk(chunks, s, n) && n !in Range(front.value, |blocks|);
    }
  }

  lemma MovesToChunk(cfg: Config, hot: Hot, front: Option<nat>, chunks: Chunks, content: map<nat, Block>,
                     blocks: seq<Block>)
    requires front.Some? && |blocks| == cfg.batchSize && front.value !in chunks && ChunksAgree(hot, chunks, content)
    requires WithNumbers(content, front.value, blocks).Keys == content.Keys
    requires forall s: nat, n: nat | InChunk(chunks, s, n) :: !InFront(cfg, front, n)
    ensures ChunksAgree(Without(hot, front.value, cfg.batchSize), chunks[front.value := blocks],
                        WithNumbers(content, front.value, blocks))
  {
    var hot', chunks' := Without(hot, front.value, cfg.batchSize), chunks[front.value := blocks];
    var content' := WithNumbers(content, front.value, blocks);
    forall s: nat, n: nat | InChunk(chunks', s, n)
      ensures n in content' && (n in hot' || content'[n] == chunks'[s][n - s])
    {
      MovedBlock(cfg, hot, front, chunks, content, blocks, s, n);
    }
    forall n: nat | n in content' ensures n in hot' || exists s :: InChunk(chunks', s, n) {
      if InFront(cfg, front, n) {
        assert InChunk(chunks', front.value, n);
      } else if n !in hot {
        var s :| InChunk(chunks, s, n);
        assert InChunk(chunks', s, n);
      }
    }
  }

  lemma RetireKeepsKnown(cfg: Config, w: World, w': World)
    requires ValidConfig(cfg) && PhaseSound(cfg, w) && Retire(cfg, w, w')
    requires ChunksApart(cfg, w.store.db.earliestHot, w.history.chunks)
    requires DiskKnown(cfg, w.store.db.hot, w.store.db.earliestHot, w.store.disk, w.history.chunks)
    requires IndicesKnown(cfg, w.store.db.hot, w.store.db.earliestHot, w.store.indices, w.history.chunks)
    ensures DiskKnown(cfg, w'.store.db.hot, w'.store.db.earliestHot, w'.store.disk, w'.history.chunks)
    ensures IndicesKnown(cfg, w'.store.db.hot, w'.store.db.earliestHot, w'.store.indices, w'.history.chunks)
  {
  }

  lemma RetireKeepsFiles(cfg: Config, w: World, w': World)
    requires ValidConfig(cfg) && PhaseSound(cfg, w) && Retire(cfg, w, w')
    requires FilesSound(cfg, w.store.disk, w.history.chunks)
    ensures FilesSound(cfg, w'.store.disk, w'.history.chunks)
  {
  }

  lemma RetireKeepsIndices(cfg: Config, w: World, w': World)
    requires ValidConfig(cfg) && PhaseSound(cfg, w) && Retire(cfg, w, w')
    requires IndicesSound(w.store.disk, w.store.indices, w.history.chunks)
    ensures IndicesSound(w'.store.disk, w'.store.indices, w'.history.chunks)
  {
  }

  lemma RetireKeepsFrontier(cfg: Config, w: World, w': World)
    requires ValidConfig(cfg) && PhaseSound(cfg, w) && Retire(cfg, w, w') && FrontierSound(cfg, w.store.db, w.history)
    requires w.history.content != map[]
    requires ChunksApart(cfg, w.store.db.earliestHot, w.history.chunks)
    ensures FrontierSound(cfg, w'.store.db, w'.history)
  {
    forall i | 0 <= i < |w'.history.archived| ensures ArchivedAt(cfg, w'.store.db.earliestHot, w'.history, i) {
      if i < |w.history.archived| {
        assert ArchivedAt(cfg, w.store.db.earliestHot, w.history, i);
      }
    }
  }

  lemma RetireKeepsInv(cfg: Config, w: World, w': World)
    requires ValidConfig(cfg) && Inv(cfg, w) && Retire(cfg, w, w')
    ensures Inv(cfg, w')
  {
    RetireKeepsKeys(cfg, w);
    RetireKeepsHot(cfg, w, w');
    RetireKeepsApart(cfg, w, w');
    RetireKeepsAgreement(cfg, w, w');
    RetireKeepsFiles(cfg, w, w');
    RetireKeepsIndices(cfg, w, w');
    RetireKeepsKnown(cfg, w, w');
    RetireKeepsFrontier(cfg, w, w');
  }

  // ----- skipping, torn files, restart -----

  lemma SkipKeepsFrontier(cfg: Config, w: World, w': World)
    requires FrontierSound(cfg, w.store.db, w.history) && Skip(cfg, w, w')
    ensures FrontierSound(cfg, w'.store.db, w'.history)
  {
    forall i | 0 <= i < |w'.history.archived| ensures ArchivedAt(cfg, w'.store.db.earliestHot, w'.history, i) {
      assert ArchivedAt(cfg, w.store.db.earliestHot, w.history, i);
    }
  }

  lemma SkipKeepsInv(cfg: Config, w: World, w': World)
    requires ValidConfig(cfg) && Inv(cfg, w) && Skip(cfg, w, w')
    ensures Inv(cfg, w')
  {
    SkipKeepsFrontier(cfg, w, w');
  }

  lemma TearKeepsInv(cfg: Config, w: World, w': World)
    requires ValidConfig(cfg) && Inv(cfg, w) && TearFiles(w, w')
    ensures Inv(cfg, w')
  {
    assert FilesSound(cfg, w'.store.disk, w.history.chunks) by {
      forall s | s in w.history.chunks
        ensures ArchiveAt(cfg, w'.store.disk, s, w.history.chunks[s], Index, Data)
      {
        assert ArchiveAt(cfg, w.store.disk, s, w.history.chunks[s], Index, Data);
      }
    }
  }

  /** A scan finds every chunk, and besides the chunks only a left-over of the front batch. */
  lemma ScanFindsChunk(cfg: Config, disk: Disk, indices: map<nat, MappedIndex>, first: nat, blocks: seq<Block>)
    requires ChunkSound(cfg, first, blocks) && ArchiveAt(cfg, disk, first, blocks, Index, Data)
    requires Scanned(disk, indices)
    requires forall file | file in disk && file.kind == Index && file.first == first :: file == ChunkFile(first, blocks)
    ensures first in indices && indices[first] == ChunkIndex(disk, first, blocks)
  {
    ParseOfRender(first, Last(first, blocks));
    assert LoadableRange(disk, ChunkFile(first, blocks)) == Some((first, Last(first, blocks)));
    var file :| ComesFrom(disk, file, first, indices[first]);
    ParseOfRender(file.first, file.last);
    assert file.first == first;
  }

  lemma ScanKeepsKnown(cfg: Config, hot: Hot, front: Option<nat>, disk: Disk, indices: map<nat, MappedIndex>,
                       chunks: Chunks)
    requires ValidConfig(cfg) && DiskKnown(cfg, hot, front, disk, chunks) && Scanned(disk, indices)
    ensures IndicesKnown(cfg, hot, front, indices, chunks)
  {
    forall s | s in indices && s !in chunks
      ensures FrontComplete(cfg, hot, front) && front == Some(s)
      ensures indices[s].start == s && indices[s].end == s + cfg.batchSize - 1 && indices[s].end < TEN_DIGITS
    {
      var file :| ComesFrom(disk, file, s, indices[s]);
      ParseOfRender(file.first, file.last);
    }
  }

  lemma ScanKeepsSound(cfg: Config, hot: Hot, front: Option<nat>, disk: Disk, indices: map<nat, MappedIndex>,
                       chunks: Chunks)
    requires ValidConfig(cfg) && ChunksApart(cfg, front, chunks) && FilesSound(cfg, disk, chunks)
    requires DiskKnown(cfg, hot, front, disk, chunks) && Scanned(disk, indices)
    ensures IndicesSound(disk, indices, chunks)
  {
    forall s | s in chunks ensures s in indices && indices[s] == ChunkIndex(disk, s, chunks[s]) {
      ScanFindsChunk(cfg, disk, indices, s, chunks[s]);
    }
  }

  lemma ChunkStartStored(cfg: Config, w: World, s: nat)
    requires ValidConfig(cfg) && Inv(cfg, w) && s in w.history.chunks
    ensures s in w.history.content
  {
    assert InChunk(w.history.chunks, s, s);
  }

  lemma RecordKeepsInv(cfg: Config, w: World, w': World, first: nat)
    requires ValidConfig(cfg) && Inv(cfg, w) && RecordEarliest(w, w', first)
    ensures Inv(cfg, w')
  {
    ChunkStartStored(cfg, w, first);
  }

  lemma LeastIsKey(keys: set<nat>)
    ensures Least(keys).Some? ==> Least(keys).value in keys
  {
    var ascending := KeysFrom(keys, 0);
    assert ascending != [] ==> ascending[0] in ascending;
  }

  /** What start-up records as the earliest number is that of a stored block. */
  lemma InitializedStored(cfg: Config, w: World, indices: map<nat, MappedIndex>)
    requires ValidConfig(cfg) && Inv(cfg, w)
    requires IndicesKnown(cfg, w.store.db.hot, w.store.db.earliestHot, indices, w.history.chunks)
    ensures var earliest := Initialize(cfg, w.store.db, indices).trueEarliest;
            earliest.Some? ==> earliest.value in w.history.content
  {
    LeastIsKey(indices.Keys);
    LeastIsKey(w.store.db.hot.Keys);
    if Least(indices.Keys).Some? {
      IndexStartStored(cfg, w, indices, Least(indices.Keys).value);
    }
  }

  lemma IndexStartStored(cfg: Config, w: World, indices: map<nat, MappedIndex>, s: nat)
    requires ValidConfig(cfg) && Inv(cfg, w) && s in indices
    requires IndicesKnown(cfg, w.store.db.hot, w.store.db.earliestHot, indices, w.history.chunks)
    ensures s in w.history.content
  {
    if s in w.history.chunks {
      ChunkStartStored(cfg, w, s);
    } else {
      assert InFront(cfg, w.store.db.earliestHot, s);
    }
  }

  lemma RestartKeepsInv(cfg: Config, w: World, w': World)
    requires ValidConfig(cfg) && Inv(cfg, w) && Restart(cfg, w, w')
    ensures Inv(cfg, w')
  {
    var hot, front := w.store.db.hot, w.store.db.earliestHot;
    ScanKeepsKnown(cfg, hot, front, w.store.disk, w'.store.indices, w.history.chunks);
    ScanKeepsSound(cfg, hot, front, w.store.disk, w'.store.indices, w.history.chunks);
    InitializedStored(cfg, w, w'.store.indices);
  }

  // ----- runs -----

  lemma MaintenanceKeepsInv(cfg: Config, w: World, w': World)
    requires ValidConfig(cfg) && Faithful(cfg.codec) && Inv(cfg, w) && Maintains(cfg, w, w')
    ensures Inv(cfg, w') && (w'.history.content == w.history.content || Retire(cfg, w, w'))
  {
    if MoveData(cfg, w, w') || MoveIndex(cfg, w, w') {
      MoveKeepsInv(cfg, w, w');
    } else if Load(cfg, w, w') {
      LoadKeepsInv(cfg, w, w');
    } else if Retire(cfg, w, w') {
      RetireKeepsInv(cfg, w, w');
    } else if Skip(cfg, w, w') {
      SkipKeepsInv(cfg, w, w');
    } else if TearFiles(w, w') {
      TearKeepsInv(cfg, w, w');
    } else if Restart(cfg, w, w') {
      RestartKeepsInv(cfg, w, w');
    } else {
      var blocks :| Stage(cfg, w, w', blocks) && Archivable(cfg, w.store.db.earliestHot.value, blocks);
      StageKeepsInv(cfg, w, w', blocks);
    }
  }

  lemma NextKeepsInv(cfg: Config, w: World, w': World)
    requires ValidConfig(cfg) && Faithful(cfg.codec) && Inv(cfg, w) && Next(cfg, w, w')
    ensures Inv(cfg, w')
  {
    if Maintains(cfg, w, w') {
      MaintenanceKeepsInv(cfg, w, w');
    } else if n, block :| LiveWrite(cfg, w, w', n, block) {
      LiveWriteKeepsInv(cfg, w, w', n, block);
    } else if first, blocks :| BatchWrite(cfg, w, w', first, blocks) {
      BatchWriteKeepsInv(cfg, w, w', first, blocks);
    } else {
      var first :| RecordEarliest(w, w', first);
      RecordKeepsInv(cfg, w, w', first);
    }
  }

  lemma InitialInv(cfg: Config, w: World)
    requires ValidConfig(cfg) && Initial(cfg, w)
    ensures Inv(cfg, w)
  {
  }

  lemma StepBefore(cfg: Config, steps: nat, w: World) returns (v: World)
    requires ValidConfig(cfg) && ReachableIn(cfg, steps + 1, w)
    ensures ReachableIn(cfg, steps, v) && Next(cfg, v, w)
  {
    v :| ReachableIn(cfg, steps, v) && Next(cfg, v, w);
  }

  lemma {:induction false} RunKeepsInv(cfg: Config, steps: nat, w: World)
    requires ValidConfig(cfg) && Faithful(cfg.codec) && ReachableIn(cfg, steps, w)
    ensures Inv(cfg, w)
  {
    if steps == 0 {
      InitialInv(cfg, w);
    } else {
      var fewer: nat := steps - 1;
      var v := StepBefore(cfg, fewer, w);
      RunKeepsInv(cfg, fewer, v);
      NextKeepsInv(cfg, v, w);
    }
  }

  /** The invariant holds in every reachable state. */
  lemma ReachableInv(cfg: Config, w: World)
    requires ValidConfig(cfg) && Faithful(cfg.codec) && Reachable(cfg, w)
    ensures Inv(cfg, w)
  {
    var steps :| ReachableIn(cfg, steps, w);
    RunKeepsInv(cfg, steps, w);
  }

  /** Every step from a reachable state leads to one. */
  lemma StepReachable(cfg: Config, w: World, w': World)
    requires ValidConfig(cfg) && Reachable(cfg, w) && Next(cfg, w, w')
    ensures Reachable(cfg, w')
  {
    var steps :| ReachableIn(cfg, steps, w);
    var more := steps + 1;
    assert ReachableIn(cfg, more - 1, w) && Next(cfg, w, w');
    assert ReachableIn(cfg, more, w');
  }
}
