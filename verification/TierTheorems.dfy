/** What the two-tier store guarantees over whole runs, and the limits of those guarantees. */
module TierTheorems {
  import opened Basics
  import opened Database
  import opened Gaps
  import opened ColdFiles
  import opened ArchiveNames
  import opened Tiers
  import opened TierInvariant
  import opened TierSteps
  import Arithmetic
  import Ledger

  // ----- what is read -----

  /** The block kept under `n` is not the last one written. */
  ghost predicate Lost(history: History, n: nat) {
    n in history.content && n in history.written && history.content[n] != history.written[n]
  }

  /**
   * In every reachable state, a read returns the block kept under the number, and nothing for a number
   * that was never written; that is the last block written exactly if it was not lost.
   */
  lemma StoreRefinesMap(cfg: Config, w: World, n: nat)
    requires ValidConfig(cfg) && Faithful(cfg.codec) && Reachable(cfg, w)
    ensures Read(cfg.codec, w.store, n) == Expected(cfg, w.history.content, n)
    ensures n in w.history.content <==> n in w.history.written
    ensures Read(cfg.codec, w.store, n) == Expected(cfg, w.history.written, n) <==> !Lost(w.history, n)
  {
    ReachableInv(cfg, w);
    ReadRefinesMap(cfg, w, n);
    if n in w.history.content {
      assert cfg.codec.decode(cfg.codec.encode(w.history.content[n])) == Some(w.history.content[n]);
    }
  }

  /** The block staged for `n`, which is of the batch being moved, differs from the one kept by now. */
  ghost predicate Overtaken(cfg: Config, w: World, n: nat) {
    && !w.store.phase.Idle? && InFront(cfg, w.store.db.earliestHot, n)
    && |w.store.phase.blocks| == cfg.batchSize && n in w.history.content
    && w.store.phase.blocks[n - w.store.db.earliestHot.value] != w.history.content[n]
  }

  lemma ReachableMoving(cfg: Config, w: World)
    requires ValidConfig(cfg) && Faithful(cfg.codec) && Reachable(cfg, w)
    ensures HotSound(cfg, w.store.db.hot, w.store.db.earliestHot, w.history.content)
    ensures PhaseSound(cfg, w) && w.history.written.Keys == w.history.content.Keys
  {
    ReachableInv(cfg, w);
  }

  /** The one step that loses a block retires a batch in which the block was written again after staging. */
  lemma LosesIff(cfg: Config, w: World, w': World, n: nat)
    requires ValidConfig(cfg) && Faithful(cfg.codec) && Reachable(cfg, w) && Next(cfg, w, w') && !Lost(w.history, n)
    ensures Lost(w'.history, n) <==> Retire(cfg, w, w') && Overtaken(cfg, w, n)
  {
    ReachableMoving(cfg, w);
    if Retire(cfg, w, w') {
      RetireLosesIff(cfg, w, w', n);
    } else {
      KeepsAgreement(cfg, w, w', n);
    }
  }

  lemma RetireLosesIff(cfg: Config, w: World, w': World, n: nat)
    requires ValidConfig(cfg) && PhaseSound(cfg, w) && Retire(cfg, w, w') && !Lost(w.history, n)
    requires HotSound(cfg, w.store.db.hot, w.store.db.earliestHot, w.history.content)
    requires w.history.written.Keys == w.history.content.Keys
    ensures Lost(w'.history, n) <==> Overtaken(cfg, w, n)
  {
    RetireKeepsKeys(cfg, w);
    if n in w.history.content {
      RetiredContent(cfg, w, n);
    }
  }

  lemma RetiredContent(cfg: Config, w: World, n: nat)
    requires ValidConfig(cfg) && PhaseSound(cfg, w) && !w.store.phase.Idle? && n in w.history.content
    ensures var kept := WithNumbers(w.history.content, w.store.db.earliestHot.value, w.store.phase.blocks);
            n in kept && (kept[n] == w.history.content[n] <==> !Overtaken(cfg, w, n))
  {
    var first := w.store.db.earliestHot.value;
    assert n in Range(first, cfg.batchSize) <==> InFront(cfg, w.store.db.earliestHot, n);
  }

  /** Apart from retirement, every step treats what is kept and what was written alike. */
  lemma KeepsAgreement(cfg: Config, w: World, w': World, n: nat)
    requires ValidConfig(cfg) && Next(cfg, w, w') && !Retire(cfg, w, w') && !Lost(w.history, n)
    requires w.history.content.Keys == w.history.written.Keys
    ensures !Lost(w'.history, n)
  {
    if m, block :| LiveWrite(cfg, w, w', m, block) {
    } else if first, blocks :| BatchWrite(cfg, w, w', first, blocks) {
      assert n in Range(first, |blocks|) || n !in Range(first, |blocks|);
    }
  }

  /** A live write of a block that the archiver has already read for the batch it is moving. */
  ghost predicate IsLate(cfg: Config, w: World, w': World) {
    && !w.store.phase.Idle?
    && exists n, block :: LiveWrite(cfg, w, w', n, block) && InFront(cfg, w.store.db.earliestHot, n)
  }

  /** A run in which no block is written again while its batch is being archived. */
  ghost predicate PunctualIn(cfg: Config, steps: nat, w: World)
    requires ValidConfig(cfg)
  {
    if steps == 0 then Initial(cfg, w)
    else exists v :: PunctualIn(cfg, steps - 1, v) && Next(cfg, v, w) && !IsLate(cfg, v, w)
  }

  /** Nothing is lost, and nothing is about to be. */
  ghost predicate Intact(cfg: Config, w: World) {
    forall n :: !Lost(w.history, n) && !Overtaken(cfg, w, n)
  }

  lemma PunctualStepKeepsIntact(cfg: Config, w: World, w': World)
    requires ValidConfig(cfg) && Faithful(cfg.codec) && Reachable(cfg, w) && Next(cfg, w, w')
    requires Intact(cfg, w) && !IsLate(cfg, w, w')
    ensures Intact(cfg, w')
  {
    forall n ensures !Lost(w'.history, n) && !Overtaken(cfg, w', n) {
      assert !Lost(w.history, n) && !Overtaken(cfg, w, n);
      LosesIff(cfg, w, w', n);
      PunctualStepOvertakesNot(cfg, w, w', n);
    }
  }

  lemma WriteOvertakesNot(cfg: Config, w: World, w': World, m: nat, block: Block, n: nat)
    requires ValidConfig(cfg) && PhaseSound(cfg, w) && LiveWrite(cfg, w, w', m, block)
    requires !Overtaken(cfg, w, n) && (w.store.phase.Idle? || !InFront(cfg, w.store.db.earliestHot, m))
    requires HotSound(cfg, w.store.db.hot, w.store.db.earliestHot, w.history.content)
    ensures !Overtaken(cfg, w', n)
  {
  }

  lemma BatchOvertakesNot(cfg: Config, w: World, w': World, first: nat, blocks: seq<Block>, n: nat)
    requires BatchWrite(cfg, w, w', first, blocks) && !Overtaken(cfg, w, n)
    ensures !Overtaken(cfg, w', n)
  {
    if InFront(cfg, w.store.db.earliestHot, n) {
      assert n !in Range(first, |blocks|);
    }
  }

  lemma StageOvertakesNot(cfg: Config, w: World, w': World, blocks: seq<Block>, n: nat)
    requires ValidConfig(cfg) && Faithful(cfg.codec) && Stage(cfg, w, w', blocks)
    requires HotSound(cfg, w.store.db.hot, w.store.db.earliestHot, w.history.content)
    ensures !Overtaken(cfg, w', n)
  {
    StagedBlocks(cfg, w.store.db, w.history.content, blocks);
  }

  lemma MoveOvertakesNot(cfg: Config, w: World, w': World, n: nat)
    requires ValidConfig(cfg) && (MoveData(cfg, w, w') || MoveIndex(cfg, w, w') || Load(cfg, w, w'))
    ensures Overtaken(cfg, w', n) <==> Overtaken(cfg, w, n)
  {
  }

  lemma MaintenanceOvertakesNot(cfg: Config, w: World, w': World, n: nat)
    requires ValidConfig(cfg) && Faithful(cfg.codec) && Maintains(cfg, w, w') && !Overtaken(cfg, w, n)
    requires HotSound(cfg, w.store.db.hot, w.store.db.earliestHot, w.history.content)
    ensures !Overtaken(cfg, w', n)
  {
    if blocks :| Stage(cfg, w, w', blocks) {
      StageOvertakesNot(cfg, w, w', blocks, n);
    } else if MoveData(cfg, w, w') || MoveIndex(cfg, w, w') || Load(cfg, w, w') {
      MoveOvertakesNot(cfg, w, w', n);
    } else {
      assert w'.store.phase.Idle?;
    }
  }

  lemma RecordOvertakesNot(cfg: Config, w: World, w': World, first: nat, n: nat)
    requires RecordEarliest(w, w', first) && !Overtaken(cfg, w, n)
    ensures !Overtaken(cfg, w', n)
  {
  }

  lemma PunctualStepOvertakesNot(cfg: Config, w: World, w': World, n: nat)
    requires ValidConfig(cfg) && Faithful(cfg.codec) && Reachable(cfg, w) && Next(cfg, w, w')
    requires !Overtaken(cfg, w, n) && !IsLate(cfg, w, w')
    ensures !Overtaken(cfg, w', n)
  {
    ReachableMoving(cfg, w);
    if m, block :| LiveWrite(cfg, w, w', m, block) {
      WriteOvertakesNot(cfg, w, w', m, block, n);
    } else if first, blocks :| BatchWrite(cfg, w, w', first, blocks) {
      BatchOvertakesNot(cfg, w, w', first, blocks, n);
    } else if first :| RecordEarliest(w, w', first) {
      RecordOvertakesNot(cfg, w, w', first, n);
    } else {
      MaintenanceOvertakesNot(cfg, w, w', n);
    }
  }

  lemma PunctualBefore(cfg: Config, steps: nat, w: World) returns (v: World)
    requires ValidConfig(cfg) && PunctualIn(cfg, steps + 1, w)
    ensures PunctualIn(cfg, steps, v) && Next(cfg, v, w) && !IsLate(cfg, v, w)
  {
    v :| PunctualIn(cfg, steps, v) && Next(cfg, v, w) && !IsLate(cfg, v, w);
  }

  lemma {:induction false} PunctualIsIntact(cfg: Config, steps: nat, w: World)
    requires ValidConfig(cfg) && Faithful(cfg.codec) && PunctualIn(cfg, steps, w)
    ensures Reachable(cfg, w) && Intact(cfg, w)
  {
    if steps == 0 {
      assert ReachableIn(cfg, 0, w);
    } else {
      var fewer: nat := steps - 1;
      var v := PunctualBefore(cfg, fewer, w);
      PunctualIsIntact(cfg, fewer, v);
      PunctualStepKeepsIntact(cfg, v, w);
      StepReachable(cfg, v, w);
    }
  }

  /** So in every such run a read returns exactly the last block written. */
  lemma PunctualStoreIsMap(cfg: Config, steps: nat, w: World, n: nat)
    requires ValidConfig(cfg) && Faithful(cfg.codec) && PunctualIn(cfg, steps, w)
    ensures Read(cfg.codec, w.store, n) == Expected(cfg, w.history.written, n)
  {
    PunctualIsIntact(cfg, steps, w);
    assert !Lost(w.history, n);
    StoreRefinesMap(cfg, w, n);
  }

  /** Archival, stopped anywhere and restarted, changes a read exactly where it retires an overtaken block. */
  lemma MaintenanceKeepsReadsIff(cfg: Config, w: World, w': World, n: nat)
    requires ValidConfig(cfg) && Faithful(cfg.codec) && Reachable(cfg, w) && Maintains(cfg, w, w')
    ensures Read(cfg.codec, w'.store, n) == Read(cfg.codec, w.store, n) <==>
              !(Retire(cfg, w, w') && Overtaken(cfg, w, n))
  {
    ReachableInv(cfg, w);
    MaintenanceKeepsInv(cfg, w, w');
    ReadRefinesMap(cfg, w, n);
    ReadRefinesMap(cfg, w', n);
    MaintenanceKeepsContentIff(cfg, w, w', n);
  }

  lemma MaintenanceKeepsContentIff(cfg: Config, w: World, w': World, n: nat)
    requires ValidConfig(cfg) && Faithful(cfg.codec) && Inv(cfg, w) && Maintains(cfg, w, w')
    ensures Expected(cfg, w'.history.content, n) == Expected(cfg, w.history.content, n) <==>
              !(Retire(cfg, w, w') && Overtaken(cfg, w, n))
  {
    MaintenanceKeepsInv(cfg, w, w');
    if Retire(cfg, w, w') {
      RetireKeepsKeys(cfg, w);
      if n in w.history.content {
        RetiredContent(cfg, w, n);
        assert cfg.codec.decode(cfg.codec.encode(w.history.content[n])) == Some(w.history.content[n]);
        assert cfg.codec.decode(cfg.codec.encode(w'.history.content[n])) == Some(w'.history.content[n]);
      }
    }
  }

  predicate Readable(cfg: Config, store: Store, n: nat) {
    var r := Read(cfg.codec, store, n);
    r.Ok? && r.value.Some?
  }

  /** Everything up to the highest contiguous block reads; what does not read is a recorded gap. */
  lemma StoreContiguous(cfg: Config, w: World, n: nat)
    requires ValidConfig(cfg) && Faithful(cfg.codec) && Reachable(cfg, w)
    ensures var db := w.store.db;
            && cfg.seed <= Ledger.Highest(db) <= Ledger.Latest(cfg.seed, db)
            && Ledger.Shape(db.gaps, Ledger.Highest(db), Ledger.Latest(cfg.seed, db))
            && (cfg.seed < n <= Ledger.Highest(db) ==> Readable(cfg, w.store, n))
            && (cfg.seed < n <= Ledger.Latest(cfg.seed, db) ==>
                  Readable(cfg, w.store, n) || FindContainingGap(db.gaps, n).Some?)
  {
    ReachableInv(cfg, w);
    ReadRefinesMap(cfg, w, n);
    FindContainingGapScans(w.store.db.gaps, n);
  }

  // ----- writes during an archival -----

  function StepsLeft(phase: Phase): nat {
    match phase
    case Idle => 0
    case Loaded(_) => 1
    case IndexMoved(_) => 2
    case DataMoved(_) => 3
    case Staged(_) => 4
  }

  /** The archival under way runs to its end. */
  ghost predicate Completes(cfg: Config, w: World, w': World)
    requires ValidConfig(cfg)
    decreases StepsLeft(w.store.phase)
  {
    match w.store.phase
    case Idle => false
    case Loaded(_) => Retire(cfg, w, w')
    case IndexMoved(_) => exists v :: Load(cfg, w, v) && Completes(cfg, v, w')
    case DataMoved(_) => exists v :: MoveIndex(cfg, w, v) && Completes(cfg, v, w')
    case Staged(_) => exists v :: MoveData(cfg, w, v) && Completes(cfg, v, w')
  }

  /** The steps before the last one change no read and overtake no block. */
  lemma MoveKeepsReads(cfg: Config, w: World, v: World, n: nat)
    requires ValidConfig(cfg) && Faithful(cfg.codec) && Reachable(cfg, w)
    requires MoveData(cfg, w, v) || MoveIndex(cfg, w, v) || Load(cfg, w, v)
    ensures Reachable(cfg, v) && Read(cfg.codec, v.store, n) == Read(cfg.codec, w.store, n)
    ensures Overtaken(cfg, v, n) <==> Overtaken(cfg, w, n)
  {
    StepReachable(cfg, w, v);
    MaintenanceKeepsReadsIff(cfg, w, v, n);
    MoveOvertakesNot(cfg, w, v, n);
  }

  lemma NextMove(cfg: Config, w: World, w': World) returns (v: World)
    requires ValidConfig(cfg) && Completes(cfg, w, w') && !w.store.phase.Loaded?
    ensures MoveData(cfg, w, v) || MoveIndex(cfg, w, v) || Load(cfg, w, v)
    ensures Completes(cfg, v, w') && StepsLeft(v.store.phase) < StepsLeft(w.store.phase)
  {
    v :| (MoveData(cfg, w, v) || MoveIndex(cfg, w, v) || Load(cfg, w, v)) && Completes(cfg, v, w');
  }

  /**
   * At any moment of an archival: a number reads the same after the archival has run to its end exactly
   * if its block was not written again, with a different one, after the archiver read it for the batch.
   * Otherwise the older block comes back.
   */
  lemma {:induction false} LateWriteSurvivesIff(cfg: Config, w: World, w': World, n: nat)
    requires ValidConfig(cfg) && Faithful(cfg.codec) && Reachable(cfg, w) && Completes(cfg, w, w')
    ensures Reachable(cfg, w')
    ensures Read(cfg.codec, w'.store, n) == Read(cfg.codec, w.store, n) <==> !Overtaken(cfg, w, n)
    decreases StepsLeft(w.store.phase)
  {
    if w.store.phase.Loaded? {
      StepReachable(cfg, w, w');
      MaintenanceKeepsReadsIff(cfg, w, w', n);
    } else {
      var v := NextMove(cfg, w, w');
      MoveKeepsReads(cfg, w, v, n);
      LateWriteSurvivesIff(cfg, v, w', n);
    }
  }

  /** A restart at any moment of an archival keeps every block as last read, late writes included. */
  lemma RestartKeepsReads(cfg: Config, w: World, w': World, n: nat)
    requires ValidConfig(cfg) && Faithful(cfg.codec) && Reachable(cfg, w) && Restart(cfg, w, w')
    ensures Reachable(cfg, w') && Read(cfg.codec, w'.store, n) == Read(cfg.codec, w.store, n)
  {
    StepReachable(cfg, w, w');
    assert w'.history == w.history;
    MaintenanceKeepsReadsIff(cfg, w, w', n);
  }

  // ----- archives below a chunk -----

  /** A loaded chunk starts above the archive's first number, and not above `n`. */
  ghost predicate Hidden(indices: map<nat, MappedIndex>, first: nat, n: nat) {
    exists s :: s in indices && first < s <= n
  }

  lemma IndexStarts(cfg: Config, w: World, s: nat)
    requires ValidConfig(cfg) && Faithful(cfg.codec) && Reachable(cfg, w) && s in w.store.indices
    ensures w.store.indices[s].start == s
  {
    ReachableInv(cfg, w);
  }

  lemma FloorAbove(indices: map<nat, MappedIndex>, indices': map<nat, MappedIndex>, first: nat, n: nat)
    requires first in indices' && indices' - {first} == indices - {first}
    requires Floor(indices.Keys, n).Some? && first < Floor(indices.Keys, n).value
    ensures Floor(indices'.Keys, n) == Floor(indices.Keys, n)
    ensures indices'[Floor(indices.Keys, n).value] == indices[Floor(indices.Keys, n).value]
  {
    var s := Floor(indices.Keys, n).value;
    assert s in indices' - {first} && indices'[s] == (indices' - {first})[s];
    forall k | k in indices' && k != first ensures k in indices {
      assert k in indices' - {first};
    }
  }

  lemma NotHiddenReads(cfg: Config, store: Store, indices: map<nat, MappedIndex>, first: nat, batch: seq<Block>, n: nat)
    requires Faithful(cfg.codec) && ChunkSound(cfg, first, batch) && first <= n < first + |batch|
    requires ArchiveAt(cfg, store.disk, first, batch, Index, Data)
    requires store.indices == indices[first := ChunkIndex(store.disk, first, batch)]
    requires !Hidden(indices, first, n)
    ensures ReadCold(cfg.codec, store, n) == Ok(Some(cfg.codec.encode(batch[n - first])))
  {
    assert first in store.indices.Keys;
    assert Floor(store.indices.Keys, n) == Some(first);
    ReadThroughIndex(cfg, store.disk, first, batch, n);
  }

  lemma HiddenReads(cfg: Config, w: World, store: Store, first: nat, batch: seq<Block>, n: nat)
    requires ValidConfig(cfg) && Faithful(cfg.codec) && Reachable(cfg, w) && |batch| > 0
    requires FilesPlaced(cfg, w.store.disk, store.disk, first, batch)
    requires first in store.indices && store.indices - {first} == w.store.indices - {first}
    requires Hidden(w.store.indices, first, n)
    ensures ReadCold(cfg.codec, store, n) == ReadCold(cfg.codec, w.store, n)
  {
    var t :| t in w.store.indices && first < t <= n;
    assert t in w.store.indices.Keys;
    var s := Floor(w.store.indices.Keys, n).value;
    IndexStarts(cfg, w, s);
    FloorAbove(w.store.indices, store.indices, first, n);
    var file := FileName(s, w.store.indices[s].end, Data);
    assert IsFinal(file) && file.first != first;
  }

  /**
   * When the archive of a batch is loaded beside the chunks of a reachable store, a number of it that is
   * not hot reads as the batch has it exactly if no chunk starts between, or the older block was the
   * same. Otherwise it reads as the cold tier had it before: an older block, or, past the end of that
   * chunk, nothing.
   */
  lemma BatchShowsIff(cfg: Config, w: World, store: Store, first: nat, batch: seq<Block>, n: nat)
    requires ValidConfig(cfg) && Faithful(cfg.codec) && Reachable(cfg, w) && ChunkSound(cfg, first, batch)
    requires FilesPlaced(cfg, w.store.disk, store.disk, first, batch)
    requires store.indices == LoadIndex(store.disk, w.store.indices, ChunkFile(first, batch))
    requires first <= n < first + |batch| && n !in store.db.hot
    ensures Hidden(w.store.indices, first, n) ==> Read(cfg.codec, store, n) == ReadCold(cfg.codec, w.store, n)
    ensures var shown := Ok(Some(cfg.codec.encode(batch[n - first])));
            Read(cfg.codec, store, n) == shown <==>
              !Hidden(w.store.indices, first, n) || ReadCold(cfg.codec, w.store, n) == shown
  {
    LoadsChunk(store.disk, w.store.indices, first, batch);
    if Hidden(w.store.indices, first, n) {
      HiddenReads(cfg, w, store, first, batch, n);
    } else {
      NotHiddenReads(cfg, store, w.store.indices, first, batch, n);
    }
  }

  lemma RenamesPlaceFiles(cfg: Config, disk: Disk, staged: Disk, first: nat, blocks: seq<Block>)
    requires |blocks| > 0
    requires var dataTemp := FileName(first, Last(first, blocks), DataTemp);
             var indexTemp := FileName(first, Last(first, blocks), IndexTemp);
             && dataTemp in staged && indexTemp in staged
             && IsArchive(cfg.codec, blocks, first, staged[indexTemp], staged[dataTemp])
             && staged == disk[dataTemp := staged[dataTemp]][indexTemp := staged[indexTemp]]
    ensures var last := Last(first, blocks);
            var moved := Rename(staged, FileName(first, last, DataTemp), FileName(first, last, Data));
            FilesPlaced(cfg, disk, Rename(moved, FileName(first, last, IndexTemp), ChunkFile(first, blocks)),
                        first, blocks)
  {
  }

  /** The five steps of an archival put the files in place and load the index. */
  lemma ArchivesPlaceFiles(cfg: Config, steps: seq<World>, blocks: seq<Block>)
    requires ValidConfig(cfg) && Archives(cfg, steps, blocks)
    ensures var first := steps[0].store.db.earliestHot.value;
            && FilesPlaced(cfg, steps[0].store.disk, steps[5].store.disk, first, blocks)
            && steps[5].store.indices ==
               LoadIndex(steps[5].store.disk, steps[0].store.indices, ChunkFile(first, blocks))
  {
    RenamesPlaceFiles(cfg, steps[0].store.disk, steps[1].store.disk, steps[0].store.db.earliestHot.value, blocks);
  }

  /** The effect of a live write, whatever lies in the cold tier. */
  ghost predicate Written(cfg: Config, w: World, w': World, n: nat, block: Block) {
    && Numbered(block, n) && Ledger.Writes(cfg.seed, w.store.db, w'.store.db, n, cfg.codec.encode(block))
    && w'.store == w.store.(db := w'.store.db)
    && w'.history == w.history.(content := w.history.content[n := block], written := w.history.written[n := block])
  }

  // ----- the earliest number -----

  /** The recorded earliest number is that of no later block than any that is stored. */
  ghost predicate EarliestIsLeast(w: World) {
    forall n | n in w.history.content :: w.store.db.trueEarliest.Some? && w.store.db.trueEarliest.value <= n
  }

  /**
   * In every run the recorded earliest number is that of a stored block; so where it is not above any,
   * it is exactly the smallest number stored.
   */
  lemma EarliestIsMinimum(cfg: Config, w: World)
    requires ValidConfig(cfg) && Faithful(cfg.codec) && Reachable(cfg, w)
    ensures w.store.db.trueEarliest.Some? ==> Readable(cfg, w.store, w.store.db.trueEarliest.value)
    ensures EarliestIsLeast(w) ==>
              if w.history.content == map[] then w.store.db.trueEarliest.None?
              else && w.store.db.trueEarliest.Some? && w.store.db.trueEarliest.value in w.history.content
                   && (forall n | n in w.history.content :: w.store.db.trueEarliest.value <= n)
  {
    ReachableInv(cfg, w);
    if w.store.db.trueEarliest.Some? {
      StoreRefinesMap(cfg, w, w.store.db.trueEarliest.value);
    }
    assert w.history.content != map[] ==> exists n :: n in w.history.content;
  }

  /** A live write keeps the recorded earliest number the least exactly if it does not go below it. */
  lemma EarliestStaysLeastIff(cfg: Config, w: World, w': World, n: nat, block: Block)
    requires EarliestIsLeast(w) && LiveWrite(cfg, w, w', n, block)
    ensures EarliestIsLeast(w') <==> w.store.db.trueEarliest.None? || w.store.db.trueEarliest.value <= n
  {
    assert n in w'.history.content;
  }

  lemma BatchNumbers(content: map<nat, Block>, first: nat, blocks: seq<Block>)
    ensures forall n :: n in WithNumbers(content, first, blocks) <==> n in content || first <= n < first + |blocks|
  {
  }

  /** A batch does so, once placed, exactly if an earliest number at or below its first is on record. */
  lemma BatchStaysLeastIff(cfg: Config, w: World, w': World, first: nat, blocks: seq<Block>)
    requires EarliestIsLeast(w) && BatchWrite(cfg, w, w', first, blocks)
    ensures EarliestIsLeast(w') <==> w.store.db.trueEarliest.Some? && w.store.db.trueEarliest.value <= first
  {
    BatchNumbers(w.history.content, first, blocks);
    assert first in w'.history.content;
  }

  /** With its first number recorded, it always does, whatever was on record. */
  lemma RecordedBatchIsLeast(cfg: Config, w: World, v: World, w': World, first: nat, blocks: seq<Block>)
    requires EarliestIsLeast(w) && BatchWrite(cfg, w, v, first, blocks) && RecordEarliest(v, w', first)
    ensures EarliestIsLeast(w') && w'.store.db == w.store.db.(trueEarliest := w'.store.db.trueEarliest)
    ensures var earliest := w.store.db.trueEarliest;
            && (earliest.None? || first <= earliest.value ==> w'.store.db.trueEarliest == Some(first))
            && (earliest.Some? && earliest.value <= first ==> w'.store.db.trueEarliest == earliest)
  {
    BatchNumbers(w.history.content, first, blocks);
  }

  lemma LeastIsBelow(keys: set<nat>, n: nat)
    requires n in keys && n <= U64_MAX
    ensures Least(keys).Some? && Least(keys).value <= n
  {
    var ascending := KeysFrom(keys, 0);
    assert n in ascending;
  }

  /**
   * Whatever it finds, start-up changes only what is missing: the earliest number becomes the smallest that
   * is hot or starts a loaded chunk, and the contiguous number the one below the configured start.
   */
  lemma InitializeIs(cfg: Config, db: Db, indices: map<nat, MappedIndex>)
    requires forall k | k in indices || k in db.hot :: k <= U64_MAX
    ensures var r := Initialize(cfg, db, indices);
            && r == db.(trueEarliest := r.trueEarliest, highestContiguous := r.highestContiguous)
            && (db.highestContiguous.Some? ==> r.highestContiguous == db.highestContiguous)
            && (db.highestContiguous.None? ==> r.highestContiguous == Some(cfg.seed))
            && (db.trueEarliest.Some? ==> r.trueEarliest == db.trueEarliest)
            && (db.trueEarliest.None? && r.trueEarliest.None? ==> forall k :: k !in indices && k !in db.hot)
            && (db.trueEarliest.None? && r.trueEarliest.Some? ==>
                  && (r.trueEarliest.value in indices || r.trueEarliest.value in db.hot)
                  && (forall k | k in indices || k in db.hot :: r.trueEarliest.value <= k))
  {
    LeastIsKey(indices.Keys);
    LeastIsKey(db.hot.Keys);
    forall k | k in indices.Keys ensures Least(indices.Keys).Some? && Least(indices.Keys).value <= k {
      LeastIsBelow(indices.Keys, k);
    }
    forall k | k in db.hot.Keys ensures Least(db.hot.Keys).Some? && Least(db.hot.Keys).value <= k {
      LeastIsBelow(db.hot.Keys, k);
    }
  }

  /** Without an earliest number, every block is in a chunk, and the scan at start-up finds it. */
  lemma ScanFindsBlock(cfg: Config, w: World, w': World, n: nat) returns (s: nat)
    requires ValidConfig(cfg) && Faithful(cfg.codec) && Reachable(cfg, w) && Restart(cfg, w, w')
    requires w.store.db.trueEarliest.None? && n in w.history.content
    ensures s in w'.store.indices && s <= n && s <= U64_MAX
  {
    ReachableInv(cfg, w);
    RestartKeepsInv(cfg, w, w');
    s :| InChunk(w.history.chunks, s, n);
  }

  lemma StartUpFinds(cfg: Config, w: World, w': World, n: nat)
    requires ValidConfig(cfg) && Faithful(cfg.codec) && Reachable(cfg, w) && Restart(cfg, w, w')
    requires w.store.db.trueEarliest.None? && n in w.history.content
    ensures w'.store.db.trueEarliest.Some? && w'.store.db.trueEarliest.value <= n
  {
    var s := ScanFindsBlock(cfg, w, w', n);
    LeastIsBelow(w'.store.indices.Keys, s);
  }

  /**
   * A restart does so exactly if it held before or nothing was on record: a stop between the placing of a
   * batch and the recording of its first number is made good only in a store without an earliest number.
   */
  lemma RestartStaysLeastIff(cfg: Config, w: World, w': World)
    requires ValidConfig(cfg) && Faithful(cfg.codec) && Reachable(cfg, w) && Restart(cfg, w, w')
    ensures EarliestIsLeast(w') <==> EarliestIsLeast(w) || w.store.db.trueEarliest.None?
  {
    if w.store.db.trueEarliest.None? {
      forall n | n in w'.history.content
        ensures w'.store.db.trueEarliest.Some? && w'.store.db.trueEarliest.value <= n
      {
        StartUpFinds(cfg, w, w', n);
      }
    }
  }

  /** What holds is kept by the archiver, a restart and a record. */
  lemma OthersKeepEarliestLeast(cfg: Config, w: World, w': World)
    requires ValidConfig(cfg) && Faithful(cfg.codec) && Reachable(cfg, w) && EarliestIsLeast(w)
    requires Maintains(cfg, w, w') || exists first :: RecordEarliest(w, w', first)
    ensures EarliestIsLeast(w')
  {
    if first :| RecordEarliest(w, w', first) {
    } else {
      ReachableMoving(cfg, w);
      MaintenanceKeepsEarliestLeast(cfg, w, w');
    }
  }

  lemma MaintenanceKeepsEarliestLeast(cfg: Config, w: World, w': World)
    requires ValidConfig(cfg) && EarliestIsLeast(w) && Maintains(cfg, w, w') && PhaseSound(cfg, w)
    requires HotSound(cfg, w.store.db.hot, w.store.db.earliestHot, w.history.content)
    ensures EarliestIsLeast(w')
  {
    if Retire(cfg, w, w') {
      RetireKeepsKeys(cfg, w);
    } else if blocks :| Stage(cfg, w, w', blocks) {
    } else if Restart(cfg, w, w') {
    }
  }

  lemma WriteKeepsCounters(cfg: Config, w: World, w': World, n: nat, block: Block)
    requires ValidConfig(cfg) && Inv(cfg, w) && LiveWrite(cfg, w, w', n, block)
    ensures Ledger.Highest(w.store.db) <= Ledger.Highest(w'.store.db)
    ensures Ledger.Latest(cfg.seed, w.store.db) <= Ledger.Latest(cfg.seed, w'.store.db)
  {
    Ledger.WriteKeepsSound(cfg.seed, w.store.db, w'.store.db, n, cfg.codec.encode(block), w.history.content.Keys);
  }

  lemma OthersKeepCounters(cfg: Config, w: World, w': World)
    requires ValidConfig(cfg) && w.store.db.highestContiguous.Some?
    requires
      || Maintains(cfg, w, w')
      || (exists first, blocks :: BatchWrite(cfg, w, w', first, blocks))
      || (exists first :: RecordEarliest(w, w', first))
    ensures w'.store.db.highestContiguous == w.store.db.highestContiguous
    ensures w'.store.db.latest == w.store.db.latest
  {
    if first, blocks :| BatchWrite(cfg, w, w', first, blocks) {
    } else if first :| RecordEarliest(w, w', first) {
    } else if blocks :| Stage(cfg, w, w', blocks) {
    } else if Retire(cfg, w, w') {
    } else if Restart(cfg, w, w') {
    } else if Skip(cfg, w, w') {
    }
  }

  lemma ReachableCounted(cfg: Config, w: World)
    requires ValidConfig(cfg) && Faithful(cfg.codec) && Reachable(cfg, w)
    ensures w.store.db.highestContiguous.Some?
  {
    ReachableInv(cfg, w);
  }

  /** The archiver and a restart leave the records of missing numbers and both counters alone. */
  lemma MaintenanceKeepsRecords(cfg: Config, w: World, w': World)
    requires ValidConfig(cfg) && w.store.db.highestContiguous.Some? && Maintains(cfg, w, w')
    ensures w'.store.db.highestContiguous == w.store.db.highestContiguous
    ensures w'.store.db.latest == w.store.db.latest && w'.store.db.gaps == w.store.db.gaps
  {
    if blocks :| Stage(cfg, w, w', blocks) {
    } else if Retire(cfg, w, w') {
    } else if Restart(cfg, w, w') {
    }
  }

  lemma NextKeepsCounters(cfg: Config, w: World, w': World)
    requires ValidConfig(cfg) && Inv(cfg, w) && Next(cfg, w, w')
    ensures Ledger.Highest(w.store.db) <= Ledger.Highest(w'.store.db)
    ensures Ledger.Latest(cfg.seed, w.store.db) <= Ledger.Latest(cfg.seed, w'.store.db)
  {
    if n, block :| LiveWrite(cfg, w, w', n, block) {
      WriteKeepsCounters(cfg, w, w', n, block);
    } else {
      OthersKeepCounters(cfg, w, w');
    }
  }

  /** No step of any run lowers either counter. */
  lemma CountersNeverFall(cfg: Config, w: World, w': World)
    requires ValidConfig(cfg) && Faithful(cfg.codec) && Reachable(cfg, w) && Next(cfg, w, w')
    ensures Ledger.Highest(w.store.db) <= Ledger.Highest(w'.store.db)
    ensures Ledger.Latest(cfg.seed, w.store.db) <= Ledger.Latest(cfg.seed, w'.store.db)
  {
    ReachableInv(cfg, w);
    NextKeepsCounters(cfg, w, w');
  }

  // ----- the archived chunks -----

  lemma {:induction false} ArchivedPosition(cfg: Config, db: Db, history: History, i: nat)
    requires FrontierSound(cfg, db, history) && i < |history.archived|
    ensures history.archived[i] == history.archived[0] + i * cfg.batchSize
  {
    if i == 0 {
    } else {
      ArchivedPosition(cfg, db, history, i - 1);
      assert ArchivedAt(cfg, db.earliestHot, history, i - 1);
      assert i * cfg.batchSize == (i - 1) * cfg.batchSize + cfg.batchSize;
    }
  }

  lemma ArchivedTile(cfg: Config, db: Db, history: History, k: nat)
    requires FrontierSound(cfg, db, history) && k < |history.archived|
    ensures history.archived[k] == history.archived[0] + k * cfg.batchSize
    ensures history.archived[k] in history.chunks && |history.chunks[history.archived[k]]| == cfg.batchSize
    ensures db.earliestHot == Some(history.archived[0] + |history.archived| * cfg.batchSize)
  {
    var last := |history.archived| - 1;
    ArchivedPosition(cfg, db, history, k);
    ArchivedPosition(cfg, db, history, last);
    assert ArchivedAt(cfg, db.earliestHot, history, k) && ArchivedAt(cfg, db.earliestHot, history, last);
    assert |history.archived| * cfg.batchSize == last * cfg.batchSize + cfg.batchSize;
  }

  lemma ReachableFrontier(cfg: Config, w: World)
    requires ValidConfig(cfg) && Faithful(cfg.codec) && Reachable(cfg, w)
    ensures FrontierSound(cfg, w.store.db, w.history)
  {
    ReachableInv(cfg, w);
  }

  /** The archiver's chunks are full batches that follow one another from the first to the hot window. */
  lemma ArchivedChunksTile(cfg: Config, w: World, k: nat)
    requires ValidConfig(cfg) && Faithful(cfg.codec) && Reachable(cfg, w) && k < |w.history.archived|
    ensures var history, front := w.history, w.store.db.earliestHot;
            && history.archived[k] == history.archived[0] + k * cfg.batchSize
            && history.archived[k] in history.chunks && |history.chunks[history.archived[k]]| == cfg.batchSize
            && front == Some(history.archived[0] + |history.archived| * cfg.batchSize)
  {
    ReachableFrontier(cfg, w);
    ArchivedTile(cfg, w.store.db, w.history, k);
  }

  // ----- waking the archiver -----

  /** At most one batch is ever recorded as skipped: the front of the hot window. */
  lemma OnlyFrontSkipped(cfg: Config, w: World)
    requires ValidConfig(cfg) && Faithful(cfg.codec) && Reachable(cfg, w)
    ensures forall s | s in w.store.db.skipped :: w.store.db.earliestHot == Some(s)
  {
    ReachableFrontier(cfg, w);
  }

  /** What is recorded as skipped wakes the archiver for the numbers of a batch that starts at a multiple. */
  lemma TriggersIff(cfg: Config, db: Db, n: nat)
    requires cfg.batchSize >= 1 && Separated(db.gaps)
    ensures Triggers(cfg, db, n) <==>
              Covers(db.gaps, n) && exists s :: s in db.skipped && s % cfg.batchSize == 0 && s <= n < s + cfg.batchSize
  {
    FindContainingGapScans(db.gaps, n);
    var start := n / cfg.batchSize * cfg.batchSize;
    Arithmetic.BatchStart(n, start, cfg.batchSize);
    forall s | s in db.skipped && s % cfg.batchSize == 0 && s <= n < s + cfg.batchSize ensures s == start {
      Arithmetic.BatchStart(n, s, cfg.batchSize);
    }
  }

  /** A write wakes the archiver when it fills a gap inside a batch recorded as skipped. */
  predicate Triggers(cfg: Config, db: Db, n: nat)
    requires cfg.batchSize >= 1
  {
    FindContainingGap(db.gaps, n).Some? && n / cfg.batchSize * cfg.batchSize in db.skipped
  }

  /**
   * Writing a missing block of a skipped front batch wakes the archiver exactly when that batch
   * starts at a multiple of the batch size.
   */
  lemma WakeupIff(cfg: Config, w: World, n: nat)
    requires ValidConfig(cfg) && Faithful(cfg.codec) && Reachable(cfg, w)
    requires InFront(cfg, w.store.db.earliestHot, n) && w.store.db.earliestHot.value in w.store.db.skipped
    requires cfg.seed < n <= Ledger.Latest(cfg.seed, w.store.db) && !Readable(cfg, w.store, n)
    ensures Triggers(cfg, w.store.db, n) <==> w.store.db.earliestHot.value % cfg.batchSize == 0
  {
    StoreContiguous(cfg, w, n);
    ReachableInv(cfg, w);
    Arithmetic.BatchStart(n, w.store.db.earliestHot.value, cfg.batchSize);
  }

  /** Archival keeps the front batch where it was, relative to the multiples of the batch size. */
  lemma RetireKeepsAlignment(cfg: Config, w: World, w': World)
    requires ValidConfig(cfg) && Retire(cfg, w, w')
    ensures w'.store.db.earliestHot.value % cfg.batchSize == w.store.db.earliestHot.value % cfg.batchSize
  {
    Arithmetic.NextBatchAligned(w.store.db.earliestHot.value, cfg.batchSize);
  }

  // ----- the limit of the file names -----

  /** The five steps that move the front batch to the cold tier, without a stop in between. */
  ghost predicate Archives(cfg: Config, steps: seq<World>, blocks: seq<Block>)
    requires ValidConfig(cfg)
  {
    && |steps| == 6 && Stage(cfg, steps[0], steps[1], blocks) && MoveData(cfg, steps[1], steps[2])
    && MoveIndex(cfg, steps[2], steps[3]) && Load(cfg, steps[3], steps[4]) && Retire(cfg, steps[4], steps[5])
  }

  /** Keeping the blocks that are kept already changes nothing. */
  lemma KeptAlready(cfg: Config, front: Option<nat>, content: map<nat, Block>, blocks: seq<Block>)
    requires front.Some? && AsKept(cfg, front, content, blocks)
    ensures WithNumbers(content, front.value, blocks) == content
  {
    forall n: nat | n in Range(front.value, |blocks|) ensures n in content && blocks[n - front.value] == content[n] {
      assert InFront(cfg, front, n);
    }
  }

  /** Right after staging, what was staged is what is kept. */
  lemma StagedIsKept(cfg: Config, db: Db, content: map<nat, Block>, blocks: seq<Block>)
    requires ValidConfig(cfg) && Faithful(cfg.codec) && FrontBlocks(cfg, db, blocks)
    requires HotSound(cfg, db.hot, db.earliestHot, content)
    ensures WithNumbers(content, db.earliestHot.value, blocks) == content
  {
    StagedBlocks(cfg, db, content, blocks);
    KeptAlready(cfg, db.earliestHot, content, blocks);
  }

  lemma ArchivesKeepContent(cfg: Config, steps: seq<World>, blocks: seq<Block>)
    requires ValidConfig(cfg) && Archives(cfg, steps, blocks)
    ensures FrontBlocks(cfg, steps[0].store.db, blocks)
    ensures steps[5].history.content ==
            WithNumbers(steps[0].history.content, steps[0].store.db.earliestHot.value, blocks)
  {
  }

  lemma ArchivesKeepInv(cfg: Config, steps: seq<World>, blocks: seq<Block>)
    requires ValidConfig(cfg) && Faithful(cfg.codec) && Archives(cfg, steps, blocks) && Inv(cfg, steps[0])
    requires Archivable(cfg, steps[0].store.db.earliestHot.value, blocks)
    ensures Inv(cfg, steps[5])
  {
    StageKeepsInv(cfg, steps[0], steps[1], blocks);
    MoveKeepsInv(cfg, steps[1], steps[2]);
    MoveKeepsInv(cfg, steps[2], steps[3]);
    LoadKeepsInv(cfg, steps[3], steps[4]);
    RetireKeepsInv(cfg, steps[4], steps[5]);
  }

  lemma ArchivesWithinNames(cfg: Config, steps: seq<World>, blocks: seq<Block>, n: nat)
    requires ValidConfig(cfg) && Faithful(cfg.codec) && Archives(cfg, steps, blocks) && Inv(cfg, steps[0])
    requires Archivable(cfg, steps[0].store.db.earliestHot.value, blocks)
    ensures Read(cfg.codec, steps[5].store, n) == Read(cfg.codec, steps[0].store, n)
  {
    ArchivesKeepInv(cfg, steps, blocks);
    ArchivesKeepContent(cfg, steps, blocks);
    StagedIsKept(cfg, steps[0].store.db, steps[0].history.content, blocks);
    ReadRefinesMap(cfg, steps[0], n);
    ReadRefinesMap(cfg, steps[5], n);
  }

  /** Too long a number makes the load a no-op. */
  lemma LoadsNoIndex(cfg: Config, w: World, w': World)
    requires ValidConfig(cfg) && Load(cfg, w, w') && w.store.db.earliestHot.value + cfg.batchSize > TEN_DIGITS
    ensures w'.store.indices == w.store.indices
  {
    ParseOfRender(w.store.db.earliestHot.value, w.store.db.earliestHot.value + cfg.batchSize - 1);
  }

  /** And the front batch leaves the hot tier all the same. */
  lemma LoadsNothing(cfg: Config, steps: seq<World>, blocks: seq<Block>)
    requires ValidConfig(cfg) && Archives(cfg, steps, blocks)
    requires steps[0].store.db.earliestHot.value + cfg.batchSize > TEN_DIGITS
    ensures steps[5].store.indices == steps[0].store.indices
    ensures steps[0].store.db.earliestHot.value in steps[0].store.db.hot
    ensures steps[0].store.db.earliestHot.value !in steps[5].store.db.hot
  {
    assert InFront(cfg, steps[0].store.db.earliestHot, steps[0].store.db.earliestHot.value);
    LoadsNoIndex(cfg, steps[3], steps[4]);
  }

  lemma ArchivesBeyondNames(cfg: Config, steps: seq<World>, blocks: seq<Block>)
    requires ValidConfig(cfg) && Archives(cfg, steps, blocks) && Inv(cfg, steps[0])
    requires steps[0].store.db.earliestHot.value + cfg.batchSize > TEN_DIGITS
    ensures var first := steps[0].store.db.earliestHot.value;
            Readable(cfg, steps[0].store, first) && Read(cfg.codec, steps[5].store, first) == Ok(None)
  {
    LoadsNothing(cfg, steps, blocks);
    FirstNotIndexed(cfg, steps[0], steps[5].store);
  }

  lemma FirstNotIndexed(cfg: Config, w: World, store: Store)
    requires ValidConfig(cfg) && ChunksApart(cfg, w.store.db.earliestHot, w.history.chunks)
    requires IndicesSound(w.store.disk, w.store.indices, w.history.chunks)
    requires IndicesKnown(cfg, w.store.db.hot, w.store.db.earliestHot, w.store.indices, w.history.chunks)
    requires w.store.db.earliestHot.Some? && w.store.db.earliestHot.value + cfg.batchSize > TEN_DIGITS
    requires store.indices == w.store.indices
    ensures ReadCold(cfg.codec, store, w.store.db.earliestHot.value) == Ok(None)
  {
    var first := w.store.db.earliestHot.value;
    var f := Floor(w.store.indices.Keys, first);
    if f.Some? {
      assert f.value in w.history.chunks;
      assert GetRecord(w.store.indices[f.value], first) == None;
    }
  }

  /** Archiving a batch keeps every read exactly when its last number has at most ten digits. */
  lemma ArchivalKeepsReadsIff(cfg: Config, steps: seq<World>, blocks: seq<Block>)
    requires ValidConfig(cfg) && Faithful(cfg.codec) && Archives(cfg, steps, blocks) && Inv(cfg, steps[0])
    requires Fits(Blobs(cfg.codec, blocks))
    ensures (forall n :: Read(cfg.codec, steps[5].store, n) == Read(cfg.codec, steps[0].store, n))
            <==> steps[0].store.db.earliestHot.value + cfg.batchSize <= TEN_DIGITS
  {
    if steps[0].store.db.earliestHot.value + cfg.batchSize <= TEN_DIGITS {
      forall n: nat ensures Read(cfg.codec, steps[5].store, n) == Read(cfg.codec, steps[0].store, n) {
        ArchivesWithinNames(cfg, steps, blocks, n);
      }
    } else {
      ArchivesBeyondNames(cfg, steps, blocks);
    }
  }
}
