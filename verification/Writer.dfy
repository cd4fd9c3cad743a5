/** How the write batch of one live block, and of one archived batch, is put together. */
module Writer {
  import opened Basics
  import opened Database
  import opened Gaps
  import Ledger

  method Push(db: Db, batch: seq<Op>, op: Op) returns (r: seq<Op>)
    ensures Commit(db, r) == ApplyOp(Commit(db, batch), op)
  {
    CommitPush(db, batch, op);
    r := batch + [op];
  }

  /**
   * The batch of a live write. Every decision reads the database as it was before the write; none
   * sees the changes already in the batch.
   */
  method BuildWriteBatch(seed: nat, db: Db, n: nat, value: bytes) returns (batch: seq<Op>)
    requires Separated(db.gaps) && n < U64_MAX
    ensures Ledger.Writes(seed, db, Commit(db, batch), n, value)
  {
    batch := Push(db, [], PutHot(n, value));
    var latest := Ledger.Latest(seed, db);
    var newLatest := Max(latest, n);
    if newLatest > latest {
      batch := Push(db, batch, SetLatest(newLatest));
    }
    if db.trueEarliest.None? {
      batch := Push(db, batch, SetTrueEarliest(n));
    }
    batch := PushLedger(db, batch, n, newLatest);
    if db.earliestHot.None? {
      batch := Push(db, batch, SetEarliestHot(n));
    }
  }

  /** The part of the batch that keeps the gaps and the highest contiguous block. */
  method PushLedger(db: Db, batch: seq<Op>, n: nat, newLatest: nat) returns (r: seq<Op>)
    requires Separated(db.gaps) && n < U64_MAX && Commit(db, batch).gaps == db.gaps
    ensures var pending, after := Commit(db, batch), Commit(db, r);
            && after == pending.(gaps := after.gaps, highestContiguous := after.highestContiguous)
            && Ledger.GapStep(db.gaps, after.gaps, Ledger.Highest(db), n)
            && (n > Ledger.Highest(db) + 1 ==> after.highestContiguous == pending.highestContiguous)
            && (n <= Ledger.Highest(db) + 1 ==>
                  && after.highestContiguous.Some?
                  && Ledger.WalksTo(db.gaps, Max(n, Ledger.Highest(db)), newLatest, after.highestContiguous.value))
  {
    var highest := Ledger.Highest(db);
    if n > highest + 1 {
      var ops := AddGapRange(db.gaps, highest + 1, n - 1);
      r := PushGaps(db, batch, ops);
    } else if n == highest + 1 {
      var to := Ledger.Walk(db.gaps, n, newLatest);
      r := Push(db, batch, SetHighestContiguous(to));
    } else {
      var ops := FillGapBlock(db.gaps, n);
      r := PushGaps(db, batch, ops);
      var to := Ledger.Walk(db.gaps, highest, newLatest);
      r := Push(db, r, SetHighestContiguous(to));
    }
  }

  method PushGaps(db: Db, batch: seq<Op>, ops: seq<GapOp>) returns (r: seq<Op>)
    ensures var pending := Commit(db, batch); Commit(db, r) == pending.(gaps := Apply(pending.gaps, ops))
  {
    CommitGapChanges(db, batch, ops);
    r := batch + GapChanges(ops);
  }

  // ----- the hot tier -----

  /** Whether all of `count` blocks from `first` on are in the hot tier. */
  method IsBatchComplete(hot: map<nat, bytes>, first: nat, count: nat) returns (complete: bool)
    ensures complete <==> forall n | first <= n < first + count :: n in hot
  {
    for i := 0 to count
      invariant forall n | first <= n < first + i :: n in hot
    {
      if first + i !in hot {
        return false;
      }
    }
    complete := true;
  }

  predicate Decodes(codec: Codec, hot: map<nat, bytes>, n: nat, block: Block) {
    n in hot && codec.decode(hot[n]) == Some(block)
  }

  predicate Decodable(codec: Codec, hot: map<nat, bytes>, n: nat) {
    n in hot && codec.decode(hot[n]).Some?
  }

  /** Reads and decodes `count` blocks; a missing or undecodable one fails the whole read. */
  method ReadBlockBatch(codec: Codec, hot: map<nat, bytes>, first: nat, count: nat)
    returns (r: Result<seq<Block>, nat>)
    ensures r.Ok? ==>
              |r.value| == count && forall i | 0 <= i < count :: Decodes(codec, hot, first + i, r.value[i])
    ensures r.Ok? <==> forall n | first <= n < first + count :: Decodable(codec, hot, n)
    ensures r.Err? ==> first <= r.error < first + count && !Decodable(codec, hot, r.error)
                       && forall n | first <= n < r.error :: Decodable(codec, hot, n)
  {
    var blocks := [];
    for i := 0 to count
      invariant |blocks| == i
      invariant forall j | 0 <= j < i :: Decodes(codec, hot, first + j, blocks[j])
      invariant forall n | first <= n < first + i :: Decodable(codec, hot, n)
    {
      if first + i !in hot {
        assert !Decodable(codec, hot, first + i);
        return Err(first + i);
      }
      var decoded := codec.decode(hot[first + i]);
      if decoded.None? {
        assert !Decodable(codec, hot, first + i);
        return Err(first + i);
      }
      blocks := blocks + [decoded.value];
    }
    r := Ok(blocks);
  }

  /** The batch that retires an archived batch from the hot tier. */
  method BuildRetireBatch(db: Db, first: nat, count: nat) returns (batch: seq<Op>)
    ensures Commit(db, batch) ==
            DropFront(db, first, count)
  {
    batch := [];
    assert Without(db.hot, first, 0) == db.hot;
    for i := 0 to count
      invariant Commit(db, batch) == db.(hot := Without(db.hot, first, i))
    {
      batch := Push(db, batch, DeleteHot(first + i));
      assert Without(db.hot, first, i) - {first + i} == Without(db.hot, first, i + 1);
    }
    batch := Push(db, batch, SetEarliestHot(first + count));
    batch := Push(db, batch, RemoveSkipped(first));
  }
}
