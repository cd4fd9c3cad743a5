/** The column families of the block database, and atomic write batches over them. */
module Database {
  import opened Basics
  import Gaps

  datatype Db = Db(
    hot: map<nat, bytes>,
    gaps: Gaps.GapMap,
    skipped: set<nat>,
    latest: Option<nat>,
    earliestHot: Option<nat>,
    highestContiguous: Option<nat>,
    trueEarliest: Option<nat>)

  const EMPTY: Db := Db(map[], map[], {}, None, None, None, None)

  datatype Op =
    | PutHot(number: nat, value: bytes)
    | DeleteHot(number: nat)
    | ChangeGap(gapOp: Gaps.GapOp)
    | AddSkipped(start: nat)
    | RemoveSkipped(start: nat)
    | SetLatest(number: nat)
    | SetEarliestHot(number: nat)
    | SetHighestContiguous(number: nat)
    | SetTrueEarliest(number: nat)

  function ApplyOp(db: Db, op: Op): Db {
    match op
    case PutHot(n, value) => db.(hot := db.hot[n := value])
    case DeleteHot(n) => db.(hot := db.hot - {n})
    case ChangeGap(gapOp) => db.(gaps := Gaps.Apply(db.gaps, [gapOp]))
    case AddSkipped(start) => db.(skipped := db.skipped + {start})
    case RemoveSkipped(start) => db.(skipped := db.skipped - {start})
    case SetLatest(n) => db.(latest := Some(n))
    case SetEarliestHot(n) => db.(earliestHot := Some(n))
    case SetHighestContiguous(n) => db.(highestContiguous := Some(n))
    case SetTrueEarliest(n) => db.(trueEarliest := Some(n))
  }

  /** Commits a batch: its operations in order, all at once. */
  function Commit(db: Db, batch: seq<Op>): Db {
    if batch == [] then db
    else ApplyOp(Commit(db, batch[..|batch| - 1]), batch[|batch| - 1])
  }

  lemma CommitPush(db: Db, batch: seq<Op>, op: Op)
    ensures Commit(db, batch + [op]) == ApplyOp(Commit(db, batch), op)
  {
    assert (batch + [op])[..|batch|] == batch;
  }

  function GapChanges(ops: seq<Gaps.GapOp>): seq<Op> {
    seq(|ops|, i requires 0 <= i < |ops| => ChangeGap(ops[i]))
  }

  /** Operations on gaps, pushed onto a batch that has none yet, act on the stored gaps. */
  lemma {:induction false} CommitGapChanges(db: Db, batch: seq<Op>, ops: seq<Gaps.GapOp>)
    ensures Commit(db, batch + GapChanges(ops)) ==
            var pending := Commit(db, batch);
            pending.(gaps := Gaps.Apply(pending.gaps, ops))
  {
    if ops == [] {
      assert batch + GapChanges(ops) == batch;
    } else {
      var init, last := ops[..|ops| - 1], ops[|ops| - 1];
      assert batch + GapChanges(ops) == batch + GapChanges(init) + [ChangeGap(last)];
      CommitPush(db, batch + GapChanges(init), ChangeGap(last));
      CommitGapChanges(db, batch, init);
      var g := Gaps.Apply(Commit(db, batch).gaps, init);
      Gaps.ApplyPush(g, [], last);
      assert [] + [last] == [last];
    }
  }

  function Without(hot: map<nat, bytes>, first: nat, count: nat): map<nat, bytes> {
    map n | n in hot && !(first <= n < first + count) :: hot[n]
  }

  /** The front batch leaves the hot tier, and with it the mark that it was skipped. */
  function DropFront(db: Db, first: nat, count: nat): Db {
    db.(hot := Without(db.hot, first, count), earliestHot := Some(first + count), skipped := db.skipped - {first})
  }
}
