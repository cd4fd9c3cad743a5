/**
 * What the block database records about stored and missing numbers: the latest block,
 * the highest contiguous block and the gaps, and how one live write moves them.
 */
module Ledger {
  import opened Basics
  import opened Database
  import opened Gaps

  /** The latest persisted number, or the one below the configured start while there is none. */
  function Latest(seed: nat, db: Db): nat {
    if db.latest.Some? then db.latest.value else seed
  }

  function Highest(db: Db): nat {
    if db.highestContiguous.Some? then db.highestContiguous.value else 0
  }

  // ----- one write -----

  /** A walk from `from` passes over unrecorded numbers until it meets a gap or the limit. */
  ghost predicate WalksTo(gaps: GapMap, from: nat, limit: nat, to: nat) {
    && from <= to <= Max(from, limit)
    && (forall x | from < x <= to :: !Covers(gaps, x))
    && (to < limit ==> Covers(gaps, to + 1))
  }

  method Walk(gaps: GapMap, from: nat, limit: nat) returns (to: nat)
    requires Separated(gaps)
    ensures WalksTo(gaps, from, limit, to)
  {
    to := from;
    var next := from + 1;
    while next <= limit
      invariant next == to + 1 && from <= to <= Max(from, limit)
      invariant forall x | from < x <= to :: !Covers(gaps, x)
    {
      FindContainingGapScans(gaps, next);
      if FindContainingGap(gaps, next).Some? {
        break;
      }
      to := next;
      next := next + 1;
    }
  }

  /** How the gap records change when `n` is written while `hc` is the highest contiguous block. */
  ghost predicate GapStep(before: GapMap, after: GapMap, hc: nat, n: nat) {
    && Separated(after)
    && (n > hc + 1 ==> AddsRange(before, after, hc + 1, n - 1))
    && (n == hc + 1 ==> after == before)
    && (n <= hc ==> RemovesOne(before, after, n))
  }

  /** The effect of one live write of `n`, on every column family. */
  ghost predicate Writes(seed: nat, before: Db, after: Db, n: nat, value: bytes) {
    var hc := Highest(before);
    var latest := Max(Latest(seed, before), n);
    && after.hot == before.hot[n := value]
    && after.skipped == before.skipped
    && after.latest == (if n > Latest(seed, before) then Some(n) else before.latest)
    && after.earliestHot == (if before.earliestHot.None? then Some(n) else before.earliestHot)
    && after.trueEarliest == (if before.trueEarliest.None? then Some(n) else before.trueEarliest)
    && GapStep(before.gaps, after.gaps, hc, n)
    && (n > hc + 1 ==> after.highestContiguous == before.highestContiguous)
    && (n <= hc + 1 ==>
          && after.highestContiguous.Some?
          && WalksTo(before.gaps, Max(n, hc), latest, after.highestContiguous.value))
  }

  // ----- what every write keeps -----

  /**
   * Above the highest contiguous block, exactly the numbers below the latest one are recorded as
   * missing; and the two counters are never one apart.
   */
  ghost predicate Shape(gaps: GapMap, hc: nat, latest: nat) {
    && (hc == latest || hc + 2 <= latest)
    && (forall x | hc < x :: Covers(gaps, x) <==> x < latest)
  }

  ghost predicate Sound(seed: nat, db: Db, stored: set<nat>) {
    var hc, latest := Highest(db), Latest(seed, db);
    && Separated(db.gaps)
    && db.highestContiguous.Some?
    && seed <= hc <= latest < U64_MAX
    && (db.latest.Some? ==> latest in stored && seed < latest)
    && (forall s | s in db.gaps :: seed < s && db.gaps[s] < latest)
    && Shape(db.gaps, hc, latest)
    && (forall x | seed < x <= hc :: x in stored)
    && (forall x | seed < x <= latest :: x in stored || Covers(db.gaps, x))
  }

  /** The walk after a write at or below `hc + 1`: it can only step over the latest block itself. */
  lemma WalkStops(gaps: GapMap, hc: nat, latest: nat, n: nat, to: nat)
    requires Shape(gaps, hc, latest) && n <= hc + 1
    requires WalksTo(gaps, Max(n, hc), Max(latest, n), to)
    ensures to == if n <= hc then hc else if hc + 2 == latest then latest else n
  {
    assert hc + 1 < latest <==> Covers(gaps, hc + 1);
    assert hc + 2 < latest <==> Covers(gaps, hc + 2);
  }

  /** Every write keeps the ledger sound, moves no counter back, and walks at most one step. */
  lemma WriteKeepsSound(seed: nat, before: Db, after: Db, n: nat, value: bytes, stored: set<nat>)
    requires Sound(seed, before, stored) && n < U64_MAX
    requires Writes(seed, before, after, n, value)
    ensures Sound(seed, after, stored + {n})
    ensures Highest(before) <= Highest(after) <= Max(n, Highest(before)) + 1
    ensures Latest(seed, after) == Max(Latest(seed, before), n)
  {
    if n <= Highest(before) + 1 {
      WalkStops(before.gaps, Highest(before), Latest(seed, before), n, Highest(after));
    }
    forall s | s in after.gaps ensures seed < s && after.gaps[s] < Latest(seed, after) {
      assert Covers(after.gaps, s) && Covers(after.gaps, after.gaps[s]);
    }
  }

  /**
   * What one write of `n` does, field by field, to a sound ledger: latest is the greater number, the two
   * earliest numbers are set only once, a jump records what it leaves out, a number filled leaves the
   * records, and the highest contiguous number moves only if `n` follows it, then over one number more if
   * that is the latest.
   */
  ghost predicate Effect(seed: nat, before: Db, after: Db, n: nat, value: bytes) {
    var hc, latest := Highest(before), Latest(seed, before);
    && after.hot == before.hot[n := value] && after.skipped == before.skipped
    && Latest(seed, after) == Max(latest, n) && (n <= latest ==> after.latest == before.latest)
    && (before.earliestHot.Some? ==> after.earliestHot == before.earliestHot)
    && (before.earliestHot.None? ==> after.earliestHot == Some(n))
    && (before.trueEarliest.Some? ==> after.trueEarliest == before.trueEarliest)
    && (before.trueEarliest.None? ==> after.trueEarliest == Some(n))
    && (forall x: nat :: Covers(after.gaps, x) <==>
          (Covers(before.gaps, x) && !(x == n <= hc)) || hc < x < n)
    && after.highestContiguous == Some(if n != hc + 1 then hc else if latest == n + 1 then latest else n)
  }

  lemma WriteEffect(seed: nat, before: Db, after: Db, n: nat, value: bytes, stored: set<nat>)
    requires Sound(seed, before, stored) && Writes(seed, before, after, n, value)
    ensures Effect(seed, before, after, n, value)
  {
    if n <= Highest(before) + 1 {
      WalkStops(before.gaps, Highest(before), Latest(seed, before), n, Highest(after));
    }
  }

  /** `[a, latest - 1]` is a recorded range, and the only one to reach above `hc`. */
  ghost predicate TopRange(gaps: GapMap, hc: nat, latest: nat, a: nat) {
    && a in gaps && a <= hc + 1 && gaps[a] + 1 == latest
    && (forall s | s in gaps && s != a :: gaps[s] <= hc)
  }

  /** The shape in terms of the records: at most one range reaches above `hc`, and it ends at L-1. */
  lemma ShapeOfRanges(gaps: GapMap, hc: nat, latest: nat)
    requires Separated(gaps)
    ensures Shape(gaps, hc, latest) <==>
            || (hc == latest && forall s | s in gaps :: gaps[s] <= hc)
            || (hc + 2 <= latest
                && exists a :: TopRange(gaps, hc, latest, a))
  {
    if Shape(gaps, hc, latest) {
      forall s | s in gaps && gaps[s] > hc ensures gaps[s] == latest - 1 {
        assert Covers(gaps, gaps[s]);
        Edges(gaps, s);
      }
      if hc + 2 <= latest {
        assert Covers(gaps, hc + 1);
        var a :| a in gaps && a <= hc + 1 <= gaps[a];
        assert TopRange(gaps, hc, latest, a);
      }
    }
  }
}
