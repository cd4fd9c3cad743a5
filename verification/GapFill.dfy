/** Filling recorded gaps from a peer: what a gap-check cycle does to the ledger, and why two suffice. */
module GapFill {
  import opened Basics
  import opened Database
  import opened Gaps
  import opened Ledger

  /** The writes made since some point, with the database after each. */
  datatype Trace = Origin(db: Db) | Wrote(prev: Trace, number: nat, block: Block, value: bytes, db: Db)

  ghost predicate Legal(seed: nat, trace: Trace) {
    trace.Wrote? ==>
      && Legal(seed, trace.prev) && trace.number < U64_MAX
      && Writes(seed, trace.prev.db, trace.db, trace.number, trace.value)
  }

  /** The database a trace starts from. */
  function First(trace: Trace): Db {
    match trace
    case Origin(db) => db
    case Wrote(prev, _, _, _, _) => First(prev)
  }

  /** The numbers stored after the writes of a trace, when `base` were stored before it. */
  function Stored(base: set<nat>, trace: Trace): set<nat> {
    match trace
    case Origin(_) => base
    case Wrote(prev, number, _, _, _) => Stored(base, prev) + {number}
  }

  /** After `t`, the blocks `first`, `first + 1`, ... below `next` were written one after the other. */
  ghost predicate Streams(t: Trace, t': Trace, first: nat, next: nat)
    decreases next - first
  {
    if next <= first then t' == t
    else t'.Wrote? && t'.number == next - 1 && Streams(t, t'.prev, first, next - 1)
  }

  /** The streams of one range that were begun, and the number each was broken off before. */
  datatype Tries = Untried(trace: Trace) | Tried(prev: Tries, trace: Trace, stop: nat)

  /** Streams of the range `[first, last]`, one after the other, after `t`. */
  ghost predicate Attempts(t: Trace, tries: Tries, first: nat, last: nat) {
    match tries
    case Untried(trace) => trace == t
    case Tried(prev, trace, stop) =>
      Attempts(t, prev, first, last) && Streams(prev.trace, trace, first, stop) && stop <= last + 1
  }

  /** Attempts at a range, which is `whole` when the final one delivered all of it. */
  ghost predicate Visits(t: Trace, t': Trace, range: (nat, nat), whole: bool) {
    exists tries ::
      && Attempts(t, tries, range.0, range.1) && tries.trace == t'
      && (whole ==> tries.Tried? && tries.stop == range.1 + 1)
  }

  /** One gap check visits every range of a snapshot; `served` says which of them were delivered whole. */
  ghost predicate Cycle(t: Trace, t': Trace, ranges: seq<(nat, nat)>, served: seq<bool>)
    decreases |ranges|
  {
    && |served| == |ranges|
    && if ranges == [] then t' == t
       else
         var last := |ranges| - 1;
         exists mid :: Cycle(t, mid, ranges[..last], served[..last]) && Visits(mid, t', ranges[last], served[last])
  }

  function Everything(count: nat): (r: seq<bool>)
    ensures |r| == count && forall i | 0 <= i < count :: r[i]
  {
    seq(count, i => true)
  }

  lemma CycleSnoc(t: Trace, mid: Trace, t': Trace, ranges: seq<(nat, nat)>, served: seq<bool>,
                  range: (nat, nat), one: bool)
    requires Cycle(t, mid, ranges, served) && Visits(mid, t', range, one)
    ensures Cycle(t, t', ranges + [range], served + [one])
  {
    assert (ranges + [range])[..|ranges|] == ranges && (served + [one])[..|ranges|] == served;
  }

  /** The recorded ranges, in the order of their first numbers. */
  function RangesAt(gaps: GapMap, starts: seq<nat>): (r: seq<(nat, nat)>)
    requires forall s | s in starts :: s in gaps
    ensures |r| == |starts| && forall i | 0 <= i < |r| :: r[i] == (starts[i], gaps[starts[i]])
  {
    seq(|starts|, i requires 0 <= i < |starts| => (starts[i], gaps[starts[i]]))
  }

  function AllGaps(gaps: GapMap): seq<(nat, nat)> {
    RangesAt(gaps, KeysFrom(gaps.Keys, 0))
  }

  /** A gap check that delivers every range recorded at its start. */
  ghost predicate WholeCycle(t: Trace, t': Trace) {
    Cycle(t, t', AllGaps(t.db.gaps), Everything(|AllGaps(t.db.gaps)|))
  }

  // ----- what filling does -----

  /**
   * From `db` to `db'` only numbers up to the latest were filled in: the latest block stays, the
   * contiguous stretch and the stored numbers grow, and no gap appears.
   */
  ghost predicate Advances(seed: nat, db: Db, db': Db, stored: set<nat>, stored': set<nat>) {
    && Sound(seed, db', stored') && stored <= stored'
    && Latest(seed, db') == Latest(seed, db)
    && Highest(db) <= Highest(db')
    && (forall x: nat | Covers(db'.gaps, x) :: Covers(db.gaps, x))
  }

  /** `db'` has the contiguous stretch up to `last`, and no gap in what was contiguous before. */
  ghost predicate Fills(db: Db, db': Db, first: nat, last: int) {
    && last <= Highest(db')
    && (forall x: nat | first <= x <= last && x <= Highest(db) :: !Covers(db'.gaps, x))
  }

  lemma WriteAdvances(seed: nat, db: Db, db': Db, n: nat, value: bytes, stored: set<nat>)
    requires Sound(seed, db, stored) && Writes(seed, db, db', n, value)
    requires seed < n <= Highest(db) + 1 && n < Latest(seed, db)
    ensures Advances(seed, db, db', stored, stored + {n}) && Fills(db, db', n, n)
  {
    WriteKeepsSound(seed, db, db', n, value, stored);
    WalkStops(db.gaps, Highest(db), Latest(seed, db), n, Highest(db'));
  }

  lemma AdvancesTrans(seed: nat, a: Db, b: Db, c: Db, s: set<nat>, t: set<nat>, u: set<nat>)
    requires Advances(seed, a, b, s, t) && Advances(seed, b, c, t, u)
    ensures Advances(seed, a, c, s, u)
  {
  }

  /** One more write at the end of a stream. */
  lemma WriteFills(seed: nat, a: Db, b: Db, c: Db, first: nat, n: nat, value: bytes, stored: set<nat>, more: set<nat>)
    requires Advances(seed, a, b, stored, more) && (first < n ==> Fills(a, b, first, n - 1))
    requires seed < first <= Highest(a) + 1 && first <= n < Latest(seed, a) && Writes(seed, b, c, n, value)
    ensures Advances(seed, a, c, stored, more + {n}) && Fills(a, c, first, n)
  {
    WriteAdvances(seed, b, c, n, value, more);
    AdvancesTrans(seed, a, b, c, stored, more, more + {n});
  }

  ghost predicate Sane(seed: nat, base: set<nat>, t: Trace) {
    Sound(seed, t.db, Stored(base, t))
  }

  ghost predicate Grows(seed: nat, base: set<nat>, t: Trace, t': Trace) {
    Advances(seed, t.db, t'.db, Stored(base, t), Stored(base, t'))
  }

  lemma GrowsTrans(seed: nat, base: set<nat>, t: Trace, mid: Trace, t': Trace)
    requires Grows(seed, base, t, mid) && Grows(seed, base, mid, t')
    ensures Grows(seed, base, t, t')
  {
  }

  /** A stream from within reach of the contiguous stretch carries it to its end. */
  lemma {:induction false} StreamFills(seed: nat, base: set<nat>, t: Trace, t': Trace, first: nat, next: nat)
    requires Legal(seed, t') && Sane(seed, base, t) && Streams(t, t', first, next)
    requires seed < first <= Highest(t.db) + 1 && next <= Latest(seed, t.db)
    ensures Grows(seed, base, t, t')
    ensures first < next ==> Fills(t.db, t'.db, first, next - 1)
    decreases next - first
  {
    if next <= first {
    } else {
      StreamFills(seed, base, t, t'.prev, first, next - 1);
      WriteFills(seed, t.db, t'.prev.db, t'.db, first, next - 1, t'.value, Stored(base, t), Stored(base, t'.prev));
    }
  }

  lemma {:induction false} AttemptsFill(seed: nat, base: set<nat>, t: Trace, tries: Tries, first: nat, last: nat)
    requires Legal(seed, tries.trace) && Sane(seed, base, t) && Attempts(t, tries, first, last)
    requires seed < first <= Highest(t.db) + 1 && first <= last < Latest(seed, t.db)
    ensures Grows(seed, base, t, tries.trace)
    ensures tries.Tried? && tries.stop == last + 1 ==> Fills(t.db, tries.trace.db, first, last)
  {
    match tries
    case Untried(_) =>
    case Tried(prev, trace, stop) =>
      LegalBefore(seed, prev.trace, trace, first, stop);
      AttemptsFill(seed, base, t, prev, first, last);
      StreamFills(seed, base, prev.trace, trace, first, stop);
      GrowsTrans(seed, base, t, prev.trace, trace);
  }

  lemma {:induction false} LegalBefore(seed: nat, t: Trace, t': Trace, first: nat, next: nat)
    requires Legal(seed, t') && Streams(t, t', first, next)
    ensures Legal(seed, t)
    decreases next - first
  {
    if next <= first {
    } else {
      LegalBefore(seed, t, t'.prev, first, next - 1);
    }
  }

  /** The range lies between the seed and the latest block, and starts within reach. */
  ghost predicate InReach(seed: nat, db: Db, range: (nat, nat)) {
    seed < range.0 <= Highest(db) + 1 && range.0 <= range.1 < Latest(seed, db)
  }

  lemma VisitFills(seed: nat, base: set<nat>, t: Trace, t': Trace, range: (nat, nat), whole: bool)
    requires Legal(seed, t') && Sane(seed, base, t) && Visits(t, t', range, whole) && InReach(seed, t.db, range)
    ensures Grows(seed, base, t, t')
    ensures whole ==> Fills(t.db, t'.db, range.0, range.1)
  {
    var tries :|
      && Attempts(t, tries, range.0, range.1) && tries.trace == t'
      && (whole ==> tries.Tried? && tries.stop == range.1 + 1);
    AttemptsFill(seed, base, t, tries, range.0, range.1);
  }

  lemma {:induction false} LegalBeforeAttempts(seed: nat, t: Trace, tries: Tries, first: nat, last: nat)
    requires Legal(seed, tries.trace) && Attempts(t, tries, first, last)
    ensures Legal(seed, t)
  {
    if tries.Untried? {
    } else {
      LegalBefore(seed, tries.prev.trace, tries.trace, first, tries.stop);
      LegalBeforeAttempts(seed, t, tries.prev, first, last);
    }
  }

  lemma LegalBeforeVisit(seed: nat, t: Trace, t': Trace, range: (nat, nat), whole: bool)
    requires Legal(seed, t') && Visits(t, t', range, whole)
    ensures Legal(seed, t)
  {
    var tries :| Attempts(t, tries, range.0, range.1) && tries.trace == t';
    LegalBeforeAttempts(seed, t, tries, range.0, range.1);
  }

  /** Every range that was served is filled. */
  ghost predicate FillsServed(db: Db, db': Db, ranges: seq<(nat, nat)>, served: seq<bool>) {
    |served| == |ranges| && forall i | 0 <= i < |ranges| && served[i] :: Fills(db, db', ranges[i].0, ranges[i].1)
  }

  lemma FillsServedSnoc(seed: nat, base: set<nat>, t: Trace, mid: Trace, t': Trace,
                        init: seq<(nat, nat)>, served: seq<bool>, range: (nat, nat), one: bool)
    requires Grows(seed, base, t, mid) && Grows(seed, base, mid, t')
    requires FillsServed(t.db, mid.db, init, served) && (one ==> Fills(mid.db, t'.db, range.0, range.1))
    ensures FillsServed(t.db, t'.db, init + [range], served + [one])
  {
    var ranges, all := init + [range], served + [one];
    forall i | 0 <= i < |ranges| && all[i] ensures Fills(t.db, t'.db, ranges[i].0, ranges[i].1) {
      assert i < |init| ==> Fills(t.db, mid.db, init[i].0, init[i].1);
    }
  }

  lemma LastVisit(t: Trace, t': Trace, ranges: seq<(nat, nat)>, served: seq<bool>) returns (mid: Trace)
    requires ranges != [] && Cycle(t, t', ranges, served)
    ensures var last := |ranges| - 1;
            Cycle(t, mid, ranges[..last], served[..last]) && Visits(mid, t', ranges[last], served[last])
  {
    var last := |ranges| - 1;
    mid :| Cycle(t, mid, ranges[..last], served[..last]) && Visits(mid, t', ranges[last], served[last]);
  }

  lemma VisitFillsToo(seed: nat, base: set<nat>, t: Trace, mid: Trace, t': Trace,
                      init: seq<(nat, nat)>, served: seq<bool>, range: (nat, nat), one: bool)
    requires Legal(seed, t') && Sane(seed, base, t) && Grows(seed, base, t, mid) && InReach(seed, t.db, range)
    requires Visits(mid, t', range, one) && FillsServed(t.db, mid.db, init, served)
    ensures Grows(seed, base, t, t') && FillsServed(t.db, t'.db, init + [range], served + [one])
  {
    VisitFills(seed, base, mid, t', range, one);
    GrowsTrans(seed, base, t, mid, t');
    FillsServedSnoc(seed, base, t, mid, t', init, served, range, one);
  }

  /** Whatever fails in between, a check fills every range that was served. */
  lemma {:induction false} CycleFills(seed: nat, base: set<nat>, t: Trace, t': Trace,
                                      ranges: seq<(nat, nat)>, served: seq<bool>)
    requires Legal(seed, t') && Sane(seed, base, t) && Cycle(t, t', ranges, served)
    requires forall i | 0 <= i < |ranges| :: InReach(seed, t.db, ranges[i])
    ensures Grows(seed, base, t, t') && FillsServed(t.db, t'.db, ranges, served)
    decreases |ranges|
  {
    if ranges == [] {
    } else {
      var last := |ranges| - 1;
      var init, range := ranges[..last], ranges[last];
      var mid := LastVisit(t, t', ranges, served);
      LegalBeforeVisit(seed, mid, t', range, served[last]);
      CycleFills(seed, base, t, mid, init, served[..last]);
      assert InReach(seed, t.db, range) && init + [range] == ranges && served[..last] + [served[last]] == served;
      VisitFillsToo(seed, base, t, mid, t', init, served[..last], range, served[last]);
    }
  }

  /** Every recorded range of a sound ledger starts within reach of the contiguous stretch. */
  lemma GapsInReach(seed: nat, db: Db, stored: set<nat>)
    requires Sound(seed, db, stored)
    ensures forall i | 0 <= i < |AllGaps(db.gaps)| :: InReach(seed, db, AllGaps(db.gaps)[i])
  {
    var starts := KeysFrom(db.gaps.Keys, 0);
    forall i | 0 <= i < |AllGaps(db.gaps)| ensures InReach(seed, db, AllGaps(db.gaps)[i]) {
      assert starts[i] in starts;
      Edges(db.gaps, starts[i]);
    }
  }

  lemma RangeListed(gaps: GapMap, s: nat) returns (i: nat)
    requires Separated(gaps) && s in gaps
    ensures i < |AllGaps(gaps)| && AllGaps(gaps)[i] == (s, gaps[s])
  {
    var starts := KeysFrom(gaps.Keys, 0);
    assert s in starts;
    i :| 0 <= i < |starts| && starts[i] == s;
  }

  /** Whatever is written, in whatever order, the ledger stays sound and no counter falls. */
  lemma {:induction false} TraceStaysSound(seed: nat, base: set<nat>, trace: Trace)
    requires Legal(seed, trace) && Sound(seed, First(trace), base)
    ensures Sane(seed, base, trace)
    ensures Highest(First(trace)) <= Highest(trace.db) && Latest(seed, First(trace)) <= Latest(seed, trace.db)
  {
    match trace
    case Origin(_) =>
    case Wrote(prev, number, _, value, db) =>
      TraceStaysSound(seed, base, prev);
      WriteKeepsSound(seed, prev.db, db, number, value, Stored(base, prev));
  }

  /** Even when peers fail, a gap check loses nothing and opens no gap. */
  lemma AnyCycleGrows(seed: nat, base: set<nat>, t: Trace, t': Trace, served: seq<bool>)
    requires Legal(seed, t') && Sane(seed, base, t) && Cycle(t, t', AllGaps(t.db.gaps), served)
    ensures Grows(seed, base, t, t') && FillsServed(t.db, t'.db, AllGaps(t.db.gaps), served)
  {
    GapsInReach(seed, t.db, Stored(base, t));
    CycleFills(seed, base, t, t', AllGaps(t.db.gaps), served);
  }

  /** The first cycle brings the contiguous stretch up to the latest block. */
  lemma FirstCycleReachesLatest(seed: nat, base: set<nat>, t: Trace, t': Trace)
    requires Legal(seed, t') && Sane(seed, base, t) && WholeCycle(t, t')
    ensures Grows(seed, base, t, t') && Highest(t'.db) == Latest(seed, t'.db)
  {
    var db := t.db;
    GapsInReach(seed, db, Stored(base, t));
    CycleFills(seed, base, t, t', AllGaps(db.gaps), Everything(|AllGaps(db.gaps)|));
    if Highest(db) + 2 <= Latest(seed, db) {
      ShapeOfRanges(db.gaps, Highest(db), Latest(seed, db));
      var a :| TopRange(db.gaps, Highest(db), Latest(seed, db), a);
      var i := RangeListed(db.gaps, a);
    }
  }

  /** From then on, one more cycle clears every record. */
  lemma SecondCycleClears(seed: nat, base: set<nat>, t: Trace, t': Trace)
    requires Legal(seed, t') && Sane(seed, base, t) && WholeCycle(t, t')
    requires Highest(t.db) == Latest(seed, t.db)
    ensures Grows(seed, base, t, t') && t'.db.gaps == map[]
  {
    var db, db' := t.db, t'.db;
    GapsInReach(seed, db, Stored(base, t));
    CycleFills(seed, base, t, t', AllGaps(db.gaps), Everything(|AllGaps(db.gaps)|));
    forall x: nat ensures !Covers(db'.gaps, x) {
      if Covers(db.gaps, x) {
        var s :| s in db.gaps && s <= x <= db.gaps[s];
        var i := RangeListed(db.gaps, s);
        assert Fills(db, db', s, db.gaps[s]);
      }
    }
    forall x: nat ensures x !in db'.gaps {
      assert !Covers(db'.gaps, x);
    }
  }

  /**
   * From any sound state, two gap checks whose ranges are all served leave no record, a contiguous
   * stretch up to the latest block, and every number in between stored.
   */
  lemma GapFillConverges(seed: nat, base: set<nat>, t: Trace, mid: Trace, t': Trace)
    requires Sane(seed, base, t) && Legal(seed, mid) && Legal(seed, t')
    requires WholeCycle(t, mid) && WholeCycle(mid, t')
    ensures Grows(seed, base, t, t')
    ensures t'.db.gaps == map[] && Highest(t'.db) == Latest(seed, t'.db) == Latest(seed, t.db)
    ensures forall n | seed < n <= Latest(seed, t'.db) :: n in Stored(base, t')
  {
    FirstCycleReachesLatest(seed, base, t, mid);
    SecondCycleClears(seed, base, mid, t');
    GrowsTrans(seed, base, t, mid, t');
  }

  /** A write within reach changes no record above the contiguous stretch but its own. */
  lemma WriteLeavesRecords(seed: nat, db: Db, db': Db, n: nat, value: bytes, y: nat)
    requires Shape(db.gaps, Highest(db), Latest(seed, db)) && Writes(seed, db, db', n, value)
    requires n <= Highest(db) + 1 && n < Latest(seed, db) && (n <= Highest(db) ==> y != n)
    ensures Covers(db'.gaps, y) <==> Covers(db.gaps, y)
    ensures n + 1 < Latest(seed, db) ==> Highest(db') <= Max(Highest(db), n)
  {
    WalkStops(db.gaps, Highest(db), Latest(seed, db), n, Highest(db'));
  }

  /** Where a stream stands before its last write. */
  lemma StreamPoints(seed: nat, base: set<nat>, t: Trace, t': Trace, first: nat, next: nat)
    requires Legal(seed, t') && Sane(seed, base, t) && Streams(t, t', first, next) && first < next
    requires seed < first <= Highest(t.db) + 1 && next <= Latest(seed, t.db)
    ensures Writes(seed, t'.prev.db, t'.db, next - 1, t'.value)
    ensures Shape(t'.prev.db.gaps, Highest(t'.prev.db), Latest(seed, t'.prev.db))
    ensures Latest(seed, t'.prev.db) == Latest(seed, t.db) && Highest(t.db) <= Highest(t'.prev.db)
    ensures next - 1 <= Highest(t'.prev.db) + 1
  {
    StreamFills(seed, base, t, t'.prev, first, next - 1);
  }

  lemma LastWriteLeavesRecords(seed: nat, base: set<nat>, t: Trace, t': Trace, first: nat, next: nat, y: nat)
    requires Legal(seed, t') && Sane(seed, base, t) && Streams(t, t', first, next) && first < next
    requires seed < first <= Highest(t.db) + 1 && next <= Latest(seed, t.db) && Highest(t.db) < y
    requires Highest(t'.prev.db) <= Max(Highest(t.db), SaturatingPred(next - 1))
    ensures Covers(t'.db.gaps, y) <==> Covers(t'.prev.db.gaps, y)
    ensures next < Latest(seed, t.db) ==> Highest(t'.db) <= Max(Highest(t.db), SaturatingPred(next))
  {
    StreamPoints(seed, base, t, t', first, next);
    WriteLeavesRecords(seed, t'.prev.db, t'.db, next - 1, t'.value, y);
  }

  /**
   * A single stream leaves the records above the contiguous stretch as they were, although it
   * brings the stretch up to its end: the records are only cleared by a later cycle.
   */
  lemma {:induction false} StreamLeavesRecords(seed: nat, base: set<nat>, t: Trace, t': Trace,
                                               first: nat, next: nat, y: nat)
    requires Legal(seed, t') && Sane(seed, base, t) && Streams(t, t', first, next)
    requires seed < first <= Highest(t.db) + 1 && next <= Latest(seed, t.db)
    requires Highest(t.db) < y
    ensures Covers(t'.db.gaps, y) <==> Covers(t.db.gaps, y)
    ensures next < Latest(seed, t.db) ==> Highest(t'.db) <= Max(Highest(t.db), SaturatingPred(next))
    decreases next - first
  {
    if next <= first {
    } else {
      StreamLeavesRecords(seed, base, t, t'.prev, first, next - 1, y);
      LastWriteLeavesRecords(seed, base, t, t', first, next, y);
    }
  }
}
