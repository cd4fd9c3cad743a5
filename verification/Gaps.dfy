/**
 * The gap column family: a sorted map from the first to the last missing block number
 * of each recorded range.
 */
module Gaps {
  import opened Basics

  type GapMap = map<nat, nat>

  /** The ranges are non-empty, and neither overlap nor touch one another. */
  ghost predicate Separated(gaps: GapMap) {
    && (forall s | s in gaps :: s <= gaps[s] <= U64_MAX)
    && (forall s, t | s in gaps && t in gaps && s < t :: gaps[s] + 1 < t)
  }

  /** The set of numbers a gap map denotes, as a full scan of the ranges would find it. */
  ghost predicate Covers(gaps: GapMap, x: nat) {
    exists s :: s in gaps && s <= x <= gaps[s]
  }

  /** Rust's `saturating_add(1)` on u64. */
  function SaturatingSucc(n: nat): nat {
    if n >= U64_MAX then U64_MAX else n + 1
  }

  // ----- key order, as the database iterators see it -----

  /** A reverse iterator positioned at `x`: the greatest key at or below it. */
  function Floor(keys: set<nat>, x: nat): (r: Option<nat>)
    ensures r.None? ==> forall k | k in keys :: x < k
    ensures r.Some? ==> r.value in keys && r.value <= x && forall k | k in keys && k <= x :: k <= r.value
  {
    if x in keys then Some(x)
    else if x == 0 then None
    else Floor(keys, x - 1)
  }

  ghost predicate Ascending(s: seq<nat>) {
    forall i, j | 0 <= i < j < |s| :: s[i] < s[j]
  }

  /** A forward iterator positioned at `from`: the keys from there on, in order. */
  function KeysFrom(keys: set<nat>, from: nat): (r: seq<nat>)
    ensures Ascending(r)
    ensures forall k :: k in r <==> k in keys && from <= k <= U64_MAX
    decreases U64_MAX + 1 - from, keys
  {
    if from > U64_MAX then []
    else
      var rest := KeysFrom(keys, from + 1);
      assert forall i | 0 <= i < |rest| :: rest[i] in rest;
      if from in keys then [from] + rest else rest
  }

  // ----- pending changes -----

  datatype GapOp = Put(start: nat, end: nat) | Delete(start: nat)

  function Apply(gaps: GapMap, ops: seq<GapOp>): GapMap {
    if ops == [] then gaps
    else
      var before := Apply(gaps, ops[..|ops| - 1]);
      match ops[|ops| - 1]
      case Put(start, end) => before[start := end]
      case Delete(start) => before - {start}
  }

  lemma ApplyPush(gaps: GapMap, ops: seq<GapOp>, op: GapOp)
    ensures Apply(gaps, ops + [op]) ==
            if op.Put? then Apply(gaps, ops)[op.start := op.end] else Apply(gaps, ops) - {op.start}
  {
    assert (ops + [op])[..|ops|] == ops;
  }

  // ----- queries and updates -----

  /** Looks only at the single range that starts at or below `x`. */
  function FindContainingGap(gaps: GapMap, x: nat): Option<(nat, nat)> {
    var start := Floor(gaps.Keys, x);
    if start.Some? && x <= gaps[start.value] then Some((start.value, gaps[start.value])) else None
  }

  lemma FindContainingGapScans(gaps: GapMap, x: nat)
    requires Separated(gaps)
    ensures FindContainingGap(gaps, x).Some? <==> Covers(gaps, x)
    ensures FindContainingGap(gaps, x).Some? ==>
              var (s, e) := FindContainingGap(gaps, x).value;
              s in gaps && gaps[s] == e && s <= x <= e
  {
    if Covers(gaps, x) {
      var s :| s in gaps && s <= x <= gaps[s];
      var f := Floor(gaps.Keys, x);
      assert s <= f.value;
    }
  }

  /** A gap map in normal form is determined by the numbers it denotes. */
  lemma Canonical(g: GapMap, h: GapMap)
    requires Separated(g) && Separated(h)
    requires forall x: nat :: Covers(g, x) <==> Covers(h, x)
    ensures g == h
  {
    forall s | s in g ensures s in h && h[s] == g[s] { SameRange(g, h, s); }
    forall s | s in h ensures s in g { SameRange(h, g, s); }
  }

  lemma SameRange(g: GapMap, h: GapMap, s: nat)
    requires Separated(g) && Separated(h) && s in g
    requires forall x: nat :: Covers(g, x) <==> Covers(h, x)
    ensures s in h && h[s] == g[s]
  {
    assert Covers(g, s) && Covers(g, g[s]);
    var t :| t in h && t <= s <= h[t];
    if t < s {
      assert Covers(h, s - 1);
      Edges(g, s);
      assert false;
    }
    Edges(g, s);
    Edges(h, s);
  }

  /** The numbers just outside a recorded range are in no range. */
  lemma Edges(g: GapMap, s: nat)
    requires Separated(g) && s in g
    ensures !Covers(g, g[s] + 1)
    ensures s > 0 ==> !Covers(g, s - 1)
  {
  }

  /** `after` denotes what `before` does, plus the range `[start, end]`. */
  ghost predicate AddsRange(before: GapMap, after: GapMap, start: nat, end: nat) {
    forall x: nat :: Covers(after, x) <==> Covers(before, x) || start <= x <= end
  }

  /** `after` denotes what `before` does, minus `x`. */
  ghost predicate RemovesOne(before: GapMap, after: GapMap, x: nat) {
    forall y: nat :: Covers(after, y) <==> Covers(before, y) && y != x
  }

  /** Every number of `[low, high]` is already a gap or belongs to the range being added. */
  ghost predicate Justified(gaps: GapMap, low: nat, high: nat, start: nat, end: nat) {
    forall x | low <= x <= high :: Covers(gaps, x) || start <= x <= end
  }

  /** Records `[start, end]` as missing, merging every range it overlaps or touches. */
  method AddGapRange(gaps: GapMap, start: nat, end: nat) returns (ops: seq<GapOp>)
    requires Separated(gaps) && end <= U64_MAX
    ensures Separated(Apply(gaps, ops))
    ensures AddsRange(gaps, Apply(gaps, ops), start, end)
  {
    ops := [];
    if end < start {
      return;
    }
    var finalStart, finalEnd := start, end;
    var left := Floor(gaps.Keys, start);
    if left.Some? && SaturatingSucc(gaps[left.value]) >= start {
      if left.value < finalStart {
        finalStart := left.value;
      }
      if gaps[left.value] > finalEnd {
        finalEnd := gaps[left.value];
      }
      LeftJustified(gaps, left.value, start, end);
    }
    LeftClear(gaps, start, finalStart);
    ghost var gone;
    ops, finalEnd, gone := CollapseFrom(gaps, finalStart, finalEnd, start, end);
    ApplyPush(gaps, ops, Put(finalStart, finalEnd));
    ops := ops + [Put(finalStart, finalEnd)];
    Merged(gaps, gone, finalStart, finalEnd, start, end);
  }

  /** Deletes every range reached from `[low, high]`, growing the right end as it goes. */
  method CollapseFrom(gaps: GapMap, low: nat, high: nat, ghost start: nat, ghost end: nat)
    returns (ops: seq<GapOp>, finalEnd: nat, ghost gone: set<nat>)
    requires Separated(gaps) && high <= U64_MAX && Justified(gaps, low, high, start, end)
    ensures high <= finalEnd <= U64_MAX && Justified(gaps, low, finalEnd, start, end)
    ensures forall t | t in gone :: t in gaps && low <= t && gaps[t] <= finalEnd
    ensures forall t | t in gaps && t !in gone && low <= t :: finalEnd + 1 < t
    ensures Apply(gaps, ops) == gaps - gone
  {
    ops, finalEnd, gone := [], high, {};
    var iter := KeysFrom(gaps.Keys, low);
    var i := 0;
    while i < |iter| && iter[i] <= SaturatingSucc(finalEnd)
      invariant 0 <= i <= |iter|
      invariant high <= finalEnd <= U64_MAX && Justified(gaps, low, finalEnd, start, end)
      invariant forall j | 0 <= j < i :: iter[j] in gone
      invariant forall t | t in gone :: t in gaps && low <= t && gaps[t] <= finalEnd
      invariant Apply(gaps, ops) == gaps - gone
    {
      var k := iter[i];
      assert k in gaps && low <= k;
      if gaps[k] > finalEnd {
        Extend(gaps, k, low, finalEnd, start, end);
        finalEnd := gaps[k];
      }
      ApplyPush(gaps, ops, Delete(k));
      ops := ops + [Delete(k)];
      assert gaps - gone - {k} == gaps - (gone + {k});
      gone := gone + {k};
      i := i + 1;
    }
    forall t | t in gaps && t !in gone && low <= t ensures finalEnd + 1 < t {
      assert t in iter;
    }
  }

  lemma LeftClear(gaps: GapMap, start: nat, low: nat)
    requires Separated(gaps) && start <= U64_MAX
    requires var left := Floor(gaps.Keys, start);
             low == if left.Some? && SaturatingSucc(gaps[left.value]) >= start then left.value else start
    ensures forall t | t in gaps && t < low :: gaps[t] + 1 < low
  {
  }

  lemma LeftJustified(gaps: GapMap, k: nat, start: nat, end: nat)
    requires k in gaps && k <= start <= gaps[k] + 1 && start <= end
    ensures Justified(gaps, k, if gaps[k] > end then gaps[k] else end, start, end)
  {
    forall x | k <= x <= gaps[k] ensures Covers(gaps, x) { }
  }

  lemma Extend(gaps: GapMap, k: nat, low: nat, high: nat, start: nat, end: nat)
    requires k in gaps && k <= high + 1 && Justified(gaps, low, high, start, end)
    ensures Justified(gaps, low, gaps[k], start, end)
  {
    forall x | k <= x <= gaps[k] ensures Covers(gaps, x) { }
  }

  lemma Merged(gaps: GapMap, gone: set<nat>, low: nat, high: nat, start: nat, end: nat)
    requires Separated(gaps)
    requires low <= start <= end <= high <= U64_MAX
    requires forall t | t in gaps && t < low :: gaps[t] + 1 < low
    requires forall t | t in gone :: t in gaps && low <= t && gaps[t] <= high
    requires forall t | t in gaps && t !in gone && low <= t :: high + 1 < t
    requires Justified(gaps, low, high, start, end)
    ensures Separated((gaps - gone)[low := high])
    ensures AddsRange(gaps, (gaps - gone)[low := high], start, end)
  {
    var g := (gaps - gone)[low := high];
    forall x: nat ensures Covers(g, x) <==> Covers(gaps, x) || start <= x <= end {
      if low <= x <= high {
        assert low in g;
      } else if Covers(gaps, x) {
        var t :| t in gaps && t <= x <= gaps[t];
        assert t in g && g[t] == gaps[t];
      }
    }
  }

  /** Takes `x` out of the recorded ranges, splitting the one that holds it. */
  method FillGapBlock(gaps: GapMap, x: nat) returns (ops: seq<GapOp>)
    requires Separated(gaps)
    ensures Separated(Apply(gaps, ops))
    ensures RemovesOne(gaps, Apply(gaps, ops), x)
  {
    ops := [];
    var found := FindContainingGap(gaps, x);
    FindContainingGapScans(gaps, x);
    if found.Some? {
      var (start, end) := found.value;
      ops := ops + [Delete(start)];
      if x > start {
        ops := ops + [Put(start, x - 1)];
      }
      if x < end {
        ops := ops + [Put(x + 1, end)];
      }
      SplitOps(gaps, start, x, ops);
      SplitSeparated(gaps, start, x);
      SplitRemoves(gaps, start, x);
    }
  }

  ghost function SplitAt(gaps: GapMap, start: nat, x: nat): GapMap
    requires start in gaps && start <= x <= gaps[start]
  {
    var rest := gaps - {start};
    var left := if start < x then rest[start := x - 1] else rest;
    if x < gaps[start] then left[x + 1 := gaps[start]] else left
  }

  lemma SplitOps(gaps: GapMap, start: nat, x: nat, ops: seq<GapOp>)
    requires start in gaps && start <= x <= gaps[start]
    requires ops == [Delete(start)] + (if x > start then [Put(start, x - 1)] else [])
                    + (if x < gaps[start] then [Put(x + 1, gaps[start])] else [])
    ensures Apply(gaps, ops) == SplitAt(gaps, start, x)
  {
    var cut := [Delete(start)];
    var left := if x > start then cut + [Put(start, x - 1)] else cut;
    ApplyPush(gaps, [], Delete(start));
    assert [] + cut == cut;
    ApplyPush(gaps, cut, Put(start, SaturatingPred(x)));
    ApplyPush(gaps, left, Put(x + 1, gaps[start]));
    assert ops == if x < gaps[start] then left + [Put(x + 1, gaps[start])] else left;
  }

  lemma SplitSeparated(gaps: GapMap, start: nat, x: nat)
    requires Separated(gaps) && start in gaps && start <= x <= gaps[start]
    ensures Separated(SplitAt(gaps, start, x))
  {
    var g := SplitAt(gaps, start, x);
    forall s, t | s in g && t in g && s < t ensures g[s] + 1 < t {
      assert s == start || s == x + 1 || (s in gaps && g[s] == gaps[s]);
      assert t == start || t == x + 1 || (t in gaps && g[t] == gaps[t]);
    }
  }

  lemma SplitRemoves(gaps: GapMap, start: nat, x: nat)
    requires Separated(gaps) && start in gaps && start <= x <= gaps[start]
    ensures RemovesOne(gaps, SplitAt(gaps, start, x), x)
  {
    var g := SplitAt(gaps, start, x);
    forall y: nat ensures Covers(g, y) <==> Covers(gaps, y) && y != x {
      if start <= y <= gaps[start] {
        assert y < x ==> start in g && start <= y <= g[start];
        assert y > x ==> x + 1 in g && x + 1 <= y <= g[x + 1];
      } else if Covers(gaps, y) {
        var t :| t in gaps && t <= y <= gaps[t];
        assert t in g;
      }
    }
  }
}
