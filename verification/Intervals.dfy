/**
 * Interval accounting over model-call windows, in exact clock ticks: tick `t` is the cell [t, t+1),
 * so the measure of a union of intervals is the number of cells it covers.
 */
module Intervals {
  import opened Options
  import opened Sequences
  import opened Sorting

  datatype Interval = Interval(lo: int, hi: int)

  /** One physical model crossing. `chargedStart` is its coordinate on the charged clock, if any. */
  datatype Window = Window(startedAt: int, finishedAt: int, charged: int, chargedStart: Option<int>)

  function Max(a: int, b: int): int { if a < b then b else a }

  function Clamp(x: int): nat { if x < 0 then 0 else x }

  // ----- measure ---------------------------------------------------------------------------

  /** The `n` ticks from `lo` on. */
  ghost function Stretch(lo: int, n: nat): (r: set<int>)
    ensures forall t :: t in r <==> lo <= t < lo + n
  {
    if n == 0 then {} else Stretch(lo, n - 1) + {lo + n - 1}
  }

  ghost function Cells(x: Interval): (r: set<int>)
    ensures forall t :: t in r <==> x.lo <= t < x.hi
  {
    Stretch(x.lo, Clamp(x.hi - x.lo))
  }

  lemma {:induction false} StretchCount(lo: int, n: nat)
    ensures |Stretch(lo, n)| == n
  {
    if n > 0 {
      StretchCount(lo, n - 1);
    }
  }

  lemma CellsCount(x: Interval)
    ensures |Cells(x)| == Clamp(x.hi - x.lo)
  {
    StretchCount(x.lo, Clamp(x.hi - x.lo));
  }

  /** The cells covered by at least one interval of the list; see `CoveredBy` and `CoveredHas`. */
  ghost function Covered(s: seq<Interval>): set<int> {
    if s == [] then {} else Covered(s[..|s| - 1]) + Cells(s[|s| - 1])
  }

  function SumLengths(s: seq<Interval>): nat {
    if s == [] then 0 else SumLengths(s[..|s| - 1]) + Clamp(s[|s| - 1].hi - s[|s| - 1].lo)
  }

  ghost predicate PairwiseDisjoint(s: seq<Interval>) {
    forall i, j :: 0 <= i < j < |s| ==> Cells(s[i]) !! Cells(s[j])
  }

  lemma CoveredAppend(s: seq<Interval>, x: Interval)
    ensures Covered(s + [x]) == Covered(s) + Cells(x)
  {
    assert (s + [x])[..|s|] == s;
  }

  lemma {:induction false} CoveredHas(s: seq<Interval>, i: nat)
    requires i < |s|
    ensures Cells(s[i]) <= Covered(s)
  {
    if i < |s| - 1 {
      CoveredHas(s[..|s| - 1], i);
    }
  }

  lemma {:induction false} CoveredBy(s: seq<Interval>, t: int) returns (i: nat)
    requires t in Covered(s)
    ensures i < |s| && t in Cells(s[i])
  {
    if t in Cells(s[|s| - 1]) {
      i := |s| - 1;
    } else {
      i := CoveredBy(s[..|s| - 1], t);
    }
  }

  lemma CoveredSubset(a: seq<Interval>, b: seq<Interval>)
    requires forall x :: x in a ==> x in b
    ensures Covered(a) <= Covered(b)
  {
    forall t | t in Covered(a)
      ensures t in Covered(b)
    {
      var i := CoveredBy(a, t);
      assert a[i] in b;
      var j :| 0 <= j < |b| && b[j] == a[i];
      CoveredHas(b, j);
    }
  }

  lemma UnionSize<T>(a: set<T>, b: set<T>)
    ensures |a + b| <= |a| + |b|
    ensures |a + b| == |a| + |b| <==> a !! b
  {
    assert a + b == a + (b - a);
    assert |b| == |b - a| + |b * a| by {
      assert b == (b - a) + (b * a);
    }
    assert a !! b <==> |b * a| == 0;
  }

  lemma SubsetSize<T>(a: set<T>, b: set<T>)
    requires a <= b
    ensures |a| <= |b|
    ensures |a| == |b| ==> a == b
  {
    assert b == a + (b - a);
  }

  lemma DisjointCovered(s: seq<Interval>, x: Interval)
    ensures Covered(s) !! Cells(x) <==> forall i :: 0 <= i < |s| ==> Cells(s[i]) !! Cells(x)
  {
    if Covered(s) !! Cells(x) {
      forall i | 0 <= i < |s|
        ensures Cells(s[i]) !! Cells(x)
      {
        CoveredHas(s, i);
      }
    }
    if forall i :: 0 <= i < |s| ==> Cells(s[i]) !! Cells(x) {
      forall t | t in Covered(s)
        ensures t !in Cells(x)
      {
        var i := CoveredBy(s, t);
      }
    }
  }

  lemma DisjointAppend(s: seq<Interval>, x: Interval)
    ensures PairwiseDisjoint(s + [x]) <==> PairwiseDisjoint(s) && Covered(s) !! Cells(x)
  {
    var r := s + [x];
    DisjointCovered(s, x);
    if PairwiseDisjoint(r) {
      forall i, j | 0 <= i < j < |s|
        ensures Cells(s[i]) !! Cells(s[j])
      {
        assert r[i] == s[i] && r[j] == s[j];
      }
      forall i | 0 <= i < |s|
        ensures Cells(s[i]) !! Cells(x)
      {
        assert r[i] == s[i] && r[|s|] == x;
      }
    }
  }

  /** The union is no longer than the serialized sum, and exactly as long when nothing overlaps. */
  lemma {:induction false} UnionVersusSum(s: seq<Interval>)
    ensures |Covered(s)| <= SumLengths(s)
    ensures |Covered(s)| == SumLengths(s) <==> PairwiseDisjoint(s)
  {
    if s != [] {
      var init, x := s[..|s| - 1], s[|s| - 1];
      assert s == init + [x];
      UnionVersusSum(init);
      CoveredAppend(init, x);
      UnionSize(Covered(init), Cells(x));
      CellsCount(x);
      DisjointAppend(init, x);
    }
  }

  /** The union is at least as long as every single interval in it. */
  lemma UnionVersusLongest(s: seq<Interval>, i: nat)
    requires i < |s|
    ensures Clamp(s[i].hi - s[i].lo) <= |Covered(s)|
  {
    CoveredHas(s, i);
    CellsCount(s[i]);
    SubsetSize(Cells(s[i]), Covered(s));
  }

  /** The union depends only on which intervals are in the list, not on their order. */
  lemma UnionIgnoresOrder(a: seq<Interval>, b: seq<Interval>)
    requires multiset(a) == multiset(b)
    ensures Covered(a) == Covered(b)
  {
    SameElements(a, b);
    CoveredSubset(a, b);
    CoveredSubset(b, a);
  }

  // ----- the sort-and-merge sweep ----------------------------------------------------------

  function Normalised(s: seq<Interval>): (r: seq<Interval>)
    ensures |r| == |s|
    ensures forall i :: 0 <= i < |s| ==> r[i] == Interval(s[i].lo, Max(s[i].lo, s[i].hi))
  {
    seq(|s|, i requires 0 <= i < |s| => Interval(s[i].lo, Max(s[i].lo, s[i].hi)))
  }

  lemma {:induction false} NormalisedCovers(s: seq<Interval>)
    ensures Covered(Normalised(s)) == Covered(s)
  {
    if s != [] {
      var init, x := s[..|s| - 1], s[|s| - 1];
      NormalisedCovers(init);
      assert Normalised(s) == Normalised(init) + [Interval(x.lo, Max(x.lo, x.hi))];
      CoveredAppend(Normalised(init), Interval(x.lo, Max(x.lo, x.hi)));
      assert Cells(Interval(x.lo, Max(x.lo, x.hi))) == Cells(x);
    }
  }

  lemma MergeCells(a: Interval, b: Interval)
    requires a.lo <= b.lo <= a.hi && b.lo <= b.hi
    ensures Cells(Interval(a.lo, Max(a.hi, b.hi))) == Cells(a) + Cells(b)
  {
  }

  lemma NormalisedProper(s: seq<Interval>, sorted: seq<Interval>)
    requires multiset(sorted) == multiset(Normalised(s))
    ensures forall i :: 0 <= i < |sorted| ==> sorted[i].lo <= sorted[i].hi
  {
    SameElements(sorted, Normalised(s));
    forall i | 0 <= i < |sorted|
      ensures sorted[i].lo <= sorted[i].hi
    {
      assert sorted[i] in Normalised(s);
    }
  }

  /** What sorting gives the sweep: the same cells, as proper intervals in order of their starts. */
  method SortIntervals(raw: seq<Interval>) returns (sorted: seq<Interval>)
    ensures Covered(sorted) == Covered(raw) && (sorted == [] <==> raw == [])
    ensures forall i :: 0 <= i < |sorted| ==> sorted[i].lo <= sorted[i].hi
    ensures forall i, j :: 0 <= i < j < |sorted| ==> sorted[i].lo <= sorted[j].lo
  {
    sorted := Sorted(Normalised(raw), (x: Interval) => (x.lo, x.hi));
    NormalisedCovers(raw);
    UnionIgnoresOrder(sorted, Normalised(raw));
    NormalisedProper(raw, sorted);
    assert |multiset(sorted)| == |sorted|;
  }

  /** The sweep's state: `total` ticks are settled in `closed`, and `current` is still growing. */
  ghost predicate Swept(seen: seq<Interval>, closed: set<int>, current: Interval, total: nat) {
    && current.lo <= current.hi
    && total == |closed|
    && (forall t :: t in closed ==> t < current.lo)
    && Covered(seen) == closed + Cells(current)
  }

  lemma SweptStart(s: seq<Interval>)
    requires s != [] && s[0].lo <= s[0].hi
    ensures Swept(s[..1], {}, s[0], 0)
  {
    assert s[..1] == [] + [s[0]];
    CoveredAppend([], s[0]);
  }

  lemma SweptTotal(seen: seq<Interval>, closed: set<int>, current: Interval, total: nat)
    requires Swept(seen, closed, current, total)
    ensures |Covered(seen)| == total + current.hi - current.lo
  {
    UnionSize(closed, Cells(current));
    CellsCount(current);
  }

  lemma SweptMerge(seen: seq<Interval>, closed: set<int>, current: Interval, total: nat, next: Interval)
    requires Swept(seen, closed, current, total)
    requires current.lo <= next.lo <= current.hi && next.lo <= next.hi
    ensures Swept(seen + [next], closed, Interval(current.lo, Max(current.hi, next.hi)), total)
  {
    CoveredAppend(seen, next);
    MergeCells(current, next);
  }

  lemma SweptClose(seen: seq<Interval>, closed: set<int>, current: Interval, total: nat, next: Interval)
    requires Swept(seen, closed, current, total)
    requires current.hi < next.lo <= next.hi
    ensures Swept(seen + [next], closed + Cells(current), next, total + (current.hi - current.lo))
  {
    CoveredAppend(seen, next);
    UnionSize(closed, Cells(current));
    CellsCount(current);
  }

  method IntervalUnion(raw: seq<Interval>) returns (total: nat)
    ensures total == |Covered(raw)|
  {
    var intervals := SortIntervals(raw);
    if intervals == [] {
      return 0;
    }
    total := 0;
    var current := intervals[0];
    ghost var closed: set<int> := {};
    SweptStart(intervals);
    for k := 1 to |intervals|
      invariant current.lo <= intervals[k - 1].lo
      invariant Swept(intervals[..k], closed, current, total)
    {
      var next := intervals[k];
      TakeNext(intervals, k);
      if next.lo <= current.hi {
        SweptMerge(intervals[..k], closed, current, total, next);
        current := Interval(current.lo, Max(current.hi, next.hi));
      } else {
        SweptClose(intervals[..k], closed, current, total, next);
        closed := closed + Cells(current);
        total := total + (current.hi - current.lo);
        current := next;
      }
    }
    TakeAll(intervals);
    SweptTotal(intervals, closed, current, total);
    total := total + current.hi - current.lo;
  }

  ghost predicate AllCoordinated(ws: seq<Window>) {
    forall w :: w in ws ==> w.chargedStart.Some?
  }

  ghost predicate NoneCoordinated(ws: seq<Window>) {
    forall w :: w in ws ==> w.chargedStart.None?
  }

  /** The interval a window occupies on the one axis chosen for the whole collection. */
  function ChargedInterval(w: Window): Interval {
    var start := if w.chargedStart.Some? then w.chargedStart.value else w.startedAt;
    Interval(start, start + Clamp(w.charged))
  }

  function ChargedIntervals(ws: seq<Window>): (r: seq<Interval>)
    ensures |r| == |ws|
  {
    if ws == [] then [] else ChargedIntervals(ws[..|ws| - 1]) + [ChargedInterval(ws[|ws| - 1])]
  }

  /** The ticks of the charged axis that the windows occupy. */
  ghost function Axis(ws: seq<Window>): set<int> {
    if ws == [] then {} else Axis(ws[..|ws| - 1]) + Cells(ChargedInterval(ws[|ws| - 1]))
  }

  lemma {:induction false} AxisCovered(ws: seq<Window>)
    ensures Axis(ws) == Covered(ChargedIntervals(ws))
  {
    if ws != [] {
      AxisCovered(ws[..|ws| - 1]);
      CoveredAppend(ChargedIntervals(ws[..|ws| - 1]), ChargedInterval(ws[|ws| - 1]));
    }
  }

  lemma AxisSnoc(ws: seq<Window>, w: Window)
    ensures Axis(ws + [w]) == Axis(ws) + Cells(ChargedInterval(w))
  {
    Snoc(ws, w);
  }

  lemma {:induction false} AxisConcat(a: seq<Window>, b: seq<Window>)
    ensures Axis(a + b) == Axis(a) + Axis(b)
  {
    if b == [] {
      ConcatNil(a);
      SetAlgebra(Axis(a), {}, {});
    } else {
      var init, last := b[..|b| - 1], b[|b| - 1];
      AxisConcat(a, init);
      ConcatSnoc(a, b);
      SetAlgebra(Axis(a), Axis(init), Cells(ChargedInterval(last)));
    }
  }

  lemma SetAlgebra(a: set<int>, b: set<int>, c: set<int>)
    ensures a + {} == a
    ensures (a + b) + c == a + (b + c)
  {
  }

  function SerializedCharge(ws: seq<Window>): nat {
    if ws == [] then 0 else SerializedCharge(ws[..|ws| - 1]) + Clamp(ws[|ws| - 1].charged)
  }

  lemma ChargeSnoc(ws: seq<Window>, w: Window)
    ensures SerializedCharge(ws + [w]) == SerializedCharge(ws) + Clamp(w.charged)
  {
    assert (ws + [w])[..|ws|] == ws;
  }

  lemma WindowCovers(windows: seq<Window>, w: Window, start: int)
    requires w.chargedStart == Some(start) && w.charged >= 0
    ensures Axis(windows + [w]) == Axis(windows) + Cells(Interval(start, start + w.charged))
    ensures SerializedCharge(windows + [w]) == SerializedCharge(windows) + w.charged
  {
    AxisSnoc(windows, w);
    ChargeSnoc(windows, w);
  }

  lemma {:induction false} SerializedIsSum(ws: seq<Window>)
    ensures SumLengths(ChargedIntervals(ws)) == SerializedCharge(ws)
  {
    if ws != [] {
      SerializedIsSum(ws[..|ws| - 1]);
      assert ChargedIntervals(ws)[..|ws| - 1] == ChargedIntervals(ws[..|ws| - 1]);
    }
  }

  /** Parallel inference is never charged more than the same calls in series. */
  lemma AxisVersusSerialized(ws: seq<Window>)
    ensures |Axis(ws)| <= SerializedCharge(ws)
    ensures |Axis(ws)| == SerializedCharge(ws) <==> PairwiseDisjoint(ChargedIntervals(ws))
  {
    AxisCovered(ws);
    UnionVersusSum(ChargedIntervals(ws));
    SerializedIsSum(ws);
  }

  /** A mixture of axes has no union; otherwise the answer is the exact measure. */
  method ChargedTimeUnion(ws: seq<Window>) returns (r: Option<nat>)
    ensures r.None? <==> !AllCoordinated(ws) && !NoneCoordinated(ws)
    ensures r.Some? ==> r.value == |Axis(ws)|
  {
    if ws == [] {
      return Some(0);
    }
    var seenCharged, seenBare := false, false;
    for i := 0 to |ws|
      invariant seenCharged <==> exists k :: 0 <= k < i && ws[k].chargedStart.Some?
      invariant seenBare <==> exists k :: 0 <= k < i && ws[k].chargedStart.None?
    {
      seenCharged := seenCharged || ws[i].chargedStart.Some?;
      seenBare := seenBare || ws[i].chargedStart.None?;
    }
    if seenCharged && seenBare {
      return None;
    }
    AxisCovered(ws);
    var total := IntervalUnion(ChargedIntervals(ws));
    return Some(total);
  }
}
