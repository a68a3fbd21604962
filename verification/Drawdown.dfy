/**
 The deepest drawdown of an equity curve, found in one pass over running maxima, against its
 definition over all pairs of points.
 */
module Drawdown {
  import opened Floats
  import opened Text

  /** A row of the input. */
  datatype Row = Row(time: int, equity: Num)

  /** A row whose equity is a number. */
  datatype Point = Point(time: int, equity: real)

  datatype CurvePoint = CurvePoint(time: int, equity: real, peak: real, amount: real, rate: real)

  datatype CurveError = BadEquity | RepeatedTime

  datatype Result = Built(curve: seq<CurvePoint>) | Rejected(error: CurveError)

  datatype Stats = Stats(amount: real, rate: real, peakTime: Option<int>, troughTime: Option<int>,
      recoveryTime: Option<int>)

  const NO_DRAWDOWN := Stats(0.0, 0.0, None, None, None)

  // ---------- the curve ----------

  /** Inserts after every point that is not later. */
  function Insert(points: seq<Point>, p: Point): seq<Point> {
    if points == [] || points[|points| - 1].time <= p.time then points + [p]
    else Insert(points[..|points| - 1], p) + [points[|points| - 1]]
  }

  /** A stable sort by time. */
  function SortByTime(points: seq<Point>): seq<Point> {
    if points == [] then [] else Insert(SortByTime(points[..|points| - 1]), points[|points| - 1])
  }

  predicate Usable(row: Row) {
    row.equity.Finite? && row.equity.v > 0.0
  }

  predicate AllUsable(rows: seq<Row>) {
    forall i :: 0 <= i < |rows| ==> Usable(rows[i])
  }

  predicate Positive(p: Point) {
    p.equity > 0.0
  }

  predicate AllPositive(points: seq<Point>) {
    forall i :: 0 <= i < |points| ==> Positive(points[i])
  }

  predicate TimesRepeat(points: seq<Point>) {
    exists i, j :: 0 <= i < j < |points| && points[i].time == points[j].time
  }

  function Ratio(part: real, whole: real): real
    requires whole > 0.0
  {
    part / whole
  }

  /** The running maximum is attached to every point. */
  function WithPeaks(points: seq<Point>): (curve: seq<CurvePoint>)
    requires AllPositive(points)
    ensures |curve| == |points|
    ensures forall i :: 0 <= i < |curve| ==>
      curve[i].time == points[i].time && curve[i].equity == points[i].equity > 0.0
    ensures forall i :: 0 <= i < |curve| ==> curve[i].peak >= curve[i].equity
  {
    if points == [] then []
    else
      var n := |points| - 1;
      var init := WithPeaks(points[..n]);
      var equity := points[n].equity;
      var peak := if n > 0 && init[n - 1].peak > equity then init[n - 1].peak else equity;
      init + [CurvePoint(points[n].time, equity, peak, peak - equity, Ratio(peak - equity, peak))]
  }

  function PointsOf(rows: seq<Row>): (points: seq<Point>)
    requires AllUsable(rows)
    ensures |points| == |rows| && AllPositive(points)
    ensures forall i :: 0 <= i < |rows| ==> points[i].time == rows[i].time && points[i].equity == rows[i].equity.v
  {
    if rows == [] then [] else PointsOf(rows[..|rows| - 1]) + [Point(rows[|rows| - 1].time, rows[|rows| - 1].equity.v)]
  }

  function BuildCurve(rows: seq<Row>): Result {
    if rows == [] then Built([])
    else if !AllUsable(rows) then Rejected(BadEquity)
    else
      var sorted := SortByTime(PointsOf(rows));
      SortKeeps(PointsOf(rows));
      if TimesRepeat(sorted) then Rejected(RepeatedTime) else Built(WithPeaks(sorted))
  }

  ghost predicate Sorted(points: seq<Point>) {
    forall i, j :: 0 <= i < j < |points| ==> points[i].time <= points[j].time
  }

  ghost predicate NoneLater(points: seq<Point>, time: int) {
    forall i :: 0 <= i < |points| ==> points[i].time <= time
  }

  lemma SortedSnoc(points: seq<Point>, p: Point)
    requires Sorted(points) && NoneLater(points, p.time)
    ensures Sorted(points + [p])
  {}

  lemma {:induction false} InsertMultiset(points: seq<Point>, p: Point)
    ensures multiset(Insert(points, p)) == multiset(points) + multiset{p} && |Insert(points, p)| == |points| + 1
  {
    if points != [] && points[|points| - 1].time > p.time {
      var n := |points| - 1;
      InsertMultiset(points[..n], p);
      assert points == points[..n] + [points[n]];
    }
  }

  lemma {:induction false} InsertNoneLater(points: seq<Point>, p: Point, time: int)
    requires NoneLater(points, time) && p.time <= time
    ensures NoneLater(Insert(points, p), time)
  {
    if points != [] && points[|points| - 1].time > p.time {
      InsertNoneLater(points[..|points| - 1], p, time);
    }
  }

  lemma {:induction false} InsertSorts(points: seq<Point>, p: Point)
    requires Sorted(points)
    ensures Sorted(Insert(points, p))
  {
    if points == [] || points[|points| - 1].time <= p.time {
      assert NoneLater(points, p.time);
      SortedSnoc(points, p);
    } else {
      var n := |points| - 1;
      var init, last := points[..n], points[n];
      assert Sorted(init) && NoneLater(init, last.time);
      InsertSorts(init, p);
      InsertNoneLater(init, p, last.time);
      SortedSnoc(Insert(init, p), last);
    }
  }

  /** Sorting keeps the points, and so the positive equity. */
  lemma {:induction false} SortKeeps(points: seq<Point>)
    ensures Sorted(SortByTime(points)) && multiset(SortByTime(points)) == multiset(points)
    ensures |SortByTime(points)| == |points|
    ensures AllPositive(points) ==> AllPositive(SortByTime(points))
  {
    SortIsPermutation(points);
    hide Insert, Sorted, Positive;
    if points != [] {
      SortKeeps(points[..|points| - 1]);
      InsertSorts(SortByTime(points[..|points| - 1]), points[|points| - 1]);
    } else {
      NothingIsSorted();
    }
    if AllPositive(points) {
      PermutationStaysPositive(points, SortByTime(points));
    }
  }

  lemma NothingIsSorted()
    ensures Sorted([])
  {}

  lemma {:induction false} SortIsPermutation(points: seq<Point>)
    ensures multiset(SortByTime(points)) == multiset(points) && |SortByTime(points)| == |points|
  {
    hide Insert;
    if points != [] {
      var n := |points| - 1;
      SortIsPermutation(points[..n]);
      InsertMultiset(SortByTime(points[..n]), points[n]);
      assert points == points[..n] + [points[n]];
    }
  }

  lemma PermutationStaysPositive(a: seq<Point>, b: seq<Point>)
    requires multiset(a) == multiset(b) && AllPositive(a)
    ensures AllPositive(b)
  {
    hide Positive;
    forall i | 0 <= i < |b|
      ensures Positive(b[i])
    {
      assert b[i] in multiset(b);
      assert b[i] in a;
    }
  }

  ghost predicate IsPeak(curve: seq<CurvePoint>, j: nat)
    requires j < |curve|
  {
    && (forall i :: 0 <= i <= j ==> curve[i].equity <= curve[j].peak)
    && (exists i :: 0 <= i <= j && curve[i].equity == curve[j].peak)
  }

  lemma IsPeakLater(init: seq<CurvePoint>, c: CurvePoint, j: nat)
    requires j < |init| && IsPeak(init, j)
    ensures IsPeak(init + [c], j)
  {
    var i :| 0 <= i <= j && init[i].equity == init[j].peak;
    assert (init + [c])[i] == init[i];
  }

  lemma IsPeakNow(init: seq<CurvePoint>, c: CurvePoint)
    requires init != [] ==> IsPeak(init, |init| - 1)
    requires c.peak == if init != [] && init[|init| - 1].peak > c.equity then init[|init| - 1].peak else c.equity
    ensures IsPeak(init + [c], |init|)
  {
    var curve, n := init + [c], |init|;
    if n > 0 && init[n - 1].peak > c.equity {
      var i :| 0 <= i <= n - 1 && init[i].equity == init[n - 1].peak;
      assert curve[i].equity == curve[n].peak;
    } else {
      assert curve[n].equity == curve[n].peak;
    }
  }

  /** The peak of a point is the largest equity up to it, and one of those equities. */
  lemma {:induction false} PeakIsMaximum(points: seq<Point>, j: nat)
    requires AllPositive(points) && j < |points|
    ensures IsPeak(WithPeaks(points), j)
    ensures var c := WithPeaks(points)[j]; c.amount == c.peak - c.equity && c.rate == Ratio(c.amount, c.peak)
  {
    hide Ratio, IsPeak, Positive;
    var n := |points| - 1;
    var init := WithPeaks(points[..n]);
    if j < n {
      PeakIsMaximum(points[..n], j);
      IsPeakLater(init, WithPeaks(points)[n], j);
    } else {
      if n > 0 {
        PeakIsMaximum(points[..n], n - 1);
      }
      IsPeakNow(init, WithPeaks(points)[n]);
    }
  }

  // ---------- the summary ----------

  /** The first point of greatest rate. */
  function DeepestOf(curve: seq<CurvePoint>): (k: nat)
    requires curve != []
    ensures k < |curve|
    ensures forall i :: 0 <= i < |curve| ==> curve[i].rate <= curve[k].rate
    ensures forall i :: 0 <= i < k ==> curve[i].rate < curve[k].rate
  {
    var n := |curve| - 1;
    if n == 0 then 0
    else
      var k := DeepestOf(curve[..n]);
      assert forall i :: 0 <= i < n ==> curve[..n][i] == curve[i];
      if curve[n].rate > curve[k].rate then n else k
  }

  /** The last of the first `n` points with a given equity. */
  function LastWith(curve: seq<CurvePoint>, n: nat, equity: real): (k: Option<nat>)
    requires n <= |curve|
    ensures k.None? ==> forall i :: 0 <= i < n ==> curve[i].equity != equity
    ensures k.Some? ==>
      && k.value < n && curve[k.value].equity == equity
      && forall i :: k.value < i < n ==> curve[i].equity != equity
  {
    if n == 0 then None else if curve[n - 1].equity == equity then Some(n - 1) else LastWith(curve, n - 1, equity)
  }

  /** The first point from `n` on with at least a given equity. */
  function FirstAtLeast(curve: seq<CurvePoint>, n: nat, equity: real): (k: Option<nat>)
    requires n <= |curve|
    ensures k.None? ==> forall i :: n <= i < |curve| ==> curve[i].equity < equity
    ensures k.Some? ==>
      && n <= k.value < |curve| && curve[k.value].equity >= equity
      && forall i :: n <= i < k.value ==> curve[i].equity < equity
    decreases |curve| - n
  {
    if n == |curve| then None else if curve[n].equity >= equity then Some(n) else FirstAtLeast(curve, n + 1, equity)
  }

  function TimeAt(curve: seq<CurvePoint>, k: Option<nat>): Option<int>
    requires k.Some? ==> k.value < |curve|
  {
    if k.Some? then Some(curve[k.value].time) else None
  }

  function Summarize(curve: seq<CurvePoint>): Stats {
    if curve == [] then NO_DRAWDOWN
    else
      var t := DeepestOf(curve);
      if curve[t].amount <= 0.0 then NO_DRAWDOWN
      else
        Stats(curve[t].amount, curve[t].rate, TimeAt(curve, LastWith(curve, t + 1, curve[t].peak)), Some(curve[t].time),
              TimeAt(curve, FirstAtLeast(curve, t + 1, curve[t].peak)))
  }

  // ---------- the definition ----------

  /** Every point carries the largest equity up to it, and the fall from there. */
  ghost predicate IsCurve(curve: seq<CurvePoint>) {
    forall j :: 0 <= j < |curve| ==> IsPeak(curve, j) && GoodPoint(curve[j])
  }

  ghost predicate GoodPoint(c: CurvePoint) {
    0.0 < c.equity <= c.peak && c.amount == c.peak - c.equity && c.rate == Ratio(c.amount, c.peak)
  }

  lemma WithPeaksIsCurve(points: seq<Point>)
    requires AllPositive(points)
    ensures IsCurve(WithPeaks(points))
  {
    hide Ratio, IsPeak;
    forall j | 0 <= j < |points|
      ensures IsPeak(WithPeaks(points), j) && GoodPoint(WithPeaks(points)[j])
    {
      PeakIsMaximum(points, j);
    }
  }

  /** The relative fall from one equity to another. */
  function Fall(from: CurvePoint, to: CurvePoint): real
    requires from.equity > 0.0
  {
    Ratio(from.equity - to.equity, from.equity)
  }

  /** No fall anywhere on the curve is greater. */
  ghost predicate NoneGreater(curve: seq<CurvePoint>, rate: real)
    requires IsCurve(curve)
  {
    forall i, j :: 0 <= i <= j < |curve| ==> Fall(curve[i], curve[j]) <= rate
  }

  /**
   A drawdown from `p` to `t` that ends at `r`: `p` is the highest point up to `t` and the last one
   so high, and `r` is the first return to its height; between the two every point is lower.
   */
  ghost predicate IsDrawdown(curve: seq<CurvePoint>, p: nat, t: nat, r: Option<nat>) {
    && p < t < |curve|
    && (forall i :: 0 <= i <= t ==> curve[i].equity <= curve[p].equity)
    && (r.Some? ==> t < r.value < |curve| && curve[r.value].equity >= curve[p].equity)
    && (forall i :: p < i < (if r.Some? then r.value else |curve|) ==> curve[i].equity < curve[p].equity)
  }

  lemma FallGrowsWithPeak(a: real, b: real, c: real)
    requires 0.0 < a <= b && 0.0 < c
    ensures Ratio(a - c, a) <= Ratio(b - c, b)
  {
    var x, y := 1.0 - Ratio(a - c, a), 1.0 - Ratio(b - c, b);
    assert x * a == c && y * b == c;
    hide Ratio;
    PositiveFactor(x, a);
    PositiveFactor(y, b);
    if x < y {
      FactorsOrder(x, y, a, b);
    }
  }

  lemma PositiveFactor(x: real, a: real)
    requires 0.0 < a && x * a > 0.0
    ensures x > 0.0
  {}

  lemma FactorsOrder(x: real, y: real, a: real, b: real)
    requires 0.0 < x < y && 0.0 < a <= b
    ensures x * a < y * b
  {
    assert x * a < y * a;
    assert y * a <= y * b;
  }

  lemma RatioSign(part: real, whole: real)
    requires whole > 0.0
    ensures Ratio(part, whole) > 0.0 <==> part > 0.0
    ensures Ratio(part, whole) >= 0.0 <==> part >= 0.0
    ensures Ratio(part, whole) * whole == part
  {
    var q := Ratio(part, whole);
    assert q * whole == part;
  }

  lemma AtPoint(curve: seq<CurvePoint>, i: nat, j: nat)
    requires IsCurve(curve) && i <= j < |curve|
    ensures IsPeak(curve, j) && GoodPoint(curve[i]) && GoodPoint(curve[j]) && curve[i].equity <= curve[j].peak
  {
    hide GoodPoint;
    assert IsPeak(curve, j) && GoodPoint(curve[i]) && GoodPoint(curve[j]);
  }

  lemma FallAtMost(from: CurvePoint, to: CurvePoint)
    requires GoodPoint(from) && GoodPoint(to) && from.equity <= to.peak
    ensures from.equity > 0.0 && Fall(from, to) <= to.rate
  {
    FallGrowsWithPeak(from.equity, to.peak, to.equity);
    hide Ratio;
  }

  /** The rate of a point is at least the fall to it from any point before. */
  lemma FallBelowRate(curve: seq<CurvePoint>, i: nat, j: nat)
    requires IsCurve(curve) && i <= j < |curve|
    ensures curve[i].equity > 0.0 && Fall(curve[i], curve[j]) <= curve[j].rate
  {
    AtPoint(curve, i, j);
    FallAtMost(curve[i], curve[j]);
    hide *;
  }

  lemma RateSign(c: CurvePoint)
    requires GoodPoint(c)
    ensures c.rate >= 0.0 && (c.rate > 0.0 <==> c.amount > 0.0)
  {
    RatioSign(c.amount, c.peak);
    hide Ratio;
  }

  lemma SomePeak(curve: seq<CurvePoint>, t: nat)
    requires t < |curve| && IsPeak(curve, t)
    ensures LastWith(curve, t + 1, curve[t].peak).Some?
  {
    hide LastWith;
    var i :| 0 <= i <= t && curve[i].equity == curve[t].peak;
  }

  ghost predicate AllBelow(curve: seq<CurvePoint>, from: int, to: int, peak: real)
    requires 0 <= from && to <= |curve|
  {
    forall i :: from <= i < to ==> curve[i].equity < peak
  }

  ghost predicate NoneAbove(curve: seq<CurvePoint>, to: int, peak: real)
    requires to < |curve|
  {
    forall i :: 0 <= i <= to ==> curve[i].equity <= peak
  }

  lemma BelowBefore(curve: seq<CurvePoint>, p: nat, t: nat, peak: real)
    requires t < |curve| && NoneAbove(curve, t, peak) && LastWith(curve, t + 1, peak) == Some(p)
    ensures p <= t && curve[p].equity == peak && AllBelow(curve, p + 1, t + 1, peak)
  {
    hide LastWith;
    assert forall i :: p < i < t + 1 ==> curve[i].equity != peak;
  }

  lemma BelowAfter(curve: seq<CurvePoint>, t: nat, r: Option<nat>, peak: real)
    requires t < |curve| && FirstAtLeast(curve, t + 1, peak) == r
    ensures r.Some? ==> t < r.value < |curve| && curve[r.value].equity >= peak
    ensures AllBelow(curve, t + 1, if r.Some? then r.value else |curve|, peak)
  {
    hide FirstAtLeast;
  }

  lemma BelowJoins(curve: seq<CurvePoint>, a: int, b: int, c: int, peak: real)
    requires 0 <= a <= b <= c <= |curve| && AllBelow(curve, a, b, peak) && AllBelow(curve, b, c, peak)
    ensures AllBelow(curve, a, c, peak)
  {}

  lemma ReportedAt(curve: seq<CurvePoint>, t: nat, p: nat, r: Option<nat>)
    requires t < |curve| && IsPeak(curve, t) && curve[t].equity < curve[t].peak
    requires LastWith(curve, t + 1, curve[t].peak) == Some(p)
    requires FirstAtLeast(curve, t + 1, curve[t].peak) == r
    ensures IsDrawdown(curve, p, t, r) && curve[p].equity == curve[t].peak
  {
    assert NoneAbove(curve, t, curve[t].peak);
    BelowBefore(curve, p, t, curve[t].peak);
    BelowAfter(curve, t, r, curve[t].peak);
    BelowJoins(curve, p + 1, t + 1, if r.Some? then r.value else |curve|, curve[t].peak);
    hide LastWith, FirstAtLeast, IsPeak;
  }

  /** Where the deepest point is below its peak, a drawdown ends there. */
  lemma ReportedIsDrawdown(curve: seq<CurvePoint>, t: nat) returns (p: nat, r: Option<nat>)
    requires IsCurve(curve) && t < |curve| && curve[t].amount > 0.0
    ensures IsDrawdown(curve, p, t, r) && curve[p].equity == curve[t].peak > 0.0
    ensures LastWith(curve, t + 1, curve[t].peak) == Some(p)
    ensures FirstAtLeast(curve, t + 1, curve[t].peak) == r
  {
    AtPoint(curve, t, t);
    BelowPeak(curve[t]);
    SomePeak(curve, t);
    hide *;
    r := FirstAtLeast(curve, t + 1, curve[t].peak);
    p := LastWith(curve, t + 1, curve[t].peak).value;
    ReportedAt(curve, t, p, r);
  }

  lemma BelowPeak(c: CurvePoint)
    requires GoodPoint(c) && c.amount > 0.0
    ensures c.equity < c.peak && c.peak > 0.0
  {}

  /**
   The single pass finds the greatest fall over all pairs of points. When equity falls at all, the
   summary names the first trough of that depth, the last point at the height it fell from, and
   the first return to that height; otherwise everything is zero.
   */
  lemma DeepestDrawdown(curve: seq<CurvePoint>) returns (p: nat, t: nat, r: Option<nat>)
    requires IsCurve(curve)
    ensures var s := Summarize(curve);
      && NoneGreater(curve, s.rate)
      && (s.rate > 0.0 ==>
           && IsDrawdown(curve, p, t, r) && curve[p].equity > 0.0
           && s == Stats(curve[p].equity - curve[t].equity, Fall(curve[p], curve[t]), Some(curve[p].time),
             Some(curve[t].time), TimeAt(curve, r))
           && FallsLessBefore(curve, t, s.rate))
      && (s.rate <= 0.0 ==> s == NO_DRAWDOWN && NeverFalls(curve))
  {
    p, t, r := 0, 0, None;
    if curve != [] {
      t := DeepestOf(curve);
      assert GoodPoint(curve[t]);
      RateSign(curve[t]);
      FallsAreBelow(curve, t);
      hide *;
      if curve[t].amount > 0.0 {
        p, r := FallingSummary(curve, t);
      } else {
        NoRateNoFall(curve);
        FlatSummary(curve, t);
      }
    } else {
      NothingFalls();
    }
  }

  lemma NothingFalls()
    ensures Summarize([]) == NO_DRAWDOWN && NO_DRAWDOWN.rate == 0.0 && NeverFalls([]) && NoneGreater([], 0.0)
  {}

  lemma FlatSummary(curve: seq<CurvePoint>, t: nat)
    requires curve != [] && t == DeepestOf(curve) && curve[t].amount <= 0.0
    ensures Summarize(curve) == NO_DRAWDOWN && NO_DRAWDOWN.rate == 0.0
  {
    hide DeepestOf, LastWith, FirstAtLeast;
  }

  lemma FallingSummary(curve: seq<CurvePoint>, t: nat) returns (p: nat, r: Option<nat>)
    requires IsCurve(curve) && curve != [] && t == DeepestOf(curve) && curve[t].amount > 0.0
    ensures IsDrawdown(curve, p, t, r) && curve[p].equity > 0.0 && Summarize(curve).rate == curve[t].rate
    ensures Summarize(curve) == Stats(curve[p].equity - curve[t].equity, Fall(curve[p], curve[t]), Some(curve[p].time),
      Some(curve[t].time), TimeAt(curve, r))
  {
    assert GoodPoint(curve[t]);
    p, r := ReportedIsDrawdown(curve, t);
    hide *;
    SameRatio(curve[p], curve[t]);
    SummaryIs(curve, t, p, r);
  }

  lemma SummaryIs(curve: seq<CurvePoint>, t: nat, p: nat, r: Option<nat>)
    requires curve != [] && t == DeepestOf(curve) && curve[t].amount > 0.0 && p < |curve|
    requires LastWith(curve, t + 1, curve[t].peak) == Some(p) && FirstAtLeast(curve, t + 1, curve[t].peak) == r
    ensures r.Some? ==> r.value < |curve|
    ensures Summarize(curve)
      == Stats(curve[t].amount, curve[t].rate, Some(curve[p].time), Some(curve[t].time), TimeAt(curve, r))
  {
    hide DeepestOf, LastWith, FirstAtLeast;
  }

  ghost predicate FallsLessBefore(curve: seq<CurvePoint>, t: nat, rate: real)
    requires IsCurve(curve) && t <= |curve|
  {
    forall i, j :: 0 <= i <= j < t ==> Fall(curve[i], curve[j]) < rate
  }

  ghost predicate NeverFalls(curve: seq<CurvePoint>) {
    forall i, j :: 0 <= i <= j < |curve| ==> curve[i].equity <= curve[j].equity
  }

  lemma SameRatio(p: CurvePoint, t: CurvePoint)
    requires GoodPoint(t) && p.equity == t.peak > 0.0
    ensures Fall(p, t) == t.rate && t.amount == p.equity - t.equity
  {
    hide Ratio;
  }

  lemma FallsAreBelow(curve: seq<CurvePoint>, t: nat)
    requires IsCurve(curve) && t < |curve|
    requires forall i :: 0 <= i < |curve| ==> curve[i].rate <= curve[t].rate
    requires forall i :: 0 <= i < t ==> curve[i].rate < curve[t].rate
    ensures NoneGreater(curve, curve[t].rate) && FallsLessBefore(curve, t, curve[t].rate)
  {
    hide Fall, IsPeak;
    forall i, j | 0 <= i <= j < |curve|
      ensures curve[i].equity > 0.0 && Fall(curve[i], curve[j]) <= curve[j].rate
    {
      FallBelowRate(curve, i, j);
    }
  }

  lemma NoRateNoFall(curve: seq<CurvePoint>)
    requires IsCurve(curve) && NoneGreater(curve, 0.0)
    ensures NeverFalls(curve)
  {
    hide Ratio, IsPeak;
    forall i, j | 0 <= i <= j < |curve|
      ensures curve[i].equity <= curve[j].equity
    {
      assert GoodPoint(curve[i]) && Fall(curve[i], curve[j]) <= 0.0;
      RatioSign(curve[i].equity - curve[j].equity, curve[i].equity);
    }
  }

  ghost predicate StrictlyAscends(curve: seq<CurvePoint>) {
    forall i, j :: 0 <= i < j < |curve| ==> curve[i].time < curve[j].time
  }

  /**
   Rows are rejected exactly for an equity that is not a positive number or for a repeated time.
   Otherwise the curve holds the same points in strictly ascending time, with their running maxima.
   */
  lemma BuiltExactly(rows: seq<Row>)
    ensures BuildCurve(rows) == Rejected(BadEquity) <==> !AllUsable(rows)
    ensures BuildCurve(rows) == Rejected(RepeatedTime) <==> AllUsable(rows) && TimesRepeat(PointsOf(rows))
    ensures BuildCurve(rows).Built? ==>
      var sorted := SortByTime(PointsOf(rows));
      && AllPositive(sorted) && multiset(sorted) == multiset(PointsOf(rows))
      && BuildCurve(rows).curve == WithPeaks(sorted)
      && IsCurve(BuildCurve(rows).curve) && StrictlyAscends(BuildCurve(rows).curve)
  {
    if AllUsable(rows) {
      var points := PointsOf(rows);
      SortKeeps(points);
      RepeatsSurvive(points, SortByTime(points));
      RepeatsSurvive(SortByTime(points), points);
      WithPeaksIsCurve(SortByTime(points));
      if !TimesRepeat(SortByTime(points)) {
        SortedStrictly(SortByTime(points));
      }
    }
    hide SortByTime, TimesRepeat, WithPeaks, IsCurve;
  }

  lemma SortedStrictly(points: seq<Point>)
    requires AllPositive(points) && Sorted(points) && !TimesRepeat(points)
    ensures StrictlyAscends(WithPeaks(points))
  {
    hide WithPeaks;
    forall i, j | 0 <= i < j < |points|
      ensures WithPeaks(points)[i].time < WithPeaks(points)[j].time
    {
      assert points[i].time != points[j].time;
    }
  }

  lemma RepeatsSurvive(a: seq<Point>, b: seq<Point>)
    requires multiset(a) == multiset(b)
    ensures TimesRepeat(a) ==> TimesRepeat(b)
  {
    if TimesRepeat(a) {
      var i, j :| 0 <= i < j < |a| && a[i].time == a[j].time;
      if a[i] == a[j] {
        TwiceInMultiset(a, i, j);
        TwiceInSeq(b, a[i]);
      } else {
        assert a[i] in multiset(a) && a[j] in multiset(a);
        assert a[i] in b && a[j] in b;
        var k :| 0 <= k < |b| && b[k] == a[i];
        var l :| 0 <= l < |b| && b[l] == a[j];
        assert b[k].time == b[l].time;
        assert k < l || l < k;
      }
    }
  }

  lemma TwiceInMultiset(a: seq<Point>, i: nat, j: nat)
    requires i < j < |a| && a[i] == a[j]
    ensures multiset(a)[a[i]] >= 2
  {
    assert a == a[..j] + [a[j]] + a[j + 1..];
    assert a[i] in a[..j];
  }

  lemma {:induction false} TwiceInSeq(b: seq<Point>, p: Point)
    requires multiset(b)[p] >= 2
    ensures TimesRepeat(b)
  {
    var n := |b| - 1;
    assert b == b[..n] + [b[n]];
    if b[n] == p {
      assert multiset(b[..n])[p] >= 1;
      assert p in b[..n];
      var k :| 0 <= k < n && b[..n][k] == p;
      assert b[k].time == b[n].time;
    } else {
      TwiceInSeq(b[..n], p);
      var i, j :| 0 <= i < j < |b[..n]| && b[..n][i].time == b[..n][j].time;
      assert b[i].time == b[j].time;
    }
  }

  /** The amount reported is the one at the greatest relative fall; a later, larger fall in money can exceed it. */
  lemma AmountIsNotTheLargest()
    ensures var points := [Point(0, 100.0), Point(1, 50.0), Point(2, 1000.0), Point(3, 600.0)];
      AllPositive(points) && Summarize(WithPeaks(points)).amount == 50.0 && points[2].equity - points[3].equity == 400.0
  {
    var points := [Point(0, 100.0), Point(1, 50.0), Point(2, 1000.0), Point(3, 600.0)];
    assert points[..3] == [points[0], points[1], points[2]] && points[..3][..2] == [points[0], points[1]];
    assert points[..3][..2][..1] == [points[0]] && [points[0]][..0] == [];
    WithPeaksIsCurve(points);
    hide WithPeaks;
    DeepestIsSecond(WithPeaks(points));
  }

  lemma DeepestIsSecond(curve: seq<CurvePoint>)
    requires IsCurve(curve) && |curve| == 4
    requires curve[0].equity == 100.0 && curve[1].equity == 50.0 && curve[2].equity == 1000.0
      && curve[3].equity == 600.0
    ensures Summarize(curve).amount == 50.0
  {
    PeaksOfFour(curve);
    AtPoint(curve, 0, 0);
    AtPoint(curve, 1, 1);
    AtPoint(curve, 2, 2);
    AtPoint(curve, 3, 3);
    hide IsPeak, IsCurve, DeepestOf, LastWith, FirstAtLeast;
    assert curve[0].rate == 0.0 && curve[1].rate == 0.5 && curve[2].rate == 0.0 && curve[3].rate == 0.4;
    var t := DeepestOf(curve);
    assert curve[1].rate <= curve[t].rate;
  }

  lemma PeaksOfFour(curve: seq<CurvePoint>)
    requires IsCurve(curve) && |curve| == 4
    requires curve[0].equity == 100.0 && curve[1].equity == 50.0 && curve[2].equity == 1000.0
      && curve[3].equity == 600.0
    ensures curve[0].peak == 100.0 && curve[1].peak == 100.0 && curve[2].peak == 1000.0 && curve[3].peak == 1000.0
  {
    hide GoodPoint;
    assert IsPeak(curve, 0) && IsPeak(curve, 1) && IsPeak(curve, 2) && IsPeak(curve, 3);
  }

  /** No fall in money, between any two points, is greater. */
  ghost predicate NoLossGreater(curve: seq<CurvePoint>, amount: real) {
    forall i, j :: 0 <= i <= j < |curve| ==> curve[i].equity - curve[j].equity <= amount
  }

  /** Where the running peak is above that of point `t`, the curve is never further below it than at `t`. */
  predicate HigherPeaksLoseNoMore(curve: seq<CurvePoint>, t: nat)
    requires t < |curve|
  {
    forall j :: 0 <= j < |curve| && curve[j].peak > curve[t].peak ==> curve[j].amount <= curve[t].amount
  }

  /**
   The amount reported is the greatest fall in money exactly when no point with a higher running
   peak than the deepest point lies further below it.
   */
  lemma AmountIsLargestExactly(curve: seq<CurvePoint>)
    requires IsCurve(curve)
    ensures NoLossGreater(curve, Summarize(curve).amount)
      <==> curve == [] || HigherPeaksLoseNoMore(curve, DeepestOf(curve))
  {
    if curve != [] {
      var t := DeepestOf(curve);
      SummaryAmount(curve);
      hide Summarize, DeepestOf, IsCurve;
      if HigherPeaksLoseNoMore(curve, t) {
        forall i, j | 0 <= i <= j < |curve|
          ensures curve[i].equity - curve[j].equity <= curve[t].amount
        {
          LossBelowAmount(curve, i, j);
        }
      }
      if NoLossGreater(curve, curve[t].amount) {
        forall j | 0 <= j < |curve|
          ensures curve[j].amount <= curve[t].amount
        {
          AmountIsLoss(curve, j, curve[t].amount);
        }
      }
    }
  }

  /** With no higher peak losing more, no fall exceeds the amount at the deepest point. */
  lemma LossBelowAmount(curve: seq<CurvePoint>, i: nat, j: nat)
    requires IsCurve(curve) && i <= j < |curve| && HigherPeaksLoseNoMore(curve, DeepestOf(curve))
    ensures curve[i].equity - curve[j].equity <= curve[DeepestOf(curve)].amount
  {
    var t := DeepestOf(curve);
    AtPoint(curve, i, j);
    AtPoint(curve, t, t);
    FallBelowRate(curve, i, j);
    hide DeepestOf, IsCurve, IsPeak, Fall, Ratio;
    if curve[j].peak <= curve[t].peak {
      LossAtMost(curve[i], curve[j], curve[t]);
    }
  }

  /** The amount at a point is the fall to it from some earlier one. */
  lemma AmountIsLoss(curve: seq<CurvePoint>, j: nat, amount: real)
    requires IsCurve(curve) && j < |curve| && NoLossGreater(curve, amount)
    ensures curve[j].amount <= amount
  {
    AtPoint(curve, j, j);
    hide IsCurve, Ratio;
    var i :| 0 <= i <= j && curve[i].equity == curve[j].peak;
  }

  /** In particular it is when the curve never rises above the height it fell from. */
  lemma AmountIsLargestBelowPeak(curve: seq<CurvePoint>, i: nat, j: nat)
    requires IsCurve(curve) && i <= j < |curve|
    requires forall k :: 0 <= k < |curve| ==> curve[k].equity <= curve[DeepestOf(curve)].peak
    ensures curve[i].equity - curve[j].equity <= Summarize(curve).amount
  {
    var t := DeepestOf(curve);
    forall k | 0 <= k < |curve|
      ensures curve[k].peak <= curve[t].peak
    {
      PeakIsReached(curve, k, curve[t].peak);
    }
    AmountIsLargestExactly(curve);
    hide Summarize, DeepestOf, IsCurve;
  }

  lemma PeakIsReached(curve: seq<CurvePoint>, k: nat, height: real)
    requires IsCurve(curve) && k < |curve|
    requires forall i :: 0 <= i < |curve| ==> curve[i].equity <= height
    ensures curve[k].peak <= height
  {
    AtPoint(curve, k, k);
    hide IsCurve, Ratio;
    var i :| 0 <= i <= k && curve[i].equity == curve[k].peak;
  }

  lemma LossAtMost(from: CurvePoint, to: CurvePoint, deepest: CurvePoint)
    requires GoodPoint(from) && GoodPoint(to) && GoodPoint(deepest)
    requires Fall(from, to) <= to.rate <= deepest.rate && from.equity <= deepest.peak
    ensures from.equity - to.equity <= deepest.amount
  {
    RateSign(deepest);
    RatioSign(from.equity - to.equity, from.equity);
    RatioSign(deepest.amount, deepest.peak);
    AmountsOrder(Fall(from, to), deepest.rate, from.equity, deepest.peak);
    hide Ratio;
  }

  lemma SummaryAmount(curve: seq<CurvePoint>)
    requires IsCurve(curve) && curve != []
    ensures Summarize(curve).amount == curve[DeepestOf(curve)].amount
  {
    var t := DeepestOf(curve);
    AtPoint(curve, t, t);
    hide DeepestOf, LastWith, FirstAtLeast, IsPeak, IsCurve, Ratio;
  }

  lemma AmountsOrder(x: real, y: real, a: real, b: real)
    requires x <= y && 0.0 <= y && 0.0 < a <= b
    ensures x * a <= y * b
  {
    assert x * a <= y * a;
    assert y * a <= y * b;
  }
}
