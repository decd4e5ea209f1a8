/** Robust statistics for baselines (backend/app/anomaly/statistics.py, and the cell summary of
    backend/app/anomaly/seasonal.py), in exact arithmetic. */
module Statistics {
  import opened Reals
  import opened Rounding
  import opened Sorting
  import opened Wrappers

  datatype StatError = EmptySequence | BadQuantile

  const MAD_TO_STD := 1.4826
  const EPSILON := 0.000000001

  function Rising(): (real, real) -> bool { (x: real, y: real) => x <= y }

  function Ordered(values: seq<real>): seq<real> { Sort(values, Rising()) }

  function Middle(ordered: seq<real>): real
    requires |ordered| > 0
  {
    var n := |ordered|;
    if n % 2 == 1 then ordered[n / 2] else (ordered[n / 2 - 1] + ordered[n / 2]) / 2.0
  }

  lemma OrderedHolds(values: seq<real>)
    ensures var s := Ordered(values);
            && |s| == |values| && multiset(s) == multiset(values)
            && (forall i, j :: 0 <= i <= j < |s| ==> s[i] <= s[j])
            && (forall x :: x in s <==> x in values)
  {
    SortSorts(values, Rising());
    SortPermutes(values, Rising());
    var s := Ordered(values);
    hide Sort;
    assert forall i, j :: 0 <= i < j < |s| ==> Rising()(s[i], s[j]);
    forall x ensures x in s <==> x in values {
      assert x in s <==> x in multiset(s);
      assert x in values <==> x in multiset(values);
    }
  }

  function Median(values: seq<real>): Result<real, StatError> {
    if |values| == 0 then Err(EmptySequence)
    else OrderedHolds(values); Ok(Middle(Ordered(values)))
  }

  function Deviations(values: seq<real>, center: real): seq<real> {
    seq(|values|, (i: nat) requires i < |values| => Abs(values[i] - center))
  }

  /** Median absolute deviation about `center`, by default about the median. */
  function Mad(values: seq<real>, center: Option<real>): Result<real, StatError> {
    if |values| == 0 then Err(EmptySequence)
    else Median(Deviations(values, if center.Some? then center.value else Median(values).value))
  }

  /** The point at a fractional rank, between the ordered values on either side of it. */
  function AtRank(ordered: seq<real>, rank: real): real
    requires |ordered| > 0 && 0.0 <= rank <= (|ordered| - 1) as real
  {
    var lo := rank.Floor;
    var hi := if lo + 1 <= |ordered| - 1 then lo + 1 else |ordered| - 1;
    Along(ordered[lo], ordered[hi], rank - lo as real)
  }

  /** The point that far along the way from one value to the other. */
  function Along(low: real, high: real, share: real): real { low + (high - low) * share }

  function RankOf(q: real, n: nat): real
    requires n >= 1
  {
    (q / 100.0) * ((n - 1) as real)
  }

  lemma RankIsInside(q: real, n: nat)
    requires 0.0 <= q <= 100.0 && n >= 1
    ensures 0.0 <= RankOf(q, n) <= (n - 1) as real
  {
    var share, width := q / 100.0, (n - 1) as real;
    assert 0.0 <= share <= 1.0;
    assert RankOf(q, n) == share * width;
    Scaled(share, width);
  }

  lemma Scaled(share: real, width: real)
    requires 0.0 <= share <= 1.0 && width >= 0.0
    ensures 0.0 <= share * width <= width
  {
    Rectangle(share, width);
    Rectangle(1.0 - share, width);
    assert (1.0 - share) * width == width - share * width;
  }

  function Percentile(values: seq<real>, q: real): Result<real, StatError> {
    if |values| == 0 then Err(EmptySequence)
    else if !(0.0 <= q <= 100.0) then Err(BadQuantile)
    else
      OrderedHolds(values);
      RankIsInside(q, |values|);
      var ordered := Ordered(values);
      Ok(if |ordered| == 1 then ordered[0] else AtRank(ordered, RankOf(q, |ordered|)))
  }

  // -------------------------------------------------------------- percentiles

  ghost predicate Nondecreasing(s: seq<real>) { forall i, j :: 0 <= i <= j < |s| ==> s[i] <= s[j] }

  lemma Between(low: real, high: real, share: real)
    requires low <= high && 0.0 <= share <= 1.0
    ensures low <= Along(low, high, share) <= high
  {
    var width := high - low;
    var part := width * share;
    Rectangle(width, share);
    Rectangle(width, 1.0 - share);
    assert width * (1.0 - share) == width - part;
  }

  lemma Further(low: real, high: real, share: real, more: real)
    requires low <= high && share <= more
    ensures Along(low, high, share) <= Along(low, high, more)
  {
    var width, step := high - low, more - share;
    Rectangle(width, step);
    assert width * step == width * more - width * share;
  }

  lemma AtRankIsBetween(s: seq<real>, rank: real)
    requires Nondecreasing(s) && |s| > 0 && 0.0 <= rank <= (|s| - 1) as real
    ensures s[rank.Floor] <= AtRank(s, rank)
    ensures AtRank(s, rank) <= s[if rank.Floor + 1 <= |s| - 1 then rank.Floor + 1 else |s| - 1]
  {
    hide Along;
    var lo := rank.Floor;
    var hi := if lo + 1 <= |s| - 1 then lo + 1 else |s| - 1;
    Between(s[lo], s[hi], rank - lo as real);
  }

  lemma AtRankIsMonotone(s: seq<real>, r1: real, r2: real)
    requires Nondecreasing(s) && |s| > 0 && 0.0 <= r1 <= r2 <= (|s| - 1) as real
    ensures AtRank(s, r1) <= AtRank(s, r2)
  {
    hide Along;
    if r1.Floor == r2.Floor {
      var lo := r1.Floor;
      var hi := if lo + 1 <= |s| - 1 then lo + 1 else |s| - 1;
      Further(s[lo], s[hi], r1 - lo as real, r2 - lo as real);
    } else {
      AtRankIsBetween(s, r1);
      AtRankIsBetween(s, r2);
      assert r1.Floor + 1 <= r2.Floor;
      hide AtRank;
    }
  }

  lemma RankIsMonotone(q1: real, q2: real, n: nat)
    requires q1 <= q2 && n >= 1
    ensures RankOf(q1, n) <= RankOf(q2, n)
  {
    var (width, p1, p2) := ((n - 1) as real, q1 / 100.0, q2 / 100.0);
    assert p1 <= p2;
    assert RankOf(q1, n) == p1 * width && RankOf(q2, n) == p2 * width;
    Rectangle(width, p2 - p1);
    assert width * (p2 - p1) == p2 * width - p1 * width;
  }

  /** A higher quantile is never lower, and every quantile lies between two of the values. */
  lemma PercentileIsMonotone(values: seq<real>, q1: real, q2: real)
    requires |values| > 0 && 0.0 <= q1 <= q2 <= 100.0
    ensures Percentile(values, q1).Ok? && Percentile(values, q2).Ok?
    ensures Percentile(values, q1).value <= Percentile(values, q2).value
  {
    var s := Ordered(values);
    OrderedHolds(values);
    RankIsInside(q1, |s|);
    RankIsInside(q2, |s|);
    RankIsMonotone(q1, q2, |s|);
    hide Ordered, AtRank, RankOf;
    if |s| > 1 {
      AtRankIsMonotone(s, RankOf(q1, |s|), RankOf(q2, |s|));
    }
  }

  lemma PercentileIsWithin(values: seq<real>, q: real)
    requires |values| > 0 && 0.0 <= q <= 100.0
    ensures Percentile(values, q).Ok?
    ensures exists x, y :: x in values && y in values && x <= Percentile(values, q).value <= y
  {
    var s := Ordered(values);
    OrderedHolds(values);
    RankIsInside(q, |s|);
    hide Ordered, AtRank, RankOf;
    assert s[0] in values && s[|s| - 1] in values;
    if |s| > 1 {
      AtRankIsBetween(s, RankOf(q, |s|));
    }
  }

  /** Percentile 0 and 100 are the extremes. */
  lemma PercentileExtremes(values: seq<real>, x: real)
    requires x in values
    ensures Percentile(values, 0.0).value <= x <= Percentile(values, 100.0).value
  {
    var s := Ordered(values);
    OrderedHolds(values);
    ExtremeRanks(s);
    hide Ordered, AtRank, RankOf;
    var i :| 0 <= i < |s| && s[i] == x;
  }

  lemma ExtremeRanks(s: seq<real>)
    requires |s| > 0
    ensures var n := |s|;
            && RankOf(0.0, n) == 0.0 && RankOf(100.0, n) == (n - 1) as real
            && AtRank(s, 0.0) == s[0] && AtRank(s, (n - 1) as real) == s[n - 1]
  {
    var top := (|s| - 1) as real;
    assert (0.0 / 100.0) * top == 0.0 && (100.0 / 100.0) * top == top;
    assert top.Floor == |s| - 1 && (0.0).Floor == 0;
  }

  lemma HalfRank(n: nat)
    requires n >= 1
    ensures var rank := RankOf(50.0, n);
            && rank.Floor == (n - 1) / 2
            && rank - rank.Floor as real == if n % 2 == 1 then 0.0 else 0.5
  {
    var rank := RankOf(50.0, n);
    assert rank == (n - 1) as real / 2.0;
    var half := (n - 1) / 2;
    if n % 2 == 1 {
      assert n - 1 == 2 * half;
      assert rank == half as real;
    } else {
      assert n - 1 == 2 * half + 1;
      assert rank == half as real + 0.5;
    }
  }

  /** The median is the 50th percentile. */
  lemma MedianIsPercentile50(values: seq<real>)
    ensures Percentile(values, 50.0) == Median(values)
  {
    if |values| > 0 {
      var s := Ordered(values);
      OrderedHolds(values);
      RankIsInside(50.0, |s|);
      HalfRank(|s|);
      hide Ordered, RankOf;
      var n := |s|;
      if n > 1 {
        var rank := RankOf(50.0, n);
        if n % 2 == 1 {
          assert AtRank(s, rank) == s[n / 2];
        } else {
          assert (n - 1) / 2 == n / 2 - 1;
          assert AtRank(s, rank) == s[n / 2 - 1] + (s[n / 2] - s[n / 2 - 1]) * 0.5;
        }
      }
    }
  }

  lemma SameOrdered(a: seq<real>, b: seq<real>)
    requires multiset(a) == multiset(b)
    ensures Ordered(a) == Ordered(b) && |a| == |b|
  {
    SortForgetsOrder(a, b, Rising());
    assert |a| == |multiset(a)| == |multiset(b)| == |b|;
  }

  /** Neither statistic depends on the order of the samples. */
  lemma OrderDoesNotMatter(a: seq<real>, b: seq<real>, q: real)
    requires multiset(a) == multiset(b)
    ensures Median(a) == Median(b) && Percentile(a, q) == Percentile(b, q)
  {
    SameOrdered(a, b);
    OrderedHolds(a);
    hide Ordered, AtRank, RankOf, Middle;
  }

  // --------------------------------------------------------- order statistics

  function AtMost(t: real): real -> bool { (x: real) => x <= t }

  function AtLeast(t: real): real -> bool { (x: real) => x >= t }

  lemma {:induction false} CountSome<T>(s: seq<T>, p: T -> bool)
    ensures Count(s, p) <= |s|
    ensures (forall i :: 0 <= i < |s| ==> p(s[i])) ==> Count(s, p) == |s|
    ensures (forall i :: 0 <= i < |s| ==> !p(s[i])) ==> Count(s, p) == 0
  {
    if |s| > 0 {
      CountSome(s[1..], p);
    }
  }

  lemma OrderedAtMost(s: seq<real>, k: nat, t: real)
    requires Nondecreasing(s) && k < |s|
    ensures s[k] <= t <==> Count(s, AtMost(t)) > k
  {
    hide Count;
    var n := if s[k] <= t then k + 1 else k;
    var head, tail := s[..n], s[n..];
    assert s == head + tail;
    CountConcat(head, tail, AtMost(t));
    assert s[k] <= t ==> forall i :: 0 <= i < |head| ==> AtMost(t)(head[i]);
    assert s[k] > t ==> forall i :: 0 <= i < |tail| ==> !AtMost(t)(tail[i]);
    hide Nondecreasing;
    CountSome(head, AtMost(t));
    CountSome(tail, AtMost(t));
  }

  lemma OrderedAtLeast(s: seq<real>, k: nat, t: real)
    requires Nondecreasing(s) && k < |s|
    ensures s[k] >= t <==> Count(s, AtLeast(t)) >= |s| - k
  {
    hide Count;
    if s[k] >= t {
      assert s == s[..k] + s[k..];
      CountConcat(s[..k], s[k..], AtLeast(t));
      CountSome(s[k..], AtLeast(t));
    } else {
      assert s == s[..k + 1] + s[k + 1..];
      CountConcat(s[..k + 1], s[k + 1..], AtLeast(t));
      CountSome(s[..k + 1], AtLeast(t));
      CountSome(s[k + 1..], AtLeast(t));
    }
  }

  /** The median lies between the two middle values of the order. */
  lemma MedianIsMiddle(values: seq<real>)
    requires |values| > 0
    ensures var (s, m, n) := (Ordered(values), Median(values).value, |values|);
            && |s| == n && Nondecreasing(s) && s[(n - 1) / 2] <= m <= s[n / 2]
            && (m - s[(n - 1) / 2] == s[n / 2] - m)
  {
    OrderedHolds(values);
    hide Ordered;
  }

  /** With more than half of the samples at or above `low`, so is the median; likewise from above. */
  lemma MajorityBoundsMedian(values: seq<real>, low: real, high: real)
    requires |values| > 0
    ensures 2 * Count(values, AtLeast(low)) > |values| ==> low <= Median(values).value
    ensures 2 * Count(values, AtMost(high)) > |values| ==> Median(values).value <= high
  {
    MedianIsMiddle(values);
    OrderedHolds(values);
    var s, n := Ordered(values), |values|;
    CountPermutes(s, values, AtLeast(low));
    CountPermutes(s, values, AtMost(high));
    OrderedAtLeast(s, (n - 1) / 2, low);
    OrderedAtMost(s, n / 2, high);
    hide Ordered, Median;
  }

  /** How many samples differ between two equally long sequences. */
  ghost function Changed(a: seq<real>, b: seq<real>): nat
    requires |a| == |b|
  {
    if |a| == 0 then 0 else (if a[0] != b[0] then 1 else 0) + Changed(a[1..], b[1..])
  }

  ghost predicate UnchangedWithin(a: seq<real>, b: seq<real>, low: real, high: real)
    requires |a| == |b|
  {
    forall i :: 0 <= i < |a| && a[i] == b[i] ==> low <= a[i] <= high
  }

  lemma {:induction false} UnchangedCount(a: seq<real>, b: seq<real>, low: real, high: real)
    requires |a| == |b| && UnchangedWithin(a, b, low, high)
    ensures Count(b, AtLeast(low)) >= |b| - Changed(a, b) && Count(b, AtMost(high)) >= |b| - Changed(a, b)
  {
    if |a| > 0 {
      assert UnchangedWithin(a[1..], b[1..], low, high) by {
        forall i | 0 <= i < |a[1..]| && a[1..][i] == b[1..][i] ensures low <= a[1..][i] <= high {
          var j := i + 1;
          assert a[j] == b[j];
        }
      }
      UnchangedCount(a[1..], b[1..], low, high);
    }
  }

  /** Breakdown point: however far fewer than half of the samples move, the median stays within the
      range of those that did not. */
  lemma MedianResists(a: seq<real>, b: seq<real>, low: real, high: real)
    requires |a| == |b| > 0 && 2 * Changed(a, b) < |a| && UnchangedWithin(a, b, low, high)
    ensures low <= Median(b).value <= high
  {
    UnchangedCount(a, b, low, high);
    MajorityBoundsMedian(b, low, high);
    hide Median;
  }

  /** Half of the samples changed is enough to carry the median away: the bound is exact. */
  lemma HalfChangedIsTooMany(far: real)
    requires far > 1.0
    ensures var (a, b) := ([1.0, 1.0], [1.0, far]);
            && 2 * Changed(a, b) == |a| && UnchangedWithin(a, b, 1.0, 1.0) && Median(b).value > 1.0
  {
    var a, b := [1.0, 1.0], [1.0, far];
    assert Changed(a[1..], b[1..]) == 1 + Changed([], []) by {
      assert a[1..] == [1.0] && b[1..] == [far];
    }
    MajorityOfTwo(far);
  }

  lemma MajorityOfTwo(far: real)
    requires far > 1.0
    ensures Median([1.0, far]).value == (1.0 + far) / 2.0
  {
    var b := [1.0, far];
    assert b[1..] == [far] && Sort([far], Rising()) == [far];
    assert Ordered(b) == [1.0, far];
  }

  // ---------------------------------------------------------------------- MAD

  function Equals(c: real): real -> bool { (x: real) => x == c }

  lemma {:induction false} ZeroDeviations(values: seq<real>, center: real)
    ensures Count(Deviations(values, center), AtMost(0.0)) == Count(values, Equals(center))
  {
    var devs := Deviations(values, center);
    if |values| > 0 {
      assert devs[1..] == Deviations(values[1..], center);
      ZeroDeviations(values[1..], center);
    }
  }

  /** A median of nonnegative samples is zero exactly when most of them are. */
  lemma ZeroMedianIff(devs: seq<real>)
    requires |devs| > 0 && forall x :: x in devs ==> x >= 0.0
    ensures Median(devs).value >= 0.0
    ensures Median(devs).value == 0.0 <==> 2 * Count(devs, AtMost(0.0)) > |devs|
  {
    var n := |devs|;
    var s := Ordered(devs);
    MedianIsMiddle(devs);
    OrderedHolds(devs);
    assert s[(n - 1) / 2] in s;
    CountPermutes(s, devs, AtMost(0.0));
    OrderedAtMost(s, n / 2, 0.0);
    hide Ordered, Median, Count, Nondecreasing;
  }

  /** The MAD is never negative, and it is zero exactly when more than half of the samples equal the
      centre it is taken about. */
  lemma MadIsZeroIff(values: seq<real>, center: real)
    requires |values| > 0
    ensures var m := Mad(values, Some(center));
            m.Ok? && m.value >= 0.0 && (m.value == 0.0 <==> 2 * Count(values, Equals(center)) > |values|)
  {
    var devs := Deviations(values, center);
    ZeroMedianIff(devs);
    ZeroDeviations(values, center);
    hide Count;
  }

  // -------------------------------------------------------------------- scores

  /** The deviation denominator, floored so that a MAD of zero does not make every change infinite. */
  function EffectiveScale(med: real, mad: real, floorRatio: real): (r: real)
    ensures r > 0.0 && r >= mad * MAD_TO_STD && r >= Abs(med) * floorRatio
  {
    MaxReal(mad * MAD_TO_STD, MaxReal(Abs(med) * floorRatio, EPSILON))
  }

  function RobustZ(value: real, med: real, mad: real, floorRatio: real): real {
    (value - med) / EffectiveScale(med, mad, floorRatio)
  }

  datatype ScoreStatus = Usable | Degenerate

  function RobustZWithStatus(value: real, med: real, mad: real, floorRatio: real): (real, ScoreStatus) {
    (RobustZ(value, med, mad, floorRatio), if mad <= 0.0 then Degenerate else Usable)
  }

  /** Observed over expected; none when nothing is expected. */
  function Ratio(observed: real, expected: real): Option<real> {
    if expected == 0.0 then None else Some(observed / expected)
  }

  lemma Quotients(a: real, b: real, scale: real)
    requires a <= b && scale > 0.0
    ensures a / scale <= b / scale
  {
    var (x, y) := (a / scale, b / scale);
    assert x * scale == a && y * scale == b;
    if x > y {
      Strictly(scale, y, x);
      assert false;
    }
  }

  lemma Strictly(scale: real, y: real, x: real)
    requires scale > 0.0 && y < x
    ensures y * scale < x * scale
  {
    var d := x - y;
    assert d * scale > 0.0;
  }

  /** The score rises with the value and has the sign of its deviation. */
  lemma RobustZIsMonotone(x: real, y: real, med: real, mad: real, floorRatio: real)
    requires x <= y
    ensures RobustZ(x, med, mad, floorRatio) <= RobustZ(y, med, mad, floorRatio)
    ensures x >= med ==> RobustZ(x, med, mad, floorRatio) >= 0.0
    ensures x <= med ==> RobustZ(x, med, mad, floorRatio) <= 0.0
  {
    var scale := EffectiveScale(med, mad, floorRatio);
    hide EffectiveScale;
    Quotients(x - med, y - med, scale);
    if x >= med { Quotients(0.0, x - med, scale); }
    if x <= med { Quotients(x - med, 0.0, scale); }
  }

  // ---------------------------------------------------------------------- cells

  const MAX_STORED := 200

  datatype CellSummary = CellSummary(
    median: real, mad: real, p05: real, p95: real, samples: nat, reliable: bool, stored: seq<real>)

  /** The samples stored with a cell: the last ones. */
  function Recent(values: seq<real>): seq<real> { if |values| <= MAX_STORED then values else values[|values| - MAX_STORED..] }

  function Rounded(values: seq<real>): seq<real> {
    seq(|values|, (i: nat) requires i < |values| => RoundTo4(values[i]))
  }

  function Summarize(values: seq<real>, minSamples: int): CellSummary
    requires |values| > 0
  {
    PercentileIsWithin(values, 5.0);
    PercentileIsWithin(values, 95.0);
    var med := Median(values).value;
    MadIsZeroIff(values, med);
    CellSummary(med, Mad(values, Some(med)).value, Percentile(values, 5.0).value, Percentile(values, 95.0).value,
                |values|, |values| >= minSamples,
                Rounded(Recent(values)))
  }

  /** A cell's band contains its median, and its deviation is zero only when most samples are alike. */
  lemma SummaryIsCoherent(values: seq<real>, minSamples: int)
    requires |values| > 0
    ensures var c := Summarize(values, minSamples);
            && c.p05 <= c.median <= c.p95
            && c.mad >= 0.0 && (c.mad == 0.0 <==> 2 * Count(values, Equals(c.median)) > |values|)
            && c.samples == |values| && (c.reliable <==> |values| >= minSamples)
            && |c.stored| == (if |values| <= MAX_STORED then |values| else MAX_STORED)
            && (forall i :: 0 <= i < |c.stored| ==> c.stored[i] == RoundTo4(values[|values| - |c.stored| + i]))
  {
    MedianIsPercentile50(values);
    PercentileIsMonotone(values, 5.0, 50.0);
    PercentileIsMonotone(values, 50.0, 95.0);
    MadIsZeroIff(values, Median(values).value);
    hide Percentile, Median, Mad, Count;
  }
}
