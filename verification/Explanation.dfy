/** What changed between two windows of one dimension (backend/app/anomaly/explanation.py, and the
    clamp of backend/app/collectors/explanation_collector.py), in exact arithmetic. `order` is the
    order in which the set of values happens to be iterated. */
module Explanation {
  import opened Reals
  import opened Rounding
  import opened Sorting
  import opened Wrappers

  datatype Value = Value(name: string, labelText: Option<string>, count: nat)

  /** What one query of a window said of a dimension; an empty error is none. */
  datatype Aggregate = Aggregate(dimension: string, available: bool, error: string, truncated: bool, distinctCount: nat,
                                 values: seq<Value>)

  datatype Availability = Unavailable | Failed | Truncated | Available

  datatype Delta = Delta(
    dimension: string, value: string, labelText: Option<string>, baselineCount: int, anomalyCount: int, absoluteDelta: int, percentDelta: Option<real>,
    anomalyShare: Option<real>, baselineShare: Option<real>, contributionShare: Option<real>,
    baselineRank: Option<nat>, anomalyRank: Option<nat>, rank: nat, isNew: bool, isDisappeared: bool)

  datatype Comparison = Comparison(
    dimension: string, availability: Availability, detail: Option<string>, baselineDistinct: Option<nat>,
    anomalyDistinct: Option<nat>, cardinalityRatio: Option<real>,
    newValues: nat, disappearedValues: nat, baselineTopShare: Option<real>, anomalyTopShare: Option<real>,
    truncated: bool, contributors: seq<Delta>)

  type Counts = map<string, real>

  function CountsOf(values: seq<Value>, scale: real): Counts {
    if |values| == 0 then map[]
    else CountsOf(values[..|values| - 1], scale)[values[|values| - 1].name := values[|values| - 1].count as real * scale]
  }

  /** The last label given to each value, an empty one being none. */
  function LabelsOf(values: seq<Value>): map<string, string> {
    if |values| == 0 then map[]
    else
      var before, last := LabelsOf(values[..|values| - 1]), values[|values| - 1];
      if last.labelText.Some? && last.labelText.value != "" then before[last.name := last.labelText.value] else before
  }

  function RanksOf(values: seq<Value>): map<string, nat> {
    if |values| == 0 then map[] else RanksOf(values[..|values| - 1])[values[|values| - 1].name := |values|]
  }

  function Get(counts: Counts, v: string): real { if v in counts then counts[v] else 0.0 }

  function Lookup<T>(table: map<string, T>, v: string): Option<T> { if v in table then Some(table[v]) else None }

  function Share(count: real, total: real): Option<real> { if total <= 0.0 then None else Some(count / total) }

  function AbsInt(x: int): int { if x < 0 then -x else x }

  // ------------------------------------------------------------------- totals

  function SumOver(order: seq<string>, f: string -> real): real {
    if |order| == 0 then 0.0 else f(order[0]) + SumOver(order[1..], f)
  }

  /** What a dictionary's values add up to. */
  function Total(order: seq<string>, counts: Counts): real { SumOver(order, (v: string) => Get(counts, v)) }

  function MovedOf(base: Counts, anom: Counts): string -> real { (v: string) => Get(anom, v) - Get(base, v) }

  function AbsMovedOf(base: Counts, anom: Counts): string -> real { (v: string) => Abs(Get(anom, v) - Get(base, v)) }

  function Movement(order: seq<string>, base: Counts, anom: Counts): real { SumOver(order, AbsMovedOf(base, anom)) }

  function Largest(order: seq<string>, counts: Counts): real {
    if |order| == 0 then 0.0
    else if order[0] in counts then MaxReal(Get(counts, order[0]), Largest(order[1..], counts)) else Largest(order[1..], counts)
  }

  function CountIn(order: seq<string>, p: string -> bool): nat { Count(order, p) }

  /** `order` lists the values of both windows, each once. */
  ghost predicate Lists(order: seq<string>, base: Counts, anom: Counts) {
    NoRepeats(order) && forall v :: v in order <==> v in base || v in anom
  }

  // ------------------------------------------------------------------- deltas

  datatype Windows = Windows(dimension: string, labels: map<string, string>, base: Counts, anom: Counts, baseRank: map<string, nat>, anomRank: map<string, nat>,
                             baseTotal: real, anomTotal: real, movement: real)

  function WindowsOf(baseline: Aggregate, anomaly: Aggregate, scale: real, order: seq<string>): Windows {
    var base, anom := CountsOf(baseline.values, scale), CountsOf(anomaly.values, 1.0);
    Windows(anomaly.dimension, LabelsOf(baseline.values + anomaly.values), base, anom, RanksOf(baseline.values), RanksOf(anomaly.values),
            Total(order, base), Total(order, anom), Movement(order, base, anom))
  }

  function DeltaOf(w: Windows, v: string): Delta {
    var base, anom := Get(w.base, v), Get(w.anom, v);
    Delta(w.dimension, v, Lookup(w.labels, v), Round(base), Round(anom), Round(anom - base), if base > 0.0 then Some((anom - base) / base) else None,
          Share(anom, w.anomTotal), Share(base, w.baseTotal), Share(anom - base, w.movement),
          Lookup(w.baseRank, v), Lookup(w.anomRank, v), 0, v !in w.base, v !in w.anom)
  }

  function Deltas(w: Windows, order: seq<string>): seq<Delta> {
    seq(|order|, (i: nat) requires i < |order| => DeltaOf(w, order[i]))
  }

  /** The largest movement first, ties by value. */
  function LargestMove(): (Delta, Delta) -> bool {
    (x: Delta, y: Delta) =>
      AbsInt(x.absoluteDelta) > AbsInt(y.absoluteDelta)
      || (AbsInt(x.absoluteDelta) == AbsInt(y.absoluteDelta) && TextLe(x.value, y.value))
  }

  function Ranked(sorted: seq<Delta>, topN: nat): seq<Delta> {
    seq(if |sorted| <= topN then |sorted| else topN, (i: nat) requires i < |sorted| => sorted[i].(rank := i + 1))
  }

  /** A dimension that cannot be compared, and why. */
  function Blocked(dimension: string, a: Availability, detail: string): Comparison {
    Comparison(dimension, a, Some(detail), None, None, None, 0, 0, None, None, false, [])
  }

  const NotPopulated := "field is not populated for this log source"

  /** The comparison of one dimension. */
  function Compared(baseline: Aggregate, anomaly: Aggregate, scale: real, topN: nat, order: seq<string>): Comparison {
    if anomaly.error != "" && !anomaly.available then Blocked(anomaly.dimension, Unavailable, anomaly.error)
    else if anomaly.error != "" then Blocked(anomaly.dimension, Failed, anomaly.error)
    else if !anomaly.available then Blocked(anomaly.dimension, Unavailable, NotPopulated)
    else
      var w := WindowsOf(baseline, anomaly, scale, order);
      Comparison(
        anomaly.dimension, if anomaly.truncated || baseline.truncated then Truncated else Available, None,
        Some(baseline.distinctCount), Some(anomaly.distinctCount),
        if baseline.distinctCount > 0 then Some(anomaly.distinctCount as real / baseline.distinctCount as real) else None,
        CountIn(order, (v: string) => v !in w.base), CountIn(order, (v: string) => v !in w.anom),
        Share(Largest(order, w.base), w.baseTotal), Share(Largest(order, w.anom), w.anomTotal),
        anomaly.truncated || baseline.truncated,
        Ranked(Sort(Deltas(w, order), LargestMove()), topN))
  }

  ghost predicate NamedOnce(values: seq<Value>) {
    forall i, j :: 0 <= i < j < |values| ==> values[i].name != values[j].name
  }

  /** A value's count is its own, scaled, and its rank is its place in the provider's list. */
  lemma {:induction false} CountsAndRanks(values: seq<Value>, scale: real, i: nat)
    requires NamedOnce(values) && i < |values|
    ensures Get(CountsOf(values, scale), values[i].name) == values[i].count as real * scale
    ensures Lookup(RanksOf(values), values[i].name) == Some(i + 1)
  {
    if i < |values| - 1 {
      CountsAndRanks(values[..|values| - 1], scale, i);
      assert values[i].name != values[|values| - 1].name;
    }
  }

  // ------------------------------------------------------------- conservation

  lemma {:induction false} SumIsLinear(order: seq<string>, base: Counts, anom: Counts)
    ensures SumOver(order, MovedOf(base, anom)) == Total(order, anom) - Total(order, base)
  {
    if |order| > 0 {
      SumIsLinear(order[1..], base, anom);
    }
  }

  lemma {:induction false} MovementBounds(order: seq<string>, base: Counts, anom: Counts)
    ensures Movement(order, base, anom) >= 0.0
    ensures forall v :: v in order ==> Abs(MovedOf(base, anom)(v)) <= Movement(order, base, anom)
  {
    if |order| > 0 {
      MovementBounds(order[1..], base, anom);
    }
  }

  /** The sum of every value's share of a total. */
  ghost function SumOfShares(order: seq<string>, f: string -> real, total: real): real
    requires total > 0.0
  {
    if |order| == 0 then 0.0 else f(order[0]) / total + SumOfShares(order[1..], f, total)
  }

  lemma Products(a: real, b: real)
    ensures a > 0.0 && b > 0.0 ==> a * b > 0.0
  {
  }

  lemma QuotientAdds(a: real, b: real, total: real)
    requires total > 0.0
    ensures a / total + b / total == (a + b) / total
  {
    var (x, y, z) := (a / total, b / total, (a + b) / total);
    assert x * total == a && y * total == b && z * total == a + b;
    assert (x + y - z) * total == x * total + y * total - z * total;
    assert (z - x - y) * total == z * total - x * total - y * total;
    Products(x + y - z, total);
    Products(z - x - y, total);
  }

  lemma {:induction false} SharesOfTotal(order: seq<string>, f: string -> real, total: real)
    requires total > 0.0
    ensures SumOfShares(order, f, total) == SumOver(order, f) / total
  {
    if |order| > 0 {
      SharesOfTotal(order[1..], f, total);
      QuotientAdds(f(order[0]), SumOver(order[1..], f), total);
    }
  }

  /** Over all values, not only the ranked ones: the sizes of the contribution shares add up to 1 and
      the signed shares to the change of the totals over the total movement. */
  lemma ContributionsAddUp(baseline: Aggregate, anomaly: Aggregate, scale: real, order: seq<string>)
    requires WindowsOf(baseline, anomaly, scale, order).movement > 0.0
    ensures var w := WindowsOf(baseline, anomaly, scale, order);
            && SumOfShares(order, AbsMovedOf(w.base, w.anom), w.movement) == 1.0
            && SumOfShares(order, MovedOf(w.base, w.anom), w.movement) == (w.anomTotal - w.baseTotal) / w.movement
  {
    hide SumOver, CountsOf, RanksOf;
    var w := WindowsOf(baseline, anomaly, scale, order);
    SharesOfTotal(order, AbsMovedOf(w.base, w.anom), w.movement);
    SharesOfTotal(order, MovedOf(w.base, w.anom), w.movement);
    SumIsLinear(order, w.base, w.anom);
    OneWhole(w.movement);
  }

  lemma OneWhole(total: real)
    requires total > 0.0
    ensures total / total == 1.0
  {
  }

  function Clamped(share: Option<real>): Option<real> {
    if share.None? then None
    else Some(if share.value < -1.0 then -1.0 else if share.value > 1.0 then 1.0 else share.value)
  }

  lemma ShareWithin(part: real, total: real)
    requires total > 0.0 && -total <= part <= total
    ensures -1.0 <= part / total <= 1.0 && (part / total) * total == part
  {
    var q := part / total;
    assert q * total == part;
    Products(q - 1.0, total);
    Products(-1.0 - q, total);
    assert (q - 1.0) * total == part - total && (-1.0 - q) * total == -total - part;
  }

  lemma ShareOfMovement(moved: real, movement: real)
    requires Abs(moved) <= movement
    ensures var s := Share(moved, movement);
            && Clamped(s) == s && (s.None? <==> movement == 0.0) && (movement == 0.0 ==> moved == 0.0)
            && (s.Some? ==> s.value * movement == moved)
  {
    if movement > 0.0 {
      ShareWithin(moved, movement);
    }
  }

  /** Every contribution share is what it says, within [-1, 1], so that the collector's clamp changes
      nothing; and without any movement no share is defined and nothing moved. */
  lemma ContributionIsAShare(baseline: Aggregate, anomaly: Aggregate, scale: real, order: seq<string>, v: string)
    requires v in order
    ensures var w := WindowsOf(baseline, anomaly, scale, order);
            var d := DeltaOf(w, v);
            && Clamped(d.contributionShare) == d.contributionShare
            && (d.contributionShare.None? <==> w.movement == 0.0)
            && (w.movement == 0.0 ==> Get(w.anom, v) == Get(w.base, v))
            && (d.contributionShare.Some? ==> d.contributionShare.value * w.movement == Get(w.anom, v) - Get(w.base, v))
  {
    hide Share, Clamped, SumOver, CountsOf, RanksOf, Round;
    var w := WindowsOf(baseline, anomaly, scale, order);
    MovementBounds(order, w.base, w.anom);
    assert Abs(MovedOf(w.base, w.anom)(v)) <= w.movement;
    ShareOfMovement(Get(w.anom, v) - Get(w.base, v), w.movement);
  }

  // -------------------------------------------------------------- the ranking

  lemma LargestMoveOrders()
    ensures TotalPreorder(LargestMove())
  {
    TextLeIsTotalPreorder();
  }

  lemma DeltasAreDistinct(w: Windows, order: seq<string>)
    requires NoRepeats(order)
    ensures NoRepeats(Deltas(w, order)) && DistinctRanks(Deltas(w, order), LargestMove())
  {
    var ds := Deltas(w, order);
    forall x, y | x in ds && y in ds && LargestMove()(x, y) && LargestMove()(y, x) ensures x == y {
      TextLeTotal(x.value, y.value);
    }
    assert forall i :: 0 <= i < |ds| ==> ds[i].value == order[i];
  }

  lemma DeltasList(w: Windows, order: seq<string>, d: Delta)
    ensures d in Deltas(w, order) <==> d == DeltaOf(w, d.value) && d.value in order
  {
    hide DeltaOf;
    var ds := Deltas(w, order);
    if d in ds {
      var i :| 0 <= i < |ds| && ds[i] == d;
      ValueOfDelta(w, order[i]);
    } else if d.value in order {
      var i :| 0 <= i < |order| && order[i] == d.value;
      assert ds[i] == DeltaOf(w, d.value);
    }
  }

  lemma ValueOfDelta(w: Windows, v: string)
    ensures DeltaOf(w, v).value == v
  {
  }

  lemma SortedDeltas(w: Windows, order: seq<string>)
    requires NoRepeats(order)
    ensures var s := Sort(Deltas(w, order), LargestMove());
            |s| == |order| && NoRepeats(s) && SortedBy(s, LargestMove())
            && (forall i :: 0 <= i < |s| ==> s[i].value in order && s[i] == DeltaOf(w, s[i].value))
            && (forall v :: v in order ==> DeltaOf(w, v) in s)
  {
    var ds := Deltas(w, order);
    var s := Sort(ds, LargestMove());
    LargestMoveOrders();
    DeltasAreDistinct(w, order);
    SortSorts(ds, LargestMove());
    SortPermutes(ds, LargestMove());
    PermutedHasNoRepeats(ds, s);
    DeltasLength(w, order);
    hide Sort, DeltaOf, Deltas, LargestMove, SortedBy, DistinctRanks, TotalPreorder;
    forall i | 0 <= i < |s| ensures s[i].value in order && s[i] == DeltaOf(w, s[i].value) {
      assert s[i] in multiset(s);
      DeltasList(w, order, s[i]);
    }
    forall v | v in order ensures DeltaOf(w, v) in s {
      ValueOfDelta(w, v);
      DeltasList(w, order, DeltaOf(w, v));
      assert DeltaOf(w, v) in multiset(ds);
    }
  }

  predicate Named(contributors: seq<Delta>, v: string) {
    exists i :: 0 <= i < |contributors| && contributors[i].value == v
  }

  /** Ranks are 1, 2, ..., each contributor moved at least as much as the next, ties go by value, and
      nothing that was left out outranks what is in. */
  lemma RankingIsByMovement(w: Windows, order: seq<string>, topN: nat)
    requires NoRepeats(order)
    ensures var (c, n) := (Ranked(Sort(Deltas(w, order), LargestMove()), topN), if |order| <= topN then |order| else topN);
            && |c| == n
            && (forall i :: 0 <= i < n ==> c[i].rank == i + 1 && c[i].value in order && c[i].(rank := 0) == DeltaOf(w, c[i].value))
            && (forall i, j :: 0 <= i < j < n ==> LargestMove()(c[i], c[j]) && c[i].value != c[j].value)
            && (forall v, i :: v in order && !Named(c, v) && 0 <= i < n ==> LargestMove()(c[i], DeltaOf(w, v)))
  {
    OutrankedStayOut(w, order, topN);
    var s := Sort(Deltas(w, order), LargestMove());
    SortedDeltas(w, order);
    var c := Ranked(s, topN);
    hide Sort, DeltaOf, Deltas;
    forall i | 0 <= i < |c| ensures c[i].rank == i + 1 && c[i].value in order && c[i].(rank := 0) == DeltaOf(w, c[i].value) {
      UnrankedDelta(w, s[i].value);
    }
    forall i, j | 0 <= i < j < |c| ensures LargestMove()(c[i], c[j]) && c[i].value != c[j].value {
      assert LargestMove()(s[i], s[j]) && s[i] != s[j];
    }
  }

  lemma OutrankedStayOut(w: Windows, order: seq<string>, topN: nat)
    requires NoRepeats(order)
    ensures var c := Ranked(Sort(Deltas(w, order), LargestMove()), topN);
            forall v, i :: v in order && !Named(c, v) && 0 <= i < |c| ==> LargestMove()(c[i], DeltaOf(w, v))
  {
    hide Sort, DeltaOf, Deltas, LargestMove, Ranked, Named, SortedBy;
    var s := Sort(Deltas(w, order), LargestMove());
    SortedDeltas(w, order);
    var c := Ranked(s, topN);
    forall v, i | v in order && !Named(c, v) && 0 <= i < |c| ensures LargestMove()(c[i], DeltaOf(w, v)) {
      ValueOfDelta(w, v);
      BeyondTheHead(s, topN, DeltaOf(w, v), i);
    }
  }

  lemma BeyondTheHead(s: seq<Delta>, topN: nat, d: Delta, i: nat)
    requires SortedBy(s, LargestMove()) && d in s && !Named(Ranked(s, topN), d.value) && i < |Ranked(s, topN)|
    ensures LargestMove()(Ranked(s, topN)[i], d)
  {
    var j :| 0 <= j < |s| && s[j] == d;
    var c := Ranked(s, topN);
    assert forall k :: 0 <= k < |c| ==> c[k] == s[k].(rank := k + 1);
    assert forall k :: 0 <= k < |c| ==> c[k].value != d.value;
    assert j >= |c|;
    assert LargestMove()(s[i], s[j]);
  }

  lemma DeltasLength(w: Windows, order: seq<string>)
    ensures |Deltas(w, order)| == |order|
  {
  }

  lemma UnrankedDelta(w: Windows, v: string)
    ensures DeltaOf(w, v).rank == 0
  {
  }

  // ------------------------------------------------------------ any iteration

  lemma {:induction false} SumOfConcat(a: seq<string>, b: seq<string>, f: string -> real)
    ensures SumOver(a + b, f) == SumOver(a, f) + SumOver(b, f)
  {
    if |a| == 0 {
      assert a + b == b;
    } else {
      assert (a + b)[1..] == a[1..] + b;
      SumOfConcat(a[1..], b, f);
    }
  }

  lemma {:induction false} SumForgetsOrder(a: seq<string>, b: seq<string>, f: string -> real)
    requires multiset(a) == multiset(b)
    ensures SumOver(a, f) == SumOver(b, f)
  {
    if |a| == 0 {
      assert |multiset(b)| == 0;
    } else {
      assert a == [a[0]] + a[1..];
      assert a[0] in multiset(a);
      var i, rest := PullOut(a[0], b);
      SumForgetsOrder(a[1..], rest, f);
      SumOfConcat(b[..i], [a[0]] + b[i + 1..], f);
      SumOfConcat(b[..i], b[i + 1..], f);
      assert ([a[0]] + b[i + 1..])[1..] == b[i + 1..];
    }
  }

  lemma {:induction false} LargestHolds(order: seq<string>, counts: Counts)
    ensures Largest(order, counts) >= 0.0
    ensures forall v :: v in order && v in counts ==> counts[v] <= Largest(order, counts)
    ensures Largest(order, counts) > 0.0 ==> exists v :: v in order && v in counts && counts[v] == Largest(order, counts)
  {
    if |order| > 0 {
      LargestHolds(order[1..], counts);
      if Largest(order, counts) > 0.0 {
        if order[0] in counts && counts[order[0]] >= Largest(order[1..], counts) {
          assert order[0] in order;
        } else {
          var v :| v in order[1..] && v in counts && counts[v] == Largest(order[1..], counts);
          assert v in order;
        }
      }
    }
  }

  lemma LargestForgetsOrder(a: seq<string>, b: seq<string>, counts: Counts)
    requires forall v :: v in a <==> v in b
    ensures Largest(a, counts) == Largest(b, counts)
  {
    LargestHolds(a, counts);
    LargestHolds(b, counts);
    hide Largest;
  }

  lemma WindowsForgetOrder(baseline: Aggregate, anomaly: Aggregate, scale: real, a: seq<string>, b: seq<string>)
    requires multiset(a) == multiset(b)
    ensures WindowsOf(baseline, anomaly, scale, a) == WindowsOf(baseline, anomaly, scale, b)
  {
    hide SumOver, CountsOf, RanksOf;
    var base, anom := CountsOf(baseline.values, scale), CountsOf(anomaly.values, 1.0);
    SumForgetsOrder(a, b, (v: string) => Get(base, v));
    SumForgetsOrder(a, b, (v: string) => Get(anom, v));
    SumForgetsOrder(a, b, AbsMovedOf(base, anom));
  }

  lemma DeltasPermute(w: Windows, a: seq<string>, b: seq<string>)
    requires NoRepeats(a) && NoRepeats(b) && forall v :: v in a <==> v in b
    ensures multiset(Deltas(w, a)) == multiset(Deltas(w, b))
  {
    DeltasAreDistinct(w, a);
    DeltasAreDistinct(w, b);
    hide Deltas, DeltaOf;
    forall d ensures d in Deltas(w, a) <==> d in Deltas(w, b) {
      DeltasList(w, a, d);
      DeltasList(w, b, d);
    }
    ListingsPermute(Deltas(w, a), Deltas(w, b));
  }

  /** The set of values is iterated in no particular order; the comparison is the same for every one. */
  lemma ComparisonForgetsOrder(baseline: Aggregate, anomaly: Aggregate, scale: real, topN: nat, a: seq<string>, b: seq<string>)
    requires Lists(a, CountsOf(baseline.values, scale), CountsOf(anomaly.values, 1.0))
    requires Lists(b, CountsOf(baseline.values, scale), CountsOf(anomaly.values, 1.0))
    ensures Compared(baseline, anomaly, scale, topN, a) == Compared(baseline, anomaly, scale, topN, b)
  {
    ListingsPermute(a, b);
    WindowsForgetOrder(baseline, anomaly, scale, a, b);
    var w := WindowsOf(baseline, anomaly, scale, a);
    CountPermutes(a, b, (v: string) => v !in w.base);
    CountPermutes(a, b, (v: string) => v !in w.anom);
    LargestForgetsOrder(a, b, w.base);
    LargestForgetsOrder(a, b, w.anom);
    DeltasPermute(w, a, b);
    DeltasAreDistinct(w, a);
    LargestMoveOrders();
    SortForgetsOrder(Deltas(w, a), Deltas(w, b), LargestMove());
    hide WindowsOf, Deltas, Sort, Largest, Share, Count, Ranked, LargestMove;
  }

  // ---------------------------------------------------------------- the program

  method CompareDimension(baseline: Aggregate, anomaly: Aggregate, scale: real, topN: nat, order: seq<string>)
    returns (r: Comparison)
    requires Lists(order, CountsOf(baseline.values, scale), CountsOf(anomaly.values, 1.0))
    ensures r == Compared(baseline, anomaly, scale, topN, order)
  {
    hide Sort, SumOver, CountsOf, RanksOf, Share, Largest, Count, Ranked, DeltaOf, LargestMove;
    if anomaly.error != "" && !anomaly.available {
      return Blocked(anomaly.dimension, Unavailable, anomaly.error);
    }
    if anomaly.error != "" {
      return Blocked(anomaly.dimension, Failed, anomaly.error);
    }
    if !anomaly.available {
      return Blocked(anomaly.dimension, Unavailable, NotPopulated);
    }
    var w := WindowsOf(baseline, anomaly, scale, order);
    var deltas: seq<Delta> := [];
    var newValues, disappeared := 0, 0;
    for i := 0 to |order|
      invariant deltas == Deltas(w, order[..i])
    {
      deltas := deltas + [DeltaOf(w, order[i])];
      assert order[..i + 1] == order[..i] + [order[i]];
    }
    assert order[..|order|] == order;
    newValues := CountIn(order, (v: string) => v !in w.base);
    disappeared := CountIn(order, (v: string) => v !in w.anom);
    var contributors := RankInPlace(Sort(deltas, LargestMove()), topN);
    return Comparison(
      anomaly.dimension, if anomaly.truncated || baseline.truncated then Truncated else Available, None,
      Some(baseline.distinctCount), Some(anomaly.distinctCount),
      if baseline.distinctCount > 0 then Some(anomaly.distinctCount as real / baseline.distinctCount as real) else None,
      newValues, disappeared,
      Share(Largest(order, w.base), w.baseTotal), Share(Largest(order, w.anom), w.anomTotal),
      anomaly.truncated || baseline.truncated, contributors);
  }

  /** Number the first `topN` rows and keep them. */
  method RankInPlace(sorted: seq<Delta>, topN: nat) returns (contributors: seq<Delta>)
    ensures contributors == Ranked(sorted, topN)
  {
    var deltas := sorted;
    var n := if |deltas| <= topN then |deltas| else topN;
    for position := 1 to n + 1
      invariant |deltas| == |sorted|
      invariant forall i :: 0 <= i < position - 1 ==> deltas[i] == sorted[i].(rank := i + 1)
      invariant forall i :: position - 1 <= i < |deltas| ==> deltas[i] == sorted[i]
    {
      deltas := deltas[position - 1 := deltas[position - 1].(rank := position)];
    }
    return deltas[..n];
  }
}
