/** The CI shard splitter (backend/scripts/ci_shard.py): greedy longest-processing-time assignment
    of test files to shards, and how far from the best possible split it can be. */
module Shards {
  import opened Sorting

  // --------------------------------------------------------- list scheduling

  /** Total weight that the first `n` items put on shard `k`; item `i` goes to shard `a[i]`. */
  ghost function Load(w: seq<int>, a: seq<nat>, n: nat, k: nat): int
    requires n <= |w| && n <= |a|
  {
    if n == 0 then 0 else Load(w, a, n - 1, k) + if a[n - 1] == k then w[n - 1] else 0
  }

  /** Load of shards 0..m together. */
  ghost function LoadBelow(w: seq<int>, a: seq<nat>, n: nat, m: nat): int
    requires n <= |w| && n <= |a|
  {
    if m == 0 then 0 else LoadBelow(w, a, n, m - 1) + Load(w, a, n, m - 1)
  }

  ghost function Total(w: seq<int>, n: nat): int
    requires n <= |w|
  {
    if n == 0 then 0 else Total(w, n - 1) + w[n - 1]
  }

  /** Every item went to a shard that was lightest when its turn came. */
  ghost predicate Greedy(w: seq<int>, a: seq<nat>, m: nat) {
    |a| == |w| && forall j :: 0 <= j < |w| ==> a[j] < m && LightestAt(w, a, j, m, a[j])
  }

  ghost predicate LightestAt(w: seq<int>, a: seq<nat>, j: nat, m: nat, k: nat)
    requires j <= |w| && j <= |a|
  {
    forall other: nat :: other < m ==> Load(w, a, j, k) <= Load(w, a, j, other)
  }

  ghost predicate NonNegative(w: seq<int>) { forall i :: 0 <= i < |w| ==> 0 <= w[i] }

  ghost predicate Descending(w: seq<int>) { forall i, j :: 0 <= i <= j < |w| ==> w[j] <= w[i] }

  /** `b` is any assignment to `m` shards with no shard above `t`. */
  ghost predicate Rival(w: seq<int>, b: seq<nat>, m: nat, t: int) {
    && |b| == |w|
    && (forall i :: 0 <= i < |b| ==> b[i] < m)
    && (forall k: nat :: k < m ==> Load(w, b, |w|, k) <= t)
  }

  lemma {:induction false} LoadMonotone(w: seq<int>, a: seq<nat>, i: nat, n: nat, k: nat)
    requires i <= n <= |w| && n <= |a| && NonNegative(w)
    ensures 0 <= Load(w, a, i, k) <= Load(w, a, n, k)
    decreases n
  {
    if i < n {
      LoadMonotone(w, a, i, n - 1, k);
    } else if n > 0 {
      LoadMonotone(w, a, n - 1, n - 1, k);
    }
  }

  lemma {:induction false} LoadBelowStep(w: seq<int>, a: seq<nat>, n: nat, m: nat)
    requires n < |w| && n < |a|
    ensures LoadBelow(w, a, n + 1, m) == LoadBelow(w, a, n, m) + if a[n] < m then w[n] else 0
  {
    if m > 0 {
      LoadBelowStep(w, a, n, m - 1);
    }
  }

  /** The shards' loads add up to the items' weights. */
  lemma {:induction false} LoadsAddUp(w: seq<int>, a: seq<nat>, n: nat, m: nat)
    requires n <= |w| && n <= |a|
    requires forall i :: 0 <= i < n ==> a[i] < m
    ensures LoadBelow(w, a, n, m) == Total(w, n)
  {
    if n == 0 {
      EmptyLoads(w, a, m);
    } else {
      LoadsAddUp(w, a, n - 1, m);
      LoadBelowStep(w, a, n - 1, m);
    }
  }

  lemma {:induction false} EmptyLoads(w: seq<int>, a: seq<nat>, m: nat)
    ensures LoadBelow(w, a, 0, m) == 0
  {
    if m > 0 {
      EmptyLoads(w, a, m - 1);
    }
  }

  lemma {:induction false} LoadsAtLeast(w: seq<int>, a: seq<nat>, n: nat, m: nat, low: int)
    requires n <= |w| && n <= |a|
    requires forall k: nat :: k < m ==> low <= Load(w, a, n, k)
    ensures m * low <= LoadBelow(w, a, n, m)
  {
    if m > 0 {
      LoadsAtLeast(w, a, n, m - 1, low);
      assert m * low == (m - 1) * low + low;
    }
  }

  lemma {:induction false} LoadsAtMost(w: seq<int>, a: seq<nat>, n: nat, m: nat, high: int)
    requires n <= |w| && n <= |a|
    requires forall k: nat :: k < m ==> Load(w, a, n, k) <= high
    ensures LoadBelow(w, a, n, m) <= m * high
  {
    if m > 0 {
      LoadsAtMost(w, a, n, m - 1, high);
      assert m * high == (m - 1) * high + high;
    }
  }

  /** A lightest shard carries at most the average. */
  lemma LightestIsBelowAverage(w: seq<int>, a: seq<nat>, m: nat, j: nat)
    requires j < |w| && Greedy(w, a, m)
    ensures m * Load(w, a, j, a[j]) <= Total(w, j)
  {
    assert LightestAt(w, a, j, m, a[j]);
    LoadsAtLeast(w, a, j, m, Load(w, a, j, a[j]));
    LoadsAddUp(w, a, j, m);
  }

  /** What a rival fits under `t` bounds every prefix of the items. */
  lemma RivalCapacity(w: seq<int>, b: seq<nat>, m: nat, t: int, n: nat)
    requires n <= |w| && NonNegative(w) && Rival(w, b, m, t)
    ensures Total(w, n) <= m * t
    ensures forall k: nat :: k < m ==> 0 <= Load(w, b, n, k) <= t
  {
    forall k: nat | k < m ensures 0 <= Load(w, b, n, k) <= t {
      LoadMonotone(w, b, n, |w|, k);
    }
    LoadsAtMost(w, b, n, m, t);
    LoadsAddUp(w, b, n, m);
  }

  lemma RivalFitsEachItem(w: seq<int>, b: seq<nat>, m: nat, t: int, j: nat)
    requires j < |w| && NonNegative(w) && Rival(w, b, m, t)
    ensures 0 <= w[j] <= t
  {
    LoadMonotone(w, b, j, j, b[j]);
    LoadMonotone(w, b, j + 1, |w|, b[j]);
  }

  /** Averaging: when item `j` lands, its shard's load is at most t + (1 - 1/m) w[j]. */
  lemma AverageStep(w: seq<int>, a: seq<nat>, b: seq<nat>, m: nat, t: int, j: nat)
    requires m >= 1 && j < |w| && NonNegative(w) && Greedy(w, a, m) && Rival(w, b, m, t)
    ensures m * Load(w, a, j + 1, a[j]) <= m * t + m * w[j] - w[j]
    ensures 0 <= w[j] <= t
  {
    LightestIsBelowAverage(w, a, m, j);
    RivalCapacity(w, b, m, t, j + 1);
    RivalFitsEachItem(w, b, m, t, j);
    assert m * (Load(w, a, j, a[j]) + w[j]) == m * Load(w, a, j, a[j]) + m * w[j];
  }

  lemma {:induction false} Scale(m: nat, x: int, y: int)
    requires m >= 1 && x <= y
    ensures m * x - x <= m * y - y
  {
    if m > 1 {
      Scale(m - 1, x, y);
      assert m * x == (m - 1) * x + x && m * y == (m - 1) * y + y;
    }
  }

  lemma {:induction false} ScaleThird(m: nat, x: int, y: int)
    requires m >= 1 && 3 * x <= y
    ensures 3 * (m * x) - 3 * x <= m * y - y
  {
    if m > 1 {
      ScaleThird(m - 1, x, y);
      assert m * x == (m - 1) * x + x && m * y == (m - 1) * y + y;
    }
  }

  /** Any greedy order: no shard exceeds (2 - 1/m) times what any other split needs. */
  lemma {:induction false} ListSchedulingBound(w: seq<int>, a: seq<nat>, b: seq<nat>, m: nat, t: int, n: nat, k: nat)
    requires m >= 1 && n <= |w| && k < m && NonNegative(w) && Greedy(w, a, m) && Rival(w, b, m, t)
    ensures m * Load(w, a, n, k) <= 2 * (m * t) - t
  {
    if n == 0 {
      RivalCapacity(w, b, m, t, 0);
      Scale(m, 0, t);
    } else if a[n - 1] != k {
      ListSchedulingBound(w, a, b, m, t, n - 1, k);
    } else {
      AverageStep(w, a, b, m, t, n - 1);
      Scale(m, w[n - 1], t);
    }
  }

  // ------------------------------------------------- the last item is heavy

  /** Two credits for an item that no other item (all at least `q`) can join under `t`, else one. */
  ghost function Credits(w: seq<int>, q: int, t: int): seq<int> {
    seq(|w|, i requires 0 <= i < |w| => if w[i] + q > t then 2 else 1)
  }

  /** A rival shard holds at most two credits: three items above t/3 do not fit under `t`. */
  lemma {:induction false} RivalCredits(w: seq<int>, b: seq<nat>, n: nat, k: nat, q: int, t: int)
    requires n <= |w| && n <= |b| && NonNegative(w)
    requires forall i :: 0 <= i < n ==> q <= w[i]
    requires 0 <= q && t < 3 * q && Load(w, b, n, k) <= t
    ensures var c := Load(Credits(w, q, t), b, n, k); var load := Load(w, b, n, k);
            || (c == 0 && load == 0)
            || (c == 1 && q <= load && load + q <= t)
            || (c == 2 && (2 * q <= load || t < load + q))
  {
    if n > 0 {
      LoadMonotone(w, b, n - 1, n, k);
      RivalCredits(w, b, n - 1, k, q, t);
    }
  }

  /** A greedy shard with less than two credits still has room for an item of weight `q`. */
  lemma {:induction false} GreedyCredits(w: seq<int>, a: seq<nat>, n: nat, k: nat, q: int, t: int)
    requires n <= |w| && n <= |a| && q <= t
    ensures var c := Load(Credits(w, q, t), a, n, k);
            && 0 <= c
            && (c == 0 ==> Load(w, a, n, k) == 0)
            && (c < 2 ==> Load(w, a, n, k) + q <= t)
  {
    if n > 0 {
      GreedyCredits(w, a, n - 1, k, q, t);
    }
  }

  /** An item heavier than t/3 always fits: otherwise 2m+1 credits would sit on m rival shards. */
  lemma HeavyItemFits(w: seq<int>, a: seq<nat>, b: seq<nat>, m: nat, t: int, j: nat)
    requires m >= 1 && j < |w| && NonNegative(w) && Descending(w)
    requires Greedy(w, a, m) && Rival(w, b, m, t) && t < 3 * w[j]
    ensures 0 <= t && Load(w, a, j + 1, a[j]) <= t
  {
    var q, c, next := w[j], Credits(w, w[j], t), j + 1;
    AverageStep(w, a, b, m, t, j);
    if t < Load(w, a, j, a[j]) + q {
      assert LightestAt(w, a, j, m, a[j]);
      forall k: nat | k < m ensures 2 <= Load(c, a, j, k) {
        GreedyCredits(w, a, j, k, q, t);
      }
      LoadsAtLeast(c, a, j, m, 2);
      LoadsAddUp(c, a, j, m);
      forall k: nat | k < m ensures Load(c, b, next, k) <= 2 {
        LoadMonotone(w, b, next, |w|, k);
        RivalCredits(w, b, next, k, q, t);
      }
      LoadsAtMost(c, b, next, m, 2);
      LoadsAddUp(c, b, next, m);
      assert false;
    }
  }

  /** The step of Graham's bound: the shard that takes item `j`. */
  lemma GrahamStep(w: seq<int>, a: seq<nat>, b: seq<nat>, m: nat, t: int, j: nat)
    requires m >= 1 && j < |w| && NonNegative(w) && Descending(w)
    requires Greedy(w, a, m) && Rival(w, b, m, t)
    ensures 3 * (m * Load(w, a, j + 1, a[j])) <= 4 * (m * t) - t
  {
    AverageStep(w, a, b, m, t, j);
    if t < 3 * w[j] {
      HeavyItemFits(w, a, b, m, t, j);
    }
    GrahamArithmetic(m, Load(w, a, j + 1, a[j]), w[j], t);
  }

  lemma GrahamArithmetic(m: nat, load: int, q: int, t: int)
    requires m >= 1 && 0 <= q <= t
    requires load <= t || (3 * q <= t && m * load <= m * t + m * q - q)
    ensures 3 * (m * load) <= 4 * (m * t) - t
  {
    Scale(m, 0, t);
    if load <= t {
      Scale(m, load, t);
    } else {
      ScaleThird(m, q, t);
    }
  }

  /** Graham's bound: heaviest first, no shard exceeds (4/3 - 1/(3m)) times what any other
      split needs. */
  lemma {:induction false} GrahamBound(w: seq<int>, a: seq<nat>, b: seq<nat>, m: nat, t: int, n: nat, k: nat)
    requires m >= 1 && n <= |w| && k < m && NonNegative(w) && Descending(w)
    requires Greedy(w, a, m) && Rival(w, b, m, t)
    ensures 3 * (m * Load(w, a, n, k)) <= 4 * (m * t) - t
  {
    if n == 0 {
      RivalCapacity(w, b, m, t, 0);
      Scale(m, 0, t);
    } else if a[n - 1] != k {
      GrahamBound(w, a, b, m, t, n - 1, k);
    } else {
      GrahamStep(w, a, b, m, t, n - 1);
    }
  }

  /** Graham's worst case: two weights each from 2m - 1 down to m + 1, then three of m. */
  function Tight(m: nat): seq<int> { seq(2 * m + 1, (i: nat) => if i == 2 * m then m else 2 * m - 1 - i / 2) }

  /** Heaviest first gives each shard one weight, goes back over the shards and ends on the first. */
  function ThereAndBack(m: nat): seq<nat>
    requires m >= 1
  {
    seq(2 * m + 1, (i: nat) => if i < m then i else if i < 2 * m then 2 * m - 1 - i else 0)
  }

  /** The best split keeps the three weights of m together and pairs the others. */
  function ThreeTogether(m: nat): seq<nat>
    requires m >= 1
  {
    seq(2 * m + 1, (i: nat) => if i < m - 1 then i else if i < 2 * m - 2 then 2 * m - 3 - i else m - 1)
  }

  lemma {:induction false} ThereAndBackLoads(m: nat, n: nat, k: nat)
    requires m >= 1 && n <= 2 * m && k < m
    ensures Load(Tight(m), ThereAndBack(m), n, k) ==
            if n <= k then 0 else if n <= 2 * m - 1 - k then 2 * m - 1 - k / 2 else 3 * m - 1
  {
    if n > 0 {
      ThereAndBackLoads(m, n - 1, k);
    }
  }

  lemma {:induction false} ThreeTogetherLoads(m: nat, n: nat, k: nat)
    requires m >= 1 && n <= 2 * m - 2 && k < m
    ensures Load(Tight(m), ThreeTogether(m), n, k) ==
            if k == m - 1 || n <= k then 0 else if n <= 2 * m - 3 - k then 2 * m - 1 - k / 2 else 3 * m
  {
    if n > 0 {
      ThreeTogetherLoads(m, n - 1, k);
    }
  }

  lemma ThreeTogetherFits(m: nat, k: nat)
    requires m >= 1 && k < m
    ensures Load(Tight(m), ThreeTogether(m), 2 * m + 1, k) == 3 * m
  {
    var w, b := Tight(m), ThreeTogether(m);
    ThreeTogetherLoads(m, 2 * m - 2, k);
    var last := if k == m - 1 then m else 0;
    assert Load(w, b, 2 * m - 1, k) == Load(w, b, 2 * m - 2, k) + last;
    assert Load(w, b, 2 * m, k) == Load(w, b, 2 * m - 1, k) + last;
    assert Load(w, b, 2 * m + 1, k) == Load(w, b, 2 * m, k) + last;
  }

  lemma ThereAndBackIsGreedy(m: nat)
    requires m >= 1
    ensures Greedy(Tight(m), ThereAndBack(m), m)
  {
    var w, a := Tight(m), ThereAndBack(m);
    forall j | 0 <= j < |w| ensures LightestAt(w, a, j, m, a[j]) {
      forall other: nat | other < m ensures Load(w, a, j, a[j]) <= Load(w, a, j, other) {
        ThereAndBackLoads(m, j, a[j]);
        ThereAndBackLoads(m, j, other);
      }
    }
  }

  lemma ThreeTogetherIsRival(m: nat)
    requires m >= 1
    ensures Rival(Tight(m), ThreeTogether(m), m, 3 * m)
  {
    forall k: nat | k < m ensures Load(Tight(m), ThreeTogether(m), |Tight(m)|, k) <= 3 * m {
      ThreeTogetherFits(m, k);
    }
  }

  lemma FirstEndsHighest(m: nat)
    requires m >= 1
    ensures Load(Tight(m), ThereAndBack(m), 2 * m + 1, 0) == 4 * m - 1
  {
    ThereAndBackLoads(m, 2 * m, 0);
  }

  /** The bound is attained, whatever the number of shards: greedy reaches 4m - 1 where 3m is possible. */
  lemma GrahamBoundIsTight(m: nat)
    requires m >= 1
    ensures var (w, a) := (Tight(m), ThereAndBack(m));
            && NonNegative(w) && Descending(w) && Greedy(w, a, m) && Rival(w, ThreeTogether(m), m, 3 * m)
            && 3 * (m * Load(w, a, |w|, 0)) == 4 * (m * (3 * m)) - 3 * m
  {
    hide Load, Greedy, Rival;
    ThereAndBackIsGreedy(m);
    ThreeTogetherIsRival(m);
    FirstEndsHighest(m);
    assert m * (4 * m - 1) == 4 * (m * m) - m && m * (3 * m) == 3 * (m * m);
  }

  /** The bound for every list of weights from `low` up. */
  ghost predicate BoundHolds(m: nat, low: int) {
    forall w: seq<int>, a: seq<nat>, b: seq<nat>, t: int, k: nat ::
      Descending(w) && NoneBelow(w, low) && Greedy(w, a, m) && Rival(w, b, m, t) && k < m ==> WithinBound(w, a, m, t, k)
  }

  ghost predicate NoneBelow(w: seq<int>, low: int) { forall i :: 0 <= i < |w| ==> low <= w[i] }

  ghost predicate WithinBound(w: seq<int>, a: seq<nat>, m: nat, t: int, k: nat) {
    |a| == |w| && 3 * (m * Load(w, a, |w|, k)) <= 4 * (m * t) - t
  }

  function Ones(m: nat): seq<int> { seq(m, _ => -1) }

  function OnFirst(m: nat): seq<nat> { seq(m, _ => 0) }

  function OneEach(m: nat): seq<nat> { seq(m, (i: nat) => i) }

  lemma {:induction false} FirstTakesAll(m: nat, n: nat, k: nat)
    requires n <= m
    ensures Load(Ones(m), OnFirst(m), n, k) + (if k == 0 then n else 0) == 0
  {
    if n > 0 {
      FirstTakesAll(m, n - 1, k);
    }
  }

  lemma {:induction false} EachTakesOne(m: nat, n: nat, k: nat)
    requires n <= m
    ensures Load(Ones(m), OneEach(m), n, k) == if k < n then -1 else 0
  {
    if n > 0 {
      EachTakesOne(m, n - 1, k);
    }
  }

  /** As many files of weight -1 as shards all land on the first shard, which only gets lighter; the others
      stay at 0 where one file each would leave every shard at -1. */
  lemma NegativeWeightsPileUp(m: nat)
    requires m >= 2
    ensures Descending(Ones(m)) && Greedy(Ones(m), OnFirst(m), m) && Rival(Ones(m), OneEach(m), m, -1)
    ensures !WithinBound(Ones(m), OnFirst(m), m, -1, 1)
  {
    var w, a, b := Ones(m), OnFirst(m), OneEach(m);
    forall j | 0 <= j < m ensures LightestAt(w, a, j, m, a[j]) {
      forall other: nat | other < m ensures Load(w, a, j, a[j]) <= Load(w, a, j, other) {
        FirstTakesAll(m, j, other);
        FirstTakesAll(m, j, 0);
      }
    }
    forall k: nat | k < m ensures Load(w, b, m, k) <= -1 {
      EachTakesOne(m, m, k);
    }
    FirstTakesAll(m, m, 1);
    assert m * 0 == 0 && m * -1 + m == 0;
  }

  lemma OneForEach(w: seq<int>, a: seq<nat>, m: nat)
    requires Greedy(w, a, m)
    ensures |a| == |w|
  {
  }

  /** Exactly the weights the bound is good for: with two shards or more it holds for all lists from `low`
      up if and only if `low` is not negative. */
  lemma BoundHoldsIff(m: nat, low: int)
    requires m >= 2
    ensures BoundHolds(m, low) <==> low >= 0
  {
    hide Greedy, Rival, Descending;
    if low >= 0 {
      forall w: seq<int>, a: seq<nat>, b: seq<nat>, t: int, k: nat
        | Descending(w) && NoneBelow(w, low) && Greedy(w, a, m) && Rival(w, b, m, t) && k < m
        ensures WithinBound(w, a, m, t, k)
      {
        OneForEach(w, a, m);
        GrahamBound(w, a, b, m, t, |w|, k);
      }
    } else {
      NegativeWeightsPileUp(m);
      assert NoneBelow(Ones(m), low);
    }
  }

  /** Balance: no two loads differ by more than the largest weight. */
  lemma {:induction false} SpreadBound(w: seq<int>, a: seq<nat>, m: nat, largest: int, n: nat, high: nat, low: nat)
    requires n <= |w| && high < m && low < m && NonNegative(w) && Greedy(w, a, m)
    requires 0 <= largest && forall i :: 0 <= i < |w| ==> w[i] <= largest
    ensures Load(w, a, n, high) - Load(w, a, n, low) <= largest
  {
    if n > 0 {
      SpreadBound(w, a, m, largest, n - 1, high, low);
      assert LightestAt(w, a, n - 1, m, a[n - 1]);
    }
  }

  // ------------------------------------------------------------- the program

  /** The weight a file counts with: the recorded one, or `unknown`. */
  function WeightOf(weights: map<string, int>, unknown: int): string -> int {
    path => if path in weights then weights[path] else unknown
  }

  /** What an unrecorded file counts with: the middle weight, a half rounded up, never below one. */
  function FallbackWeight(known: seq<int>): (r: int)
    ensures r >= 1
  {
    if |known| == 0 then 1
    else
      var n := |known|;
      var m := if n % 2 == 1 then known[n / 2] else (known[n / 2 - 1] + known[n / 2] + 1) / 2;
      if m < 1 then 1 else m
  }

  lemma {:induction false} CountWithin(s: seq<int>, p: int -> bool, lo: nat, hi: nat)
    requires lo <= hi <= |s| && forall i :: lo <= i < hi ==> p(s[i])
    ensures hi - lo <= Count(s, p)
  {
    if |s| > 0 && hi > 0 {
      CountWithin(s[1..], p, if lo == 0 then 0 else lo - 1, hi - 1);
    }
  }

  /** At least half of the known weights are on either side of the fallback. */
  lemma FallbackIsMedian(known: seq<int>)
    requires |known| > 0 && (forall x :: x in known ==> 1 <= x)
    requires SortedBy(known, (x: int, y: int) => x <= y)
    ensures 2 * Count(known, x => x <= FallbackWeight(known)) >= |known|
    ensures 2 * Count(known, x => x >= FallbackWeight(known)) >= |known|
  {
    var n, r := |known|, FallbackWeight(known);
    assert known[n / 2] in known && known[(n - 1) / 2] in known;
    assert known[(n - 1) / 2] <= r <= known[n / 2];
    CountWithin(known, x => x <= r, 0, (n - 1) / 2 + 1);
    CountWithin(known, x => x >= r, n / 2, n);
  }

  /** How often `x` is in the parts together. */
  ghost function Copies(parts: seq<seq<string>>, x: string): nat {
    if |parts| == 0 then 0 else multiset(parts[0])[x] + Copies(parts[1..], x)
  }

  lemma {:induction false} CopiesReplace(parts: seq<seq<string>>, k: nat, part: seq<string>, x: string)
    requires k < |parts|
    ensures multiset(parts[k])[x] <= Copies(parts, x)
    ensures Copies(parts[k := part], x) == Copies(parts, x) - multiset(parts[k])[x] + multiset(part)[x]
  {
    if k == 0 {
      assert parts[0 := part][1..] == parts[1..];
    } else {
      assert parts[k := part][1..] == parts[1..][k - 1 := part];
      CopiesReplace(parts[1..], k - 1, part, x);
    }
  }

  lemma {:induction false} CopiesFind(parts: seq<seq<string>>, x: string) returns (k: nat)
    requires Copies(parts, x) > 0
    ensures k < |parts| && x in multiset(parts[k])
  {
    if x in multiset(parts[0]) {
      k := 0;
    } else {
      k := CopiesFind(parts[1..], x);
      k := k + 1;
    }
  }

  /** `split` puts each file into exactly one of `of` shards. */
  ghost predicate IsSplit(files: seq<string>, of: nat, split: seq<seq<string>>) {
    |split| == of && forall x: string :: Copies(split, x) == multiset(files)[x]
  }

  /** Any split of the same files is an assignment of the items, shard by shard of equal load. */
  lemma {:induction false} SplitAsAssignment(paths: seq<string>, w: seq<int>, f: string -> int, parts: seq<seq<string>>)
    returns (b: seq<nat>)
    requires |w| == |paths| && forall i :: 0 <= i < |w| ==> w[i] == f(paths[i])
    requires IsSplit(paths, |parts|, parts)
    ensures |b| == |w| && forall i :: 0 <= i < |b| ==> b[i] < |parts|
    ensures forall k: nat :: k < |parts| ==> Load(w, b, |w|, k) == Sum(parts[k], f)
  {
    hide IsSplit, Load, Sum, Copies;
    var n := |paths|;
    if n == 0 {
      b := [];
      assert forall k :: 0 <= k < |parts| ==> parts[k] == [] by { assert paths == []; NothingSplit(parts); }
      forall k: nat | k < |parts| ensures Load(w, b, 0, k) == Sum(parts[k], f) {
        NothingWeighs(w, f, k);
      }
    } else {
      var x := paths[n - 1];
      var k := ShardOf(paths, parts, x);
      var i, rest := PullOut(x, parts[k]);
      ShrinkSplit(paths, parts, k, rest);
      SumWithout(parts[k], i, f);
      var b' := SplitAsAssignment(paths[..n - 1], w[..n - 1], f, parts[k := rest]);
      b := b' + [k];
      AssignOneMore(w, b', f, parts, k, rest);
    }
  }

  lemma NothingWeighs(w: seq<int>, f: string -> int, k: nat)
    ensures Load(w, [], 0, k) == Sum([], f)
  {
  }

  lemma ShardOf(paths: seq<string>, parts: seq<seq<string>>, x: string) returns (k: nat)
    requires IsSplit(paths, |parts|, parts) && |paths| > 0 && x == paths[|paths| - 1]
    ensures k < |parts| && x in multiset(parts[k])
  {
    assert paths == paths[..|paths| - 1] + [x];
    assert x in multiset(paths);
    k := CopiesFind(parts, x);
  }

  lemma AssignOneMore(w: seq<int>, b: seq<nat>, f: string -> int, parts: seq<seq<string>>, k: nat, rest: seq<string>)
    requires |w| == |b| + 1 && k < |parts| && Sum(parts[k], f) == Sum(rest, f) + w[|b|]
    requires forall j: nat :: j < |parts| ==> Load(w[..|b|], b, |b|, j) == Sum(parts[k := rest][j], f)
    ensures forall j: nat :: j < |parts| ==> Load(w, b + [k], |w|, j) == Sum(parts[j], f)
  {
    forall j: nat | j < |parts| ensures Load(w, b + [k], |w|, j) == Sum(parts[j], f) {
      LoadOfPrefix(w, b + [k], w[..|b|], b, |b|, j);
    }
  }

  lemma NothingSplit(parts: seq<seq<string>>)
    requires IsSplit([], |parts|, parts)
    ensures forall k :: 0 <= k < |parts| ==> parts[k] == []
  {
    forall k | 0 <= k < |parts| ensures parts[k] == [] {
      forall x: string ensures multiset(parts[k])[x] == 0 {
        CopiesReplace(parts, k, [], x);
      }
      assert multiset(parts[k]) == multiset{};
      assert |parts[k]| == |multiset(parts[k])|;
    }
  }

  lemma ShrinkSplit(paths: seq<string>, parts: seq<seq<string>>, k: nat, rest: seq<string>)
    requires |paths| > 0 && k < |parts| && IsSplit(paths, |parts|, parts)
    requires paths[|paths| - 1] in multiset(parts[k])
    requires multiset(rest) == multiset(parts[k]) - multiset{paths[|paths| - 1]}
    ensures IsSplit(paths[..|paths| - 1], |parts|, parts[k := rest])
  {
    var x, parts', paths' := paths[|paths| - 1], parts[k := rest], paths[..|paths| - 1];
    assert paths == paths' + [x];
    forall y: string ensures Copies(parts', y) == multiset(paths')[y] {
      CopiesReplace(parts, k, rest, y);
    }
  }

  lemma {:induction false} LoadOfPrefix(w: seq<int>, a: seq<nat>, w': seq<int>, a': seq<nat>, n: nat, k: nat)
    requires n <= |w'| <= |w| && n <= |a'| <= |a|
    requires forall i :: 0 <= i < n ==> w'[i] == w[i] && a'[i] == a[i]
    ensures Load(w', a', n, k) == Load(w, a, n, k)
  {
    if n > 0 {
      LoadOfPrefix(w, a, w', a', n - 1, k);
    }
  }

  ghost predicate Within(f: string -> int, split: seq<seq<string>>, t: int) {
    forall k :: 0 <= k < |split| ==> Sum(split[k], f) <= t
  }

  /** Our heaviest shard is at most (4/3 - 1/(3of)) times the heaviest shard of any other split. */
  ghost predicate NearBest(files: seq<string>, f: string -> int, of: nat, shards: seq<seq<string>>) {
    forall rival: seq<seq<string>>, t: int :: IsSplit(files, of, rival) && Within(f, rival, t) ==>
      forall k :: 0 <= k < |shards| ==> 3 * (of * Sum(shards[k], f)) <= 4 * (of * t) - t
  }

  ghost predicate NoneAbove(files: seq<string>, f: string -> int, largest: int) {
    forall x :: x in files ==> f(x) <= largest
  }

  /** No two shards differ by more than the weight of the heaviest file. */
  ghost predicate Balanced(files: seq<string>, f: string -> int, shards: seq<seq<string>>) {
    forall largest: nat, i, j :: NoneAbove(files, f, largest) && 0 <= i < |shards| && 0 <= j < |shards| ==>
      Sum(shards[i], f) - Sum(shards[j], f) <= largest
  }

  /** The order in which files are placed: by weight, then by path. */
  function HeaviestFirst(f: string -> int): (string, string) -> bool {
    (p, q) => f(p) > f(q) || (f(p) == f(q) && TextLe(p, q))
  }

  ghost function Weights(f: string -> int, paths: seq<string>): (w: seq<int>)
    ensures |w| == |paths|
  {
    seq(|paths|, i requires 0 <= i < |paths| => f(paths[i]))
  }

  lemma HeaviestFirstSorts(files: seq<string>, f: string -> int)
    ensures var paths := Sort(files, HeaviestFirst(f));
            multiset(paths) == multiset(files) && Descending(Weights(f, paths))
  {
    SortPermutes(files, HeaviestFirst(f));
    TextLeIsTotalPreorder();
    SortSorts(files, HeaviestFirst(f));
  }

  /** A greedy assignment of the sorted files gives a near-best and balanced split. */
  lemma GreedyIsGood(files: seq<string>, f: string -> int, of: nat, paths: seq<string>, a: seq<nat>, shards: seq<seq<string>>)
    requires of >= 1 && |shards| == of && (forall x :: x in files ==> 0 <= f(x))
    requires multiset(paths) == multiset(files) && Descending(Weights(f, paths)) && Greedy(Weights(f, paths), a, of)
    requires forall k: nat :: k < of ==> Sum(shards[k], f) == Load(Weights(f, paths), a, |paths|, k)
    ensures NearBest(files, f, of, shards) && Balanced(files, f, shards)
  {
    var w := Weights(f, paths);
    forall i | 0 <= i < |w| ensures paths[i] in files { assert paths[i] in multiset(files); }
    forall rival: seq<seq<string>>, t: int | IsSplit(files, of, rival) && Within(f, rival, t)
      ensures forall k :: 0 <= k < |shards| ==> 3 * (of * Sum(shards[k], f)) <= 4 * (of * t) - t
    {
      assert IsSplit(paths, of, rival);
      var b := SplitAsAssignment(paths, w, f, rival);
      forall k: nat | k < of ensures 3 * (of * Sum(shards[k], f)) <= 4 * (of * t) - t {
        GrahamBound(w, a, b, of, t, |w|, k);
      }
    }
    forall largest: nat, i, j | NoneAbove(files, f, largest) && 0 <= i < |shards| && 0 <= j < |shards|
      ensures Sum(shards[i], f) - Sum(shards[j], f) <= largest
    {
      assert Sum(shards[i], f) == Load(w, a, |paths|, i) && Sum(shards[j], f) == Load(w, a, |paths|, j);
      SpreadBound(w, a, of, largest, |w|, i, j);
    }
  }

  /** Giving item `|a|` to a lightest shard keeps the assignment greedy. */
  lemma GreedyGrows(w: seq<int>, a: seq<nat>, of: nat, index: nat)
    requires |a| < |w| && index < of
    requires forall i :: 0 <= i < |a| ==> a[i] < of && LightestAt(w, a, i, of, a[i])
    requires LightestAt(w, a, |a|, of, index)
    ensures forall i :: 0 <= i < |a| + 1 ==> (a + [index])[i] < of && LightestAt(w, a + [index], i, of, (a + [index])[i])
    ensures forall k :: Load(w, a + [index], |a| + 1, k) == Load(w, a, |a|, k) + if k == index then w[|a|] else 0
  {
    forall i: nat, k: nat | i <= |a| ensures Load(w, a + [index], i, k) == Load(w, a, i, k) {
      LoadOfPrefix(w, a + [index], w, a, i, k);
    }
    forall i | 0 <= i < |a| + 1
      ensures (a + [index])[i] < of && LightestAt(w, a + [index], i, of, (a + [index])[i])
    {
      if i < |a| {
        assert LightestAt(w, a, i, of, a[i]);
      }
    }
  }

  /** The least total, at its smallest index. */
  method Lightest(totals: array<int>) returns (index: nat)
    requires totals.Length > 0
    ensures index < totals.Length
    ensures forall i :: 0 <= i < totals.Length ==> totals[index] <= totals[i]
    ensures forall i :: 0 <= i < index ==> totals[index] < totals[i]
  {
    index := 0;
    for n := 1 to totals.Length
      invariant index < n
      invariant forall i :: 0 <= i < n ==> totals[index] <= totals[i]
      invariant forall i :: 0 <= i < index ==> totals[index] < totals[i]
    {
      if totals[n] < totals[index] {
        index := n;
      }
    }
  }

  /** Split the files over `of` shards. */
  method ShardFiles(files: seq<string>, weights: map<string, int>, unknown: int, of: nat)
    returns (shards: seq<seq<string>>)
    requires of >= 1
    ensures IsSplit(files, of, shards)
    ensures var f := WeightOf(weights, unknown);
            forall k :: 0 <= k < of ==>
              SortedBy(shards[k], TextLe) &&
              multiset(shards[k]) == multiset(Schedule(f, Sort(files, HeaviestFirst(f)), of)[k])
    ensures var f := WeightOf(weights, unknown);
            (forall x :: x in files ==> 0 <= f(x)) ==> NearBest(files, f, of, shards) && Balanced(files, f, shards)
  {
    var f := WeightOf(weights, unknown);
    var paths := Sort(files, HeaviestFirst(f));
    HeaviestFirstSorts(files, f);
    ghost var a;
    shards, a := PlaceInTurn(paths, f, of);
    shards := SortEach(shards, f);
    if forall x :: x in files ==> 0 <= f(x) {
      GreedyIsGood(files, f, of, paths, a, shards);
    }
  }

  /** The shards after placing `paths` in turn, each on the first of the lightest shards. */
  ghost function Schedule(f: string -> int, paths: seq<string>, of: nat): (shards: seq<seq<string>>)
    requires of >= 1
    ensures |shards| == of
  {
    if |paths| == 0 then seq(of, _ => [])
    else
      var before := Schedule(f, paths[..|paths| - 1], of);
      var k := FirstLightest(f, before, of);
      before[k := before[k] + [paths[|paths| - 1]]]
  }

  ghost function FirstLightest(f: string -> int, shards: seq<seq<string>>, n: nat): (k: nat)
    requires 1 <= n <= |shards|
    ensures k < n
    ensures forall i :: 0 <= i < n ==> Sum(shards[k], f) <= Sum(shards[i], f)
    ensures forall i :: 0 <= i < k ==> Sum(shards[k], f) < Sum(shards[i], f)
  {
    if n == 1 then 0
    else
      var k := FirstLightest(f, shards, n - 1);
      if Sum(shards[n - 1], f) < Sum(shards[k], f) then n - 1 else k
  }

  /** The split does not depend on the order in which the files were listed. */
  lemma FileOrderDoesNotMatter(files: seq<string>, listed: seq<string>, f: string -> int, of: nat)
    requires of >= 1 && multiset(files) == multiset(listed)
    ensures Schedule(f, Sort(files, HeaviestFirst(f)), of) == Schedule(f, Sort(listed, HeaviestFirst(f)), of)
  {
    TextLeIsTotalPreorder();
    forall p, q | p in files && q in files && HeaviestFirst(f)(p, q) && HeaviestFirst(f)(q, p) ensures p == q {
      TextLeTotal(p, q);
    }
    SortForgetsOrder(files, listed, HeaviestFirst(f));
  }

  /** The state of the placing loop after `n` paths. */
  ghost predicate Placed(f: string -> int, paths: seq<string>, n: nat, a: seq<nat>, totals: seq<int>, shards: seq<seq<string>>) {
    && n <= |paths| && |a| == n && |totals| == |shards|
    && IsSplit(paths[..n], |shards|, shards)
    && |shards| >= 1 && shards == Schedule(f, paths[..n], |shards|)
    && (forall i :: 0 <= i < n ==> a[i] < |shards| && LightestAt(Weights(f, paths), a, i, |shards|, a[i]))
    && (forall k: nat :: k < |shards| ==> totals[k] == Load(Weights(f, paths), a, n, k) == Sum(shards[k], f))
  }

  lemma PlaceNext(f: string -> int, paths: seq<string>, n: nat, a: seq<nat>, totals: seq<int>, shards: seq<seq<string>>, index: nat)
    requires n < |paths| && index < |shards| && Placed(f, paths, n, a, totals, shards)
    requires forall i :: 0 <= i < |totals| ==> totals[index] <= totals[i]
    requires forall i :: 0 <= i < index ==> totals[index] < totals[i]
    ensures Placed(f, paths, n + 1, a + [index], totals[index := totals[index] + f(paths[n])],
                   shards[index := shards[index] + [paths[n]]])
  {
    var w := Weights(f, paths);
    assert LightestAt(w, a, n, |shards|, index) by {
      forall other: nat | other < |shards| ensures Load(w, a, n, index) <= Load(w, a, n, other) {
        assert totals[index] <= totals[other];
      }
    }
    GreedyGrows(w, a, |shards|, index);
    PlaceOne(shards, index, paths, n);
    SumConcat(shards[index], [paths[n]], f);
    var k := FirstLightest(f, shards, |shards|);
    assert totals[index] == Sum(shards[index], f) && totals[k] == Sum(shards[k], f);
    assert paths[..n + 1][..n] == paths[..n];
  }

  /** The placing loop: each path in turn goes to the lightest shard. */
  method PlaceInTurn(paths: seq<string>, f: string -> int, of: nat)
    returns (shards: seq<seq<string>>, ghost a: seq<nat>)
    requires of >= 1
    ensures IsSplit(paths, of, shards) && Greedy(Weights(f, paths), a, of)
    ensures shards == Schedule(f, paths, of)
    ensures forall k: nat :: k < of ==> Sum(shards[k], f) == Load(Weights(f, paths), a, |paths|, k)
  {
    var totals := new int[of](_ => 0);
    shards := seq(of, _ => []);
    a := [];
    NothingPlaced(shards);
    for n := 0 to |paths|
      invariant |shards| == of && Placed(f, paths, n, a, totals[..], shards)
    {
      var index := Lightest(totals);
      PlaceNext(f, paths, n, a, totals[..], shards, index);
      ghost var next := totals[..][index := totals[index] + f(paths[n])];
      shards := shards[index := shards[index] + [paths[n]]];
      totals[index] := totals[index] + f(paths[n]);
      assert totals[..] == next;
      a := a + [index];
    }
    assert paths[..|paths|] == paths;
  }

  lemma PlaceOne(shards: seq<seq<string>>, index: nat, paths: seq<string>, n: nat)
    requires n < |paths| && index < |shards|
    requires IsSplit(paths[..n], |shards|, shards)
    ensures IsSplit(paths[..n + 1], |shards|, shards[index := shards[index] + [paths[n]]])
  {
    var shards', paths' := shards[index := shards[index] + [paths[n]]], paths[..n + 1];
    assert paths' == paths[..n] + [paths[n]];
    forall x: string ensures Copies(shards', x) == multiset(paths')[x] {
      CopiesReplace(shards, index, shards[index] + [paths[n]], x);
    }
  }

  lemma {:induction false} NothingPlaced(parts: seq<seq<string>>)
    requires forall k :: 0 <= k < |parts| ==> parts[k] == []
    ensures forall x: string :: Copies(parts, x) == 0
  {
    if |parts| > 0 {
      NothingPlaced(parts[1..]);
    }
  }

  /** Put every shard in path order. */
  method SortEach(lists: seq<seq<string>>, ghost f: string -> int) returns (shards: seq<seq<string>>)
    ensures |shards| == |lists| && forall x: string :: Copies(shards, x) == Copies(lists, x)
    ensures forall k :: 0 <= k < |lists| ==> SortedBy(shards[k], TextLe) && Sum(shards[k], f) == Sum(lists[k], f)
    ensures forall k :: 0 <= k < |lists| ==> multiset(shards[k]) == multiset(lists[k])
  {
    shards := lists;
    TextLeIsTotalPreorder();
    for n := 0 to |lists|
      invariant |shards| == |lists| && forall x: string :: Copies(shards, x) == Copies(lists, x)
      invariant forall k :: 0 <= k < |lists| ==>
        Sum(shards[k], f) == Sum(lists[k], f) && multiset(shards[k]) == multiset(lists[k])
      invariant forall k :: 0 <= k < n ==> SortedBy(shards[k], TextLe)
    {
      var sorted := Sort(shards[n], TextLe);
      SortPermutes(shards[n], TextLe);
      SortSorts(shards[n], TextLe);
      SumPermutes(sorted, shards[n], f);
      forall x: string ensures Copies(shards[n := sorted], x) == Copies(shards, x) {
        CopiesReplace(shards, n, sorted, x);
      }
      shards := shards[n := sorted];
    }
  }
}
