/** The volume verdict (`_volume` and its expected band in backend/app/anomaly/detectors.py), in exact
    arithmetic: every guard must pass before a drop or a spike is called. */
module Volume {
  import opened Reals
  import opened Wrappers
  import Sort = Sorting
  import Stats = Statistics
  import opened IncidentEngine

  datatype Direction = Spike | Drop

  datatype Thresholds = Thresholds(
    minBucketEvents: real, spikeRatio: real, dropRatio: real, minAbsoluteDelta: real, deviationZ: real)

  /** The seasonal cell; its percentiles may be missing. */
  datatype Cell = Cell(median: real, mad: real, p05: Option<real>, p95: Option<real>, reliable: bool)

  /** The bucket without its rate: whether it is whole, the cell it is judged by, its width. */
  datatype Context = Context(complete: bool, cell: Option<Cell>, seconds: real, floorRatio: real)

  function Spread(c: Cell, floorRatio: real): real { MaxReal(Abs(c.median) * floorRatio, Stats.EPSILON) }

  function Lower(c: Cell, floorRatio: real): real { if c.p05.Some? then c.p05.value else c.median - Spread(c, floorRatio) }

  function Upper(c: Cell, floorRatio: real): real { if c.p95.Some? then c.p95.value else c.median + Spread(c, floorRatio) }

  function Events(eps: real, ctx: Context): real { eps * ctx.seconds }

  function Judge(ctx: Context, t: Thresholds, eps: real, d: Direction): Verdict {
    if !ctx.complete then NoData
    else if ctx.cell.None? then NoData
    else if !ctx.cell.value.reliable then NoData
    else
      var cell := ctx.cell.value;
      var observed, expected := Events(eps, ctx), Events(cell.median, ctx);
      var delta := observed - expected;
      var subject := if d.Spike? then observed else expected;
      if subject < t.minBucketEvents then Good
      else
        var ratio := Stats.Ratio(eps, cell.median);
        if ratio.None? && d.Drop? then Good
        else if ratio.Some? && !(if d.Spike? then ratio.value >= t.spikeRatio else ratio.value <= t.dropRatio) then Good
        else
          var directional := if d.Spike? then delta else -delta;
          if directional < t.minAbsoluteDelta then Good
          else
            var (z, status) := Stats.RobustZWithStatus(eps, cell.median, cell.mad, ctx.floorRatio);
            if status.Usable? then
              if (if d.Spike? then z >= t.deviationZ else z <= -t.deviationZ) then Bad else Good
            else
              if (if d.Spike? then eps > Upper(cell, ctx.floorRatio) else eps < Lower(cell, ctx.floorRatio)) then Bad else Good
  }

  /** A bucket has a width and a rate has no sign. */
  ghost predicate Physical(ctx: Context) {
    ctx.seconds > 0.0 && (ctx.cell.Some? ==> ctx.cell.value.median >= 0.0)
  }

  lemma EventsRise(ctx: Context, x: real, y: real)
    requires Physical(ctx) && x <= y
    ensures Events(x, ctx) <= Events(y, ctx)
  {
    Rectangle(ctx.seconds, y - x);
    assert (y - x) * ctx.seconds == y * ctx.seconds - x * ctx.seconds;
  }

  lemma RatiosRise(x: real, y: real, median: real)
    requires median >= 0.0 && x <= y
    ensures var (p, q) := (Stats.Ratio(x, median), Stats.Ratio(y, median));
            p.None? == q.None? && (p.Some? ==> p.value <= q.value)
  {
    if median > 0.0 {
      Stats.Quotients(x, y, median);
    }
  }

  /** A spike at some rate is a spike at every higher one. */
  lemma SpikeIsUpwardClosed(ctx: Context, t: Thresholds, x: real, y: real)
    requires Physical(ctx) && x <= y && Judge(ctx, t, x, Spike).Bad?
    ensures Judge(ctx, t, y, Spike).Bad?
  {
    hide Stats.RobustZ, Stats.Ratio, Events, Spread;
    var cell := ctx.cell.value;
    EventsRise(ctx, x, y);
    RatiosRise(x, y, cell.median);
    Stats.RobustZIsMonotone(x, y, cell.median, cell.mad, ctx.floorRatio);
  }

  /** A drop at some rate is a drop at every lower one. */
  lemma DropIsDownwardClosed(ctx: Context, t: Thresholds, x: real, y: real)
    requires Physical(ctx) && y <= x && Judge(ctx, t, x, Drop).Bad?
    ensures Judge(ctx, t, y, Drop).Bad?
  {
    hide Stats.RobustZ, Stats.Ratio, Events, Spread;
    var cell := ctx.cell.value;
    EventsRise(ctx, y, x);
    RatiosRise(y, x, cell.median);
    Stats.RobustZIsMonotone(y, x, cell.median, cell.mad, ctx.floorRatio);
  }

  lemma EventsRiseStrictly(ctx: Context, x: real, y: real)
    requires Physical(ctx) && x < y
    ensures Events(x, ctx) < Events(y, ctx)
  {
    Stats.Strictly(ctx.seconds, x, y);
  }

  // ------------------------------------------------------ a spike and a drop

  ghost predicate BothFire(ctx: Context, t: Thresholds, eps: real) {
    Judge(ctx, t, eps, Spike).Bad? && Judge(ctx, t, eps, Drop).Bad?
  }

  /** With a positive minimum delta a spike is above the median and a drop below it. */
  lemma VerdictsTakeSides(ctx: Context, t: Thresholds, eps: real)
    requires Physical(ctx) && t.minAbsoluteDelta > 0.0
    ensures Judge(ctx, t, eps, Spike).Bad? ==> eps > ctx.cell.value.median
    ensures Judge(ctx, t, eps, Drop).Bad? ==> eps < ctx.cell.value.median
  {
    hide Stats.RobustZ, Stats.Ratio, Events, Spread;
    if ctx.cell.Some? {
      var median := ctx.cell.value.median;
      if eps <= median {
        EventsRise(ctx, eps, median);
      }
      if eps >= median {
        EventsRise(ctx, median, eps);
      }
    }
  }

  /** Ratio thresholds that do not overlap exclude it whatever the other thresholds are; the settings
      only admit a spike ratio above 1 and a drop ratio below 1. */
  lemma SeparateRatiosExcludeBoth(ctx: Context, t: Thresholds, eps: real)
    requires t.spikeRatio > t.dropRatio
    ensures !BothFire(ctx, t, eps)
  {
    hide Stats.RobustZ, Events, Spread;
  }

  /** The percentiles of a stored cell lie around its median. */
  ghost predicate Coherent(ctx: Context) {
    ctx.cell.Some? ==>
      && (ctx.cell.value.p05.Some? ==> ctx.cell.value.p05.value <= ctx.cell.value.median)
      && (ctx.cell.value.p95.Some? ==> ctx.cell.value.median <= ctx.cell.value.p95.value)
  }

  ghost predicate NeverBoth(t: Thresholds) {
    forall ctx: Context, eps: real :: Physical(ctx) && Coherent(ctx) && eps >= 0.0 ==> !BothFire(ctx, t, eps)
  }

  /** No guard tells a spike from a drop at the median: no delta is asked for, 1 passes both ratios and 0
      is a large enough score. */
  predicate NoGuardSeparates(t: Thresholds) {
    t.minAbsoluteDelta <= 0.0 && t.spikeRatio <= 1.0 <= t.dropRatio && t.deviationZ <= 0.0
  }

  /** A rate above the median, `spikeRatio` times it, that is both in a bucket just wide enough. */
  predicate BothAbove(t: Thresholds) {
    t.spikeRatio > 1.0 && MaxReal(t.minBucketEvents, 0.0) * (t.spikeRatio - 1.0) <= -t.minAbsoluteDelta
  }

  /** A rate below the median, `dropRatio` times it, that is both in a bucket just wide enough. */
  predicate BothBelow(t: Thresholds) {
    && 0.0 <= t.dropRatio < 1.0
    && MaxReal(t.minBucketEvents, 0.0) * (1.0 - t.dropRatio) <= -t.minAbsoluteDelta * t.dropRatio
  }

  /** No guard tells a spike from a drop at some rate: at the median, or, when the deviation may have the
      wrong sign and the delta as well, beside it. */
  predicate Overlap(t: Thresholds) {
    || NoGuardSeparates(t)
    || (t.minAbsoluteDelta < 0.0 && t.deviationZ < 0.0 && t.spikeRatio <= t.dropRatio && (BothAbove(t) || BothBelow(t)))
  }

  lemma MedianScoresNothing(median: real, mad: real, floorRatio: real)
    ensures Stats.RobustZ(median, median, mad, floorRatio) == 0.0
    ensures median > 0.0 ==> Stats.Ratio(median, median) == Some(1.0)
    ensures median == 0.0 ==> Stats.Ratio(median, median).None?
  {
    Stats.RobustZIsMonotone(median, median, median, mad, floorRatio);
    hide Stats.RobustZ;
    if median > 0.0 {
      var q := median / median;
      assert q * median == median;
      if q < 1.0 {
        Stats.Strictly(median, q, 1.0);
      } else if q > 1.0 {
        Stats.Strictly(median, 1.0, q);
      }
    }
  }

  lemma BandHoldsTheMedian(ctx: Context)
    requires Coherent(ctx) && ctx.cell.Some?
    ensures Lower(ctx.cell.value, ctx.floorRatio) <= ctx.cell.value.median <= Upper(ctx.cell.value, ctx.floorRatio)
  {
  }

  lemma ScoreHasSign(eps: real, median: real, mad: real, floorRatio: real)
    ensures eps > median ==> Stats.RobustZ(eps, median, mad, floorRatio) > 0.0
    ensures eps < median ==> Stats.RobustZ(eps, median, mad, floorRatio) < 0.0
  {
    var scale := Stats.EffectiveScale(median, mad, floorRatio);
    var z := Stats.RobustZ(eps, median, mad, floorRatio);
    hide Stats.EffectiveScale;
    assert z * scale == eps - median;
  }

  /** What a spike and a drop of one rate say together. */
  lemma BothSay(ctx: Context, t: Thresholds, eps: real)
    requires Physical(ctx) && Coherent(ctx) && BothFire(ctx, t, eps)
    ensures var c := ctx.cell.value;
            && c.median > 0.0 && t.spikeRatio <= eps / c.median <= t.dropRatio
            && Events(eps, ctx) >= t.minBucketEvents && Events(c.median, ctx) >= t.minBucketEvents
            && t.minAbsoluteDelta <= Events(eps, ctx) - Events(c.median, ctx) <= -t.minAbsoluteDelta
            && t.deviationZ <= Stats.RobustZ(eps, c.median, c.mad, ctx.floorRatio) <= -t.deviationZ
  {
    BandHoldsTheMedian(ctx);
    hide Stats.RobustZ, Events, Lower, Upper;
  }

  lemma AboveTheMedian(t: Thresholds, observed: real, expected: real, r: real)
    requires expected > 0.0 && expected >= t.minBucketEvents && t.spikeRatio <= r <= t.dropRatio && r > 1.0
    requires observed == r * expected && observed - expected <= -t.minAbsoluteDelta
    ensures t.spikeRatio <= 1.0 <= t.dropRatio || BothAbove(t)
  {
    if t.spikeRatio > 1.0 {
      Scaled(t.spikeRatio - 1.0, r - 1.0, expected);
      Scaled(MaxReal(t.minBucketEvents, 0.0), expected, t.spikeRatio - 1.0);
    }
  }

  lemma Scaled(a: real, b: real, c: real)
    requires a <= b && c >= 0.0
    ensures a * c <= b * c
  {
    Rectangle(b - a, c);
    assert (b - a) * c == b * c - a * c;
  }

  lemma BelowTheMedian(t: Thresholds, observed: real, expected: real, r: real)
    requires expected > 0.0 && observed >= t.minBucketEvents && t.spikeRatio <= r <= t.dropRatio && 0.0 <= r < 1.0
    requires observed == r * expected && expected - observed <= -t.minAbsoluteDelta
    ensures t.spikeRatio <= 1.0 <= t.dropRatio || BothBelow(t)
  {
    if t.dropRatio < 1.0 {
      Rectangle(r, expected);
      Scaled(r, t.dropRatio, expected);
      BelowSlack(t.dropRatio, MaxReal(t.minBucketEvents, 0.0), observed, expected, -t.minAbsoluteDelta);
    }
  }

  lemma BelowSlack(d: real, low: real, observed: real, expected: real, slack: real)
    requires 0.0 <= d < 1.0 && low <= observed <= d * expected && expected - observed <= slack
    ensures low * (1.0 - d) <= slack * d
  {
    var x, y := observed * (1.0 - d), (expected - observed) * d;
    assert low * (1.0 - d) <= x by { Scaled(low, observed, 1.0 - d); }
    assert y <= slack * d by { Scaled(expected - observed, slack, d); }
    assert x <= y by { BelowSums(d, observed, expected); }
  }

  lemma BelowSums(d: real, observed: real, expected: real)
    requires observed <= d * expected
    ensures observed * (1.0 - d) <= (expected - observed) * d
  {
    assert observed * (1.0 - d) == observed - d * observed;
    assert (expected - observed) * d == d * expected - d * observed;
  }

  lemma RatioOfEvents(eps: real, median: real, ctx: Context)
    requires Physical(ctx) && median > 0.0
    ensures Events(eps, ctx) == eps / median * Events(median, ctx) && Events(median, ctx) > 0.0
  {
    var r := eps / median;
    assert r * median == eps;
    assert Events(eps, ctx) == r * Events(median, ctx) by { Regroup(r, median, ctx.seconds); }
    Stats.Strictly(ctx.seconds, 0.0, median);
  }

  lemma RatioSide(eps: real, median: real)
    requires median > 0.0
    ensures eps > median ==> eps / median > 1.0
    ensures 0.0 <= eps < median ==> 0.0 <= eps / median < 1.0
  {
    var r := eps / median;
    assert r * median == eps;
    Side(r, eps, median);
  }

  lemma Regroup(a: real, b: real, c: real)
    ensures a * b * c == a * (b * c)
  {
  }

  lemma Side(r: real, product: real, median: real)
    requires median > 0.0 && r * median == product
    ensures product > median ==> r > 1.0
    ensures product < median ==> r < 1.0
    ensures product >= 0.0 ==> r >= 0.0
  {
    if r <= 1.0 { Scaled(r, 1.0, median); }
    if r >= 1.0 { Scaled(1.0, r, median); }
    if r < 0.0 { Stats.Strictly(median, r, 0.0); }
  }

  /** A rate that is both leaves no guard that separates. */
  lemma BothFireNeedsOverlap(ctx: Context, t: Thresholds, eps: real)
    requires Physical(ctx) && Coherent(ctx) && BothFire(ctx, t, eps) && eps >= 0.0
    ensures Overlap(t)
  {
    var c := ctx.cell.value;
    BothSay(ctx, t, eps);
    ScoreHasSign(eps, c.median, c.mad, ctx.floorRatio);
    RatioOfEvents(eps, c.median, ctx);
    RatioSide(eps, c.median);
    MedianScoresNothing(c.median, c.mad, ctx.floorRatio);
    var r, observed, expected := eps / c.median, Events(eps, ctx), Events(c.median, ctx);
    hide BothFire, Stats.RobustZ, Events, BothAbove, BothBelow;
    if eps > c.median {
      AboveTheMedian(t, observed, expected, r);
      Stats.Strictly(expected, 1.0, r);
    } else if eps < c.median {
      BelowTheMedian(t, observed, expected, r);
      Stats.Strictly(expected, r, 1.0);
    }
  }

  /** A bucket wide enough for the minimum volume, at the median of a cell that varies. */
  function AtTheMedian(t: Thresholds): Context {
    Context(true, Some(Cell(1.0, 1.0, None, None, true)), MaxReal(1.0, t.minBucketEvents), 0.0)
  }

  lemma NoGuardLetsBothFire(t: Thresholds)
    requires NoGuardSeparates(t)
    ensures Physical(AtTheMedian(t)) && Coherent(AtTheMedian(t)) && BothFire(AtTheMedian(t), t, 1.0)
  {
    MedianScoresNothing(1.0, 1.0, 0.0);
    hide Stats.RobustZ;
  }

  /** A bucket of `seconds` in a cell around 1 that varies so much that `eps` scores within `z` of 0. */
  function Wild(eps: real, seconds: real, z: real): Context
    requires z > 0.0
  {
    Context(true, Some(Cell(1.0, MaxReal(1.0, Abs(eps - 1.0) / z), None, None, true)), seconds, 0.0)
  }

  lemma WildScore(eps: real, mad: real, z: real)
    requires z > 0.0 && mad >= 1.0 && mad >= Abs(eps - 1.0) / z
    ensures -z <= Stats.RobustZ(eps, 1.0, mad, 0.0) <= z
  {
    var scale := Stats.EffectiveScale(1.0, mad, 0.0);
    var q := Stats.RobustZ(eps, 1.0, mad, 0.0);
    assert scale >= mad;
    hide Stats.EffectiveScale, Stats.RobustZ;
    assert q * scale == eps - 1.0 by { ScoreTimesScale(eps, mad); }
    assert Abs(eps - 1.0) <= scale * z by {
      assert Abs(eps - 1.0) / z * z == Abs(eps - 1.0);
      Scaled(Abs(eps - 1.0) / z, scale, z);
    }
    Unscaled(q, z, scale);
    Unscaled(-q, z, scale);
  }

  lemma Unscaled(x: real, y: real, scale: real)
    requires scale > 0.0 && x * scale <= scale * y
    ensures x <= y
  {
    if x > y {
      Stats.Strictly(scale, y, x);
    }
  }

  lemma ScoreTimesScale(eps: real, mad: real)
    ensures Stats.RobustZ(eps, 1.0, mad, 0.0) * Stats.EffectiveScale(1.0, mad, 0.0) == eps - 1.0
  {
    hide Stats.EffectiveScale;
  }

  lemma WildFires(t: Thresholds, eps: real, seconds: real)
    requires t.deviationZ < 0.0 && seconds > 0.0 && t.spikeRatio <= eps <= t.dropRatio
    requires eps * seconds >= t.minBucketEvents && seconds >= t.minBucketEvents
    requires t.minAbsoluteDelta <= eps * seconds - seconds <= -t.minAbsoluteDelta
    ensures var ctx := Wild(eps, seconds, -t.deviationZ); Physical(ctx) && Coherent(ctx) && BothFire(ctx, t, eps)
  {
    var ctx := Wild(eps, seconds, -t.deviationZ);
    WildScore(eps, ctx.cell.value.mad, -t.deviationZ);
    assert Stats.Ratio(eps, 1.0) == Some(eps);
    assert Events(eps, ctx) == eps * seconds && Events(1.0, ctx) == seconds;
    hide Stats.RobustZ, Stats.Ratio, Events;
  }

  lemma AboveFires(t: Thresholds)
    requires t.minAbsoluteDelta < 0.0 && t.deviationZ < 0.0 && t.spikeRatio <= t.dropRatio && BothAbove(t)
    ensures !NeverBoth(t)
  {
    var seconds := WidthAbove(t.spikeRatio, t.minBucketEvents, -t.minAbsoluteDelta);
    hide Wild, BothFire;
    WildFires(t, t.spikeRatio, seconds);
  }

  lemma BelowFires(t: Thresholds)
    requires t.minAbsoluteDelta < 0.0 && t.deviationZ < 0.0 && t.spikeRatio <= t.dropRatio && BothBelow(t)
    ensures !NeverBoth(t)
  {
    var seconds := WidthBelow(t.dropRatio, t.minBucketEvents, -t.minAbsoluteDelta);
    hide Wild, BothFire;
    WildFires(t, t.dropRatio, seconds);
  }

  /** A positive width whose product with `share` is `slack`. */
  lemma WidthOf(share: real, slack: real) returns (seconds: real)
    requires share > 0.0 && slack > 0.0
    ensures seconds > 0.0 && seconds * share == slack
  {
    seconds := slack / share;
    assert seconds * share == slack;
    if seconds <= 0.0 {
      Scaled(seconds, 0.0, share);
    }
  }

  lemma WidthAbove(s: real, low: real, slack: real) returns (seconds: real)
    requires s > 1.0 && slack > 0.0 && MaxReal(low, 0.0) * (s - 1.0) <= slack
    ensures seconds > 0.0 && seconds >= low && s * seconds >= low && 0.0 <= s * seconds - seconds <= slack
  {
    if low > 0.0 {
      seconds := low;
    } else {
      seconds := WidthOf(s - 1.0, slack);
    }
    assert seconds * (s - 1.0) == s * seconds - seconds;
    Rectangle(seconds, s - 1.0);
  }

  lemma WidthBelow(d: real, low: real, slack: real) returns (seconds: real)
    requires 0.0 <= d < 1.0 && slack > 0.0 && MaxReal(low, 0.0) * (1.0 - d) <= slack * d
    ensures seconds > 0.0 && seconds >= low && d * seconds >= low && 0.0 <= seconds - d * seconds <= slack
  {
    if low > 0.0 {
      assert d != 0.0;
      seconds := WidthOf(d, low);
      WidthFits(d, low, slack, seconds);
    } else {
      seconds := WidthOf(1.0 - d, slack);
      assert seconds * (1.0 - d) == seconds - d * seconds;
      Rectangle(d, seconds);
    }
  }

  lemma WidthFits(d: real, low: real, slack: real, seconds: real)
    requires 0.0 < d < 1.0 && seconds > 0.0 && seconds * d == low && low * (1.0 - d) <= slack * d
    ensures 0.0 <= seconds - d * seconds <= slack
  {
    var spare := seconds * (1.0 - d);
    assert spare == seconds - d * seconds;
    Rectangle(seconds, 1.0 - d);
    assert spare * d == low * (1.0 - d) by { Swap(seconds, 1.0 - d, d); }
    Unscaled(spare, slack, d);
  }

  lemma Swap(a: real, b: real, c: real)
    ensures a * b * c == a * c * b
  {
  }

  /** Exactly when no rate can be both a spike and a drop, for any thresholds: when some guard separates
      the two. */
  lemma NeverBothIff(t: Thresholds)
    ensures NeverBoth(t) <==> !Overlap(t)
  {
    hide Judge, BothFire;
    if Overlap(t) {
      if NoGuardSeparates(t) {
        NoGuardLetsBothFire(t);
      } else if BothAbove(t) {
        AboveFires(t);
      } else {
        BelowFires(t);
      }
    } else {
      forall ctx: Context, eps: real | Physical(ctx) && Coherent(ctx) && eps >= 0.0 ensures !BothFire(ctx, t, eps) {
        if BothFire(ctx, t, eps) {
          BothFireNeedsOverlap(ctx, t, eps);
        }
      }
    }
  }

  /** For the minimum delta that the settings admit (at least 0) one guard alone is enough. */
  lemma AnyGuardExcludesBoth(t: Thresholds)
    requires t.minAbsoluteDelta >= 0.0
    ensures NeverBoth(t) <==>
            t.minAbsoluteDelta > 0.0 || t.spikeRatio > 1.0 || t.dropRatio < 1.0 || t.deviationZ > 0.0
  {
    NeverBothIff(t);
  }

  /** Every threshold of `u` is at least as strict as that of `t`. */
  ghost predicate Stricter(u: Thresholds, t: Thresholds) {
    && u.minBucketEvents >= t.minBucketEvents && u.spikeRatio >= t.spikeRatio && u.dropRatio <= t.dropRatio
    && u.minAbsoluteDelta >= t.minAbsoluteDelta && u.deviationZ >= t.deviationZ
  }

  /** Making thresholds stricter never creates a verdict, in either direction, whether the score is
      usable or the expected band stands in for it. */
  lemma StricterNeverCreates(ctx: Context, t: Thresholds, u: Thresholds, eps: real, d: Direction)
    requires Stricter(u, t) && Judge(ctx, u, eps, d).Bad?
    ensures Judge(ctx, t, eps, d).Bad?
  {
    hide Stats.RobustZ, Stats.Ratio, Events, Spread;
  }

  /** The verdict when the score is degenerate: the guards and the expected band. */
  ghost predicate OutsideBand(ctx: Context, t: Thresholds, eps: real, d: Direction)
    requires ctx.cell.Some? && ctx.cell.value.p05.Some? && ctx.cell.value.p95.Some? && ctx.cell.value.median > 0.0
  {
    var c := ctx.cell.value;
    if d.Spike? then
      Events(eps, ctx) >= t.minBucketEvents && eps / c.median >= t.spikeRatio
      && Events(eps, ctx) - Events(c.median, ctx) >= t.minAbsoluteDelta && eps > c.p95.value
    else
      Events(c.median, ctx) >= t.minBucketEvents && eps / c.median <= t.dropRatio
      && Events(c.median, ctx) - Events(eps, ctx) >= t.minAbsoluteDelta && eps < c.p05.value
  }

  lemma DegenerateIsBand(ctx: Context, t: Thresholds, eps: real, d: Direction)
    requires ctx.complete && ctx.cell.Some? && ctx.cell.value.reliable && ctx.cell.value.mad == 0.0
    requires ctx.cell.value.p05.Some? && ctx.cell.value.p95.Some? && ctx.cell.value.median > 0.0
    ensures Judge(ctx, t, eps, d).Bad? <==> OutsideBand(ctx, t, eps, d)
  {
    hide Stats.RobustZ, Events, Spread;
  }

  /** A steady source is not blind: when more than half of its samples sit at the median, the verdict is
      the guards and the expected band alone, and the band contains the median. */
  lemma SteadySourceIsJudgedByItsBand(values: seq<real>, minSamples: int, ctx: Context, t: Thresholds, eps: real, d: Direction)
    requires |values| > 0 && |values| >= minSamples && ctx.complete && ctx.cell.Some?
    requires var c := Stats.Summarize(values, minSamples);
             ctx.cell.value == Cell(c.median, c.mad, Some(c.p05), Some(c.p95), c.reliable) && c.median > 0.0
    requires 2 * Sort.Count(values, Stats.Equals(ctx.cell.value.median)) > |values|
    ensures Judge(ctx, t, eps, d).Bad? <==> OutsideBand(ctx, t, eps, d)
    ensures ctx.cell.value.p05.value <= ctx.cell.value.median <= ctx.cell.value.p95.value
  {
    hide Judge, OutsideBand, Stats.Summarize, Sort.Count;
    Stats.SummaryIsCoherent(values, minSamples);
    DegenerateIsBand(ctx, t, eps, d);
  }

  /** Without percentiles the band is still wider than the median alone, so that a steady source is not
      out of bounds for any difference at all. */
  lemma MissingPercentilesLeaveABand(c: Cell, floorRatio: real)
    requires c.p05.None? && c.p95.None?
    ensures Lower(c, floorRatio) < c.median < Upper(c, floorRatio)
    ensures Upper(c, floorRatio) - c.median == c.median - Lower(c, floorRatio)
  {
  }
}
