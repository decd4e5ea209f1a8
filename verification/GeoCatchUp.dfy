/** How a direction of the geo collector catches up over ticks, and when it cannot
    (backend/app/collectors/geo_collector.py, backend/app/collectors/bucketed_metrics.py). */
module GeoCatchUp {
  import opened Wrappers
  import opened KeyedSearch
  import opened Buckets
  import opened GeoFold
  import opened GeoCollector

  // ------------------------------------------------------------ catching up

  lemma {:induction false} Log2Grows(m: nat, n: nat)
    requires m <= n
    ensures Log2(m) <= Log2(n)
  {
    if n > 1 && m > 1 {
      Log2Grows(m / 2, n / 2);
    }
  }

  ghost predicate AlwaysAnswers(cfg: Config, ask: Provider) {
    forall start: int :: Answers(TellerOf(Plan(start, cfg.width, cfg.maxRows), ask))
  }

  /** A tick whose provider answers and that has searches enough for any window it may ask for. */
  ghost predicate Capable(cfg: Config, tick: Tick) {
    AlwaysAnswers(cfg, tick.ask) && tick.used + Log2(cfg.maxBuckets) + 1 <= cfg.maxSearches
  }

  lemma RequestIsLimited(cfg: Config, d: Direction, now: int)
    requires cfg.Valid() && d.at.Some?
    ensures |Requested(cfg, d.at, now)| <= cfg.maxBuckets
    ensures cfg.maxBuckets >= 1 && d.at.value + cfg.width + cfg.width <= Boundary(cfg, now) ==> Requested(cfg, d.at, now) != []
  {
    var boundary := Boundary(cfg, now);
    var first := FirstStart(cfg, d.at, boundary);
    StartsFollow(first, boundary, cfg.width, cfg.maxBuckets, Plan(first, cfg.width, 0));
  }

  lemma Scales(width: int, m: nat, n: nat)
    requires width > 0 && m <= n
    ensures width * m <= width * n && (m < n ==> width * m + width <= width * n)
  {
    if m < n {
      OrderedProducts(width, m, n);
    }
  }

  /** A capable tick behind `target` moves the watermark on by at least one bucket. */
  lemma CapableTickAdvances(cfg: Config, classify: Classifier, d: Direction, tick: Tick, target: int)
    requires cfg.Valid() && Inv(cfg, d) && d.at.Some? && cfg.maxBuckets >= 1
    requires cfg.width * cfg.maxBuckets <= MAX_WINDOW_SECONDS
    requires Capable(cfg, tick) && target <= Boundary(cfg, tick.now) && d.at.value + cfg.width < target && target % cfg.width == 0
    ensures var d' := After(cfg, classify, d, tick);
            Inv(cfg, d') && d'.at.Some? && d'.at.value >= d.at.value + cfg.width
  {
    hide Log2, Covered, Answers, TellerOf, Requested;
    NextAligned(cfg.width, d.at.value, target);
    RequestIsLimited(cfg, d, tick.now);
    var n := |Requested(cfg, d.at, tick.now)|;
    Log2Grows(n, cfg.maxBuckets);
    Scales(cfg.width, n, cfg.maxBuckets);
    assert Answers(TellerOf(Plan(FirstStart(cfg, d.at, Boundary(cfg, tick.now)), cfg.width, cfg.maxRows), tick.ask));
    AnsweredTickAdvances(cfg, classify, d, tick);
    TickKeepsWatermark(cfg, classify, d, tick);
    var d' := After(cfg, classify, d, tick);
    hide After;
    Scales(cfg.width, 1, d'.intervals - d.intervals);
  }

  lemma NextProduct(width: int, p: int, q: int)
    requires width > 0 && width * p + width < width * q
    ensures width * p + width + width <= width * q
  {
    assert width * (p + 1) == width * p + width;
    if p + 1 < q {
      OrderedProducts(width, p + 1, q);
    } else if q < p + 1 {
      OrderedProducts(width, q, p + 1);
    }
  }

  lemma NextAligned(width: int, a: int, b: int)
    requires width > 0 && a % width == 0 && b % width == 0 && a + width < b
    ensures a + width + width <= b
  {
    NextProduct(width, a / width, b / width);
  }

  /** Catch-up: with capable ticks after `target` has settled, each gains at least one bucket until the
      watermark is there; so as many ticks as buckets are missing bring it there. */
  lemma {:induction false} CatchesUp(cfg: Config, classify: Classifier, d: Direction, ticks: seq<Tick>, target: int)
    requires cfg.Valid() && Inv(cfg, d) && d.at.Some? && cfg.maxBuckets >= 1 && target % cfg.width == 0
    requires cfg.width * cfg.maxBuckets <= MAX_WINDOW_SECONDS
    requires forall i :: 0 <= i < |ticks| ==> Capable(cfg, ticks[i]) && target <= Boundary(cfg, ticks[i].now)
    ensures var d' := AfterAll(cfg, classify, d, ticks);
            && Inv(cfg, d') && d'.at.Some?
            && (d'.at.value + cfg.width >= target || d'.at.value >= d.at.value + cfg.width * |ticks|)
    ensures d.at.value + cfg.width * |ticks| + cfg.width >= target ==>
            AfterAll(cfg, classify, d, ticks).at.value + cfg.width >= target
  {
    hide Inv, Capable, After, Boundary;
    if |ticks| > 0 {
      var init, last := ticks[..|ticks| - 1], ticks[|ticks| - 1];
      CatchesUp(cfg, classify, d, init, target);
      var m := AfterAll(cfg, classify, d, init);
      if m.at.value + cfg.width < target {
        CapableTickAdvances(cfg, classify, m, last, target) by { AlignedMark(cfg, m); }
        assert cfg.width * |ticks| == cfg.width * |init| + cfg.width;
      } else {
        TickKeepsWatermark(cfg, classify, m, last);
        Scales(cfg.width, 0, After(cfg, classify, m, last).intervals - m.intervals);
      }
    }
  }

  lemma AlignedMark(cfg: Config, d: Direction)
    requires cfg.Valid() && Inv(cfg, d) && d.at.Some?
    ensures d.at.value % cfg.width == 0
  {
  }

  // -------------------------------------------------------- a window refused

  /** The tick's window is longer than the safety bound, and is refused. */
  ghost predicate Refused(cfg: Config, d: Direction, now: int)
    requires cfg.Valid()
  {
    cfg.width * |Requested(cfg, d.at, now)| > MAX_WINDOW_SECONDS
  }

  lemma {:induction false} StartsLength(first: int, boundary: int, width: int, limit: nat)
    requires width > 0 && first + width * limit <= boundary
    ensures |Starts(first, boundary, width, limit)| == limit
    decreases limit
  {
    if limit > 0 {
      assert width * limit == width * (limit - 1) + width;
      Scales(width, 0, limit - 1);
      StartsLength(first + width, boundary, width, limit - 1);
    }
  }

  lemma {:induction false} StartsGrow(first: int, boundary: int, later: int, width: int, limit: nat)
    requires boundary <= later
    ensures |Starts(first, boundary, width, limit)| <= |Starts(first, later, width, limit)|
    decreases limit
  {
    if first + width <= boundary && limit > 0 {
      StartsGrow(first + width, boundary, later, width, limit - 1);
    }
  }

  lemma FirstRunAsksForAll(cfg: Config, now: int)
    requires cfg.Valid()
    ensures |Requested(cfg, None, now)| == FIRST_RUN_LOOKBACK_BUCKETS
  {
    var boundary := Boundary(cfg, now);
    StartsLength(boundary - cfg.width * FIRST_RUN_LOOKBACK_BUCKETS, boundary, cfg.width, FIRST_RUN_LOOKBACK_BUCKETS);
  }

  /** A later tick asks for no less. */
  lemma RequestGrows(cfg: Config, d: Direction, now: int, later: int)
    requires cfg.Valid() && now <= later
    ensures |Requested(cfg, d.at, now)| <= |Requested(cfg, d.at, later)|
  {
    if d.at.None? {
      FirstRunAsksForAll(cfg, now);
      FirstRunAsksForAll(cfg, later);
    } else {
      FloorIsMonotone(now - cfg.settle, later - cfg.settle, cfg.width);
      StartsGrow(d.at.value + cfg.width, Boundary(cfg, now), Boundary(cfg, later), cfg.width, cfg.maxBuckets);
    }
  }

  lemma RefusedChangesNothing(cfg: Config, classify: Classifier, d: Direction, tick: Tick)
    requires cfg.Valid() && Inv(cfg, d) && Refused(cfg, d, tick.now)
    ensures After(cfg, classify, d, tick) == d
  {
    hide Cells, Inv;
    assert Requested(cfg, d.at, tick.now) != [];
    RequestIsWhole(cfg, d, tick.now);
  }

  /** A direction whose window was refused once is stuck: every later tick is refused too, and nothing
      is ever collected for it again. */
  lemma {:induction false} RefusedForEver(cfg: Config, classify: Classifier, d: Direction, now: int, ticks: seq<Tick>)
    requires cfg.Valid() && Inv(cfg, d) && Refused(cfg, d, now)
    requires forall i :: 0 <= i < |ticks| ==> now <= ticks[i].now
    ensures AfterAll(cfg, classify, d, ticks) == d
    ensures forall i :: 0 <= i < |ticks| ==> Refused(cfg, d, ticks[i].now)
  {
    hide Inv, After;
    if |ticks| > 0 {
      var last := ticks[|ticks| - 1];
      RefusedForEver(cfg, classify, d, now, ticks[..|ticks| - 1]);
      RequestGrows(cfg, d, now, last.now);
      Scales(cfg.width, |Requested(cfg, d.at, now)|, |Requested(cfg, d.at, last.now)|);
      RefusedChangesNothing(cfg, classify, d, last);
    }
  }

  ghost predicate NeverRefused(cfg: Config)
    requires cfg.Valid()
  {
    forall d: Direction, now: int :: Inv(cfg, d) ==> !Refused(cfg, d, now)
  }

  /** A direction with one bucket collected, at 0. */
  const OneCollected := Direction(Some(0), 1, 0, false, map[0 := [StoredRow(Remainder(UnresolvedRest), 0, false)]])

  lemma FarBehind(cfg: Config)
    requires cfg.Valid()
    ensures Inv(cfg, OneCollected)
    ensures |Requested(cfg, OneCollected.at, cfg.settle + cfg.width * (cfg.maxBuckets + 1))| == cfg.maxBuckets
  {
    assert HasRows(OneCollected.stored, 0);
    assert Covered(OneCollected.stored, 0, cfg.width, 1);
    var x := cfg.width * (cfg.maxBuckets + 1);
    DivisionIsUnique(x, cfg.width, cfg.maxBuckets + 1, 0);
    assert Boundary(cfg, cfg.settle + x) == x;
    assert cfg.width + cfg.width * cfg.maxBuckets == x;
    StartsLength(cfg.width, x, cfg.width, cfg.maxBuckets);
  }

  /** Exactly the configurations that can never get stuck: both the largest catch-up window and the first
      one fit the safety bound. */
  lemma NeverRefusedIff(cfg: Config)
    requires cfg.Valid()
    ensures NeverRefused(cfg) <==>
            cfg.width * cfg.maxBuckets <= MAX_WINDOW_SECONDS && cfg.width * FIRST_RUN_LOOKBACK_BUCKETS <= MAX_WINDOW_SECONDS
  {
    hide Requested, Inv;
    FarBehind(cfg);
    FirstRunAsksForAll(cfg, 0);
    assert Inv(cfg, Fresh) by { FreshIsSound(cfg); }
    assert NeverRefused(cfg) ==>
      !Refused(cfg, Fresh, 0) && !Refused(cfg, OneCollected, cfg.settle + cfg.width * (cfg.maxBuckets + 1));
    if cfg.width * cfg.maxBuckets <= MAX_WINDOW_SECONDS && cfg.width * FIRST_RUN_LOOKBACK_BUCKETS <= MAX_WINDOW_SECONDS {
      forall d: Direction, now: int | Inv(cfg, d) ensures !Refused(cfg, d, now) {
        if d.at.None? {
          FirstRunAsksForAll(cfg, now);
        } else {
          RequestIsLimited(cfg, d, now);
          Scales(cfg.width, |Requested(cfg, d.at, now)|, cfg.maxBuckets);
        }
      }
    }
  }

  lemma FreshIsSound(cfg: Config)
    requires cfg.Valid()
    ensures Inv(cfg, Fresh)
  {
  }
}
