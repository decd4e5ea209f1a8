/** One direction of the geo collector over any number of ticks (backend/app/collectors/geo_collector.py):
    which buckets a tick asks for, what it stores, and how far its watermark may follow. */
module GeoCollector {
  import opened Wrappers
  import opened KeyedSearch
  import opened KeyedRun
  import opened Buckets
  import opened GeoFold

  const FIRST_RUN_LOOKBACK_BUCKETS := 12

  datatype Config = Config(width: int, settle: int, maxBuckets: nat, maxRows: nat, maxCountries: nat, maxSearches: nat) {
    predicate Valid() { width > 0 && maxCountries >= 1 }
  }

  /** The watermark row of a direction, and the rows stored for it by bucket start. */
  datatype Direction = Direction(at: Option<int>, intervals: nat, failures: nat, failing: bool, stored: map<int, seq<StoredRow>>)

  const Fresh := Direction(None, 0, 0, false, map[])

  /** One tick: the clock, the provider during it, and the searches already spent by it. */
  datatype Tick = Tick(now: int, ask: Provider, used: nat)

  function Boundary(cfg: Config, now: int): int
    requires cfg.Valid()
  {
    FloorToBucket(now - cfg.settle, cfg.width)
  }

  function FirstStart(cfg: Config, at: Option<int>, boundary: int): int {
    match at
    case None => boundary - cfg.width * FIRST_RUN_LOOKBACK_BUCKETS
    case Some(last) => last + cfg.width
  }

  /** The settled buckets a tick asks for. */
  function Requested(cfg: Config, at: Option<int>, now: int): seq<int>
    requires cfg.Valid()
  {
    Starts(FirstStart(cfg, at, Boundary(cfg, now)), Boundary(cfg, now), cfg.width,
           if at.None? then FIRST_RUN_LOOKBACK_BUCKETS else cfg.maxBuckets)
  }

  /** What a tick's search leaves; None when the window is refused and the tick is abandoned. */
  function TickOutcomes(cfg: Config, at: Option<int>, tick: Tick): Option<seq<Outcome>>
    requires cfg.Valid()
  {
    var starts := Requested(cfg, at, tick.now);
    if starts == [] then Some([])
    else if ValidateWindow(starts[0], starts[|starts| - 1] + cfg.width, cfg.width).Err? then None
    else Some(Cells(Plan(starts[0], cfg.width, cfg.maxRows),
                    Leaves(Plan(starts[0], cfg.width, cfg.maxRows), tick.ask, cfg.maxSearches, tick.used, 0, |starts|, 0).0))
  }

  /** The searches spent once a direction had its turn. */
  function SpentAfter(cfg: Config, at: Option<int>, tick: Tick): nat
    requires cfg.Valid()
  {
    var starts := Requested(cfg, at, tick.now);
    if starts == [] then tick.used
    else Leaves(Plan(starts[0], cfg.width, cfg.maxRows), tick.ask, cfg.maxSearches, tick.used, 0, |starts|, 0).1
  }

  /** How many buckets are measured before the first that is not. */
  function MeasuredPrefix(outcomes: seq<Outcome>): (n: nat)
    ensures n <= |outcomes|
    ensures forall i :: 0 <= i < n ==> outcomes[i].state.Measured()
    ensures n < |outcomes| ==> !outcomes[n].state.Measured()
  {
    if |outcomes| == 0 || !outcomes[0].state.Measured() then 0 else 1 + MeasuredPrefix(outcomes[1..])
  }

  ghost function RowsFor(cfg: Config, classify: Classifier, o: Outcome): seq<StoredRow> {
    BucketRows(Folded(o.rows, classify, cfg.maxCountries), o.state.LowerBound?)
  }

  /** Every measured bucket's rows replace what was stored for it. */
  ghost function Stored(cfg: Config, classify: Classifier, stored: map<int, seq<StoredRow>>, outcomes: seq<Outcome>): map<int, seq<StoredRow>> {
    if |outcomes| == 0 then stored
    else
      var before, last := Stored(cfg, classify, stored, outcomes[..|outcomes| - 1]), outcomes[|outcomes| - 1];
      if last.state.Measured() then before[last.bucketStart := RowsFor(cfg, classify, last)] else before
  }

  ghost function Advanced(cfg: Config, classify: Classifier, d: Direction, outcomes: seq<Outcome>): Direction {
    var n := MeasuredPrefix(outcomes);
    var whole := n == |outcomes|;
    Direction(if n == 0 then d.at else Some(outcomes[n - 1].bucketStart), d.intervals + n,
              if whole then 0 else d.failures + 1, !whole, Stored(cfg, classify, d.stored, outcomes))
  }

  /** The direction after a tick. */
  ghost function After(cfg: Config, classify: Classifier, d: Direction, tick: Tick): Direction
    requires cfg.Valid()
  {
    match TickOutcomes(cfg, d.at, tick)
    case None => d
    case Some(outcomes) => Advanced(cfg, classify, d, outcomes)
  }

  ghost function AfterAll(cfg: Config, classify: Classifier, d: Direction, ticks: seq<Tick>): Direction
    requires cfg.Valid()
  {
    if |ticks| == 0 then d
    else After(cfg, classify, AfterAll(cfg, classify, d, ticks[..|ticks| - 1]), ticks[|ticks| - 1])
  }

  // ------------------------------------------------------------ one tick

  ghost predicate HasRows(stored: map<int, seq<StoredRow>>, at: int) { at in stored && stored[at] != [] }

  /** The `n` buckets ending at `last` all have rows. */
  ghost predicate Covered(stored: map<int, seq<StoredRow>>, last: int, width: int, n: nat)
    decreases n
  {
    n == 0 || (HasRows(stored, last) && Covered(stored, last - width, width, n - 1))
  }

  ghost predicate Inv(cfg: Config, d: Direction)
    requires cfg.Valid()
  {
    match d.at
    case None => d.intervals == 0
    case Some(last) => last % cfg.width == 0 && d.intervals >= 1 && Covered(d.stored, last, cfg.width, d.intervals)
  }

  lemma EveryBucketHasRows(cfg: Config, classify: Classifier, o: Outcome)
    ensures RowsFor(cfg, classify, o) != []
  {
    BucketRowsKeepTheBucket(o.rows, classify, cfg.maxCountries, o.state.LowerBound?);
  }

  lemma {:induction false} StoredKeeps(cfg: Config, classify: Classifier, stored: map<int, seq<StoredRow>>, outcomes: seq<Outcome>)
    ensures forall at :: HasRows(stored, at) ==> HasRows(Stored(cfg, classify, stored, outcomes), at)
    ensures forall i :: 0 <= i < |outcomes| && outcomes[i].state.Measured() ==>
              HasRows(Stored(cfg, classify, stored, outcomes), outcomes[i].bucketStart)
  {
    hide RowsFor;
    if |outcomes| > 0 {
      StoredKeeps(cfg, classify, stored, outcomes[..|outcomes| - 1]);
      EveryBucketHasRows(cfg, classify, outcomes[|outcomes| - 1]);
    }
  }

  lemma {:induction false} CoveredGrows(stored: map<int, seq<StoredRow>>, stored': map<int, seq<StoredRow>>, last: int, width: int, n: nat)
    requires Covered(stored, last, width, n)
    requires forall at :: HasRows(stored, at) ==> HasRows(stored', at)
    ensures Covered(stored', last, width, n)
    decreases n
  {
    if n > 0 {
      CoveredGrows(stored, stored', last - width, width, n - 1);
    }
  }

  lemma {:induction false} CoveredExtends(stored: map<int, seq<StoredRow>>, p: Plan, k: nat, n: nat)
    requires k >= 1 && Covered(stored, p.start - p.width, p.width, n)
    requires forall i: nat :: i < k ==> HasRows(stored, p.At(i))
    ensures Covered(stored, p.At(k - 1), p.width, n + k)
  {
    assert HasRows(stored, p.At(k - 1));
    if k > 1 {
      CoveredExtends(stored, p, k - 1, n);
      assert p.At(k - 1) - p.width == p.At(k - 2);
    } else {
      assert p.At(0) == p.start;
    }
  }

  lemma FirstStartIsAligned(cfg: Config, at: Option<int>, boundary: int)
    requires cfg.Valid() && boundary % cfg.width == 0 && (at.Some? ==> at.value % cfg.width == 0)
    ensures FirstStart(cfg, at, boundary) % cfg.width == 0
  {
    match at
    case None =>
      var q := boundary / cfg.width;
      assert boundary == cfg.width * q;
      assert boundary - cfg.width * 12 == cfg.width * (q - 12);
      DivisionIsUnique(boundary - cfg.width * 12, cfg.width, q - 12, 0);
    case Some(last) => OneMore(last, cfg.width);
  }

  /** A tick asks only for whole, aligned, settled buckets, the first right after the watermark. */
  lemma RequestIsWhole(cfg: Config, d: Direction, now: int)
    requires cfg.Valid() && Inv(cfg, d) && Requested(cfg, d.at, now) != []
    ensures var starts := Requested(cfg, d.at, now);
            var end := starts[|starts| - 1] + cfg.width;
            && starts[0] % cfg.width == 0 && starts[0] == FirstStart(cfg, d.at, Boundary(cfg, now))
            && end <= Boundary(cfg, now) && (end - starts[0]) / cfg.width == |starts|
            && ValidateWindow(starts[0], end, cfg.width)
            == if cfg.width * |starts| > MAX_WINDOW_SECONDS then Err(TooLong) else Ok((starts[0], end))
  {
    var boundary := Boundary(cfg, now);
    FloorIsAligned(now - cfg.settle, cfg.width);
    FirstStartIsAligned(cfg, d.at, boundary);
    hide Inv, FirstStart, FloorToBucket, Starts, ValidateWindow;
    var limit := if d.at.None? then FIRST_RUN_LOOKBACK_BUCKETS else cfg.maxBuckets;
    WindowLength(FirstStart(cfg, d.at, boundary), boundary, cfg.width, limit);
    WindowIsWhole(FirstStart(cfg, d.at, boundary), boundary, cfg.width, limit);
  }

  /** The outcomes of a tick are the requested buckets, in order. */
  lemma OutcomesFollowRequest(cfg: Config, d: Direction, tick: Tick)
    requires cfg.Valid() && Inv(cfg, d) && TickOutcomes(cfg, d.at, tick).Some?
    ensures var starts, outcomes := Requested(cfg, d.at, tick.now), TickOutcomes(cfg, d.at, tick).value;
            && |outcomes| == |starts|
            && forall i :: 0 <= i < |starts| ==>
                 outcomes[i].bucketStart == starts[i] == Plan(FirstStart(cfg, d.at, Boundary(cfg, tick.now)), cfg.width, cfg.maxRows).At(i)
                 && starts[i] + cfg.width <= Boundary(cfg, tick.now)
  {
    var boundary := Boundary(cfg, tick.now);
    var first, limit := FirstStart(cfg, d.at, boundary), if d.at.None? then FIRST_RUN_LOOKBACK_BUCKETS else cfg.maxBuckets;
    var starts := Requested(cfg, d.at, tick.now);
    StartsFollow(first, boundary, cfg.width, limit, Plan(first, cfg.width, cfg.maxRows));
    if starts != [] {
      RequestIsWhole(cfg, d, tick.now);
      OutcomesAreSound(Plan(first, cfg.width, cfg.maxRows), tick.ask, cfg.maxSearches, tick.used, |starts|);
    }
  }

  /** The watermark moves only forward, by whole buckets it counted, never past `boundary`. */
  ghost predicate Forward(cfg: Config, d: Direction, d': Direction, boundary: int) {
    && d.intervals <= d'.intervals
    && (d.at.Some? ==> d'.at.Some? && d'.at.value - d.at.value == cfg.width * (d'.intervals - d.intervals))
    && (d'.at != d.at ==> d'.at.Some? && d'.at.value + cfg.width <= boundary)
  }

  lemma AdvanceKeeps(cfg: Config, classify: Classifier, d: Direction, outcomes: seq<Outcome>, p: Plan, boundary: int)
    requires cfg.Valid() && Inv(cfg, d) && p.width == cfg.width
    requires d.at.Some? ==> p.start == d.at.value + cfg.width
    requires |outcomes| > 0 ==> p.start % cfg.width == 0
    requires forall i: nat :: i < |outcomes| ==> outcomes[i].bucketStart == p.At(i) && p.At(i) + cfg.width <= boundary
    ensures var d' := Advanced(cfg, classify, d, outcomes); Inv(cfg, d') && Forward(cfg, d, d', boundary)
  {
    var n, stored := MeasuredPrefix(outcomes), Stored(cfg, classify, d.stored, outcomes);
    StoredKeeps(cfg, classify, d.stored, outcomes);
    hide Stored, MeasuredPrefix;
    if n > 0 {
      forall i: nat | i < n ensures HasRows(stored, p.At(i)) {
        assert outcomes[i].state.Measured() && outcomes[i].bucketStart == p.At(i);
      }
      AdvanceCovers(cfg, d, stored, p, n);
      AlignedAt(p, n - 1);
      AtIsLinear(p, n - 1);
      assert outcomes[n - 1].bucketStart == p.At(n - 1);
      assert cfg.width * (n - 1) + cfg.width == cfg.width * n;
    } else if d.at.Some? {
      CoveredGrows(d.stored, stored, d.at.value, cfg.width, d.intervals);
    }
  }

  /** What every tick keeps: the coverage of the watermark, and that it only moves forward. */
  lemma TickKeepsWatermark(cfg: Config, classify: Classifier, d: Direction, tick: Tick)
    requires cfg.Valid() && Inv(cfg, d)
    ensures var d' := After(cfg, classify, d, tick); Inv(cfg, d') && Forward(cfg, d, d', Boundary(cfg, tick.now))
  {
    if TickOutcomes(cfg, d.at, tick).Some? {
      var outcomes := TickOutcomes(cfg, d.at, tick).value;
      OutcomesFollowRequest(cfg, d, tick);
      if outcomes != [] {
        RequestIsWhole(cfg, d, tick.now);
      }
      hide TickOutcomes, Requested, Advanced;
      AdvanceKeeps(cfg, classify, d, outcomes, Plan(FirstStart(cfg, d.at, Boundary(cfg, tick.now)), cfg.width, cfg.maxRows),
                   Boundary(cfg, tick.now));
    }
  }

  lemma AdvanceCovers(cfg: Config, d: Direction, stored: map<int, seq<StoredRow>>, p: Plan, n: nat)
    requires cfg.Valid() && Inv(cfg, d) && n >= 1 && p.width == cfg.width
    requires d.at.Some? ==> p.start == d.at.value + cfg.width
    requires forall at :: HasRows(d.stored, at) ==> HasRows(stored, at)
    requires forall i: nat :: i < n ==> HasRows(stored, p.At(i))
    ensures Covered(stored, p.At(n - 1), cfg.width, d.intervals + n)
  {
    if d.at.Some? {
      CoveredGrows(d.stored, stored, d.at.value, cfg.width, d.intervals);
    }
    CoveredExtends(stored, p, n, d.intervals);
  }

  // ------------------------------------------------------------ every run

  ghost function LatestBoundary(cfg: Config, ticks: seq<Tick>): int
    requires cfg.Valid() && |ticks| > 0
  {
    var last := Boundary(cfg, ticks[|ticks| - 1].now);
    if |ticks| == 1 then last
    else
      var before := LatestBoundary(cfg, ticks[..|ticks| - 1]);
      if before > last then before else last
  }

  /** Over any ticks of any provider: the `intervals` aligned buckets that end at the watermark were
      all measured and stored, none skipped; the watermark is settled. */
  lemma {:induction false} RunCoversEveryBucket(cfg: Config, classify: Classifier, ticks: seq<Tick>)
    requires cfg.Valid()
    ensures var d := AfterAll(cfg, classify, Fresh, ticks);
            Inv(cfg, d) && (d.at.Some? ==> |ticks| > 0 && d.at.value + cfg.width <= LatestBoundary(cfg, ticks))
  {
    if |ticks| > 0 {
      RunCoversEveryBucket(cfg, classify, ticks[..|ticks| - 1]);
      TickKeepsWatermark(cfg, classify, AfterAll(cfg, classify, Fresh, ticks[..|ticks| - 1]), ticks[|ticks| - 1]);
    }
  }

  /** From the first advance on the anchor, intervals buckets back from the watermark, never moves,
      and the watermark never decreases. */
  lemma {:induction false} RunKeepsTheAnchor(cfg: Config, classify: Classifier, d: Direction, ticks: seq<Tick>)
    requires cfg.Valid() && Inv(cfg, d) && d.at.Some?
    ensures var d' := AfterAll(cfg, classify, d, ticks);
            && Inv(cfg, d') && d'.at.Some? && d.at.value <= d'.at.value
            && d'.at.value - cfg.width * d'.intervals == d.at.value - cfg.width * d.intervals
  {
    hide Inv, After;
    if |ticks| > 0 {
      var before := AfterAll(cfg, classify, d, ticks[..|ticks| - 1]);
      RunKeepsTheAnchor(cfg, classify, d, ticks[..|ticks| - 1]);
      TickKeepsWatermark(cfg, classify, before, ticks[|ticks| - 1]);
      var after := After(cfg, classify, before, ticks[|ticks| - 1]);
      Telescopes(cfg.width, before.intervals, after.intervals);
    }
  }

  lemma Telescopes(width: int, m: nat, n: nat)
    requires width > 0 && m <= n
    ensures width * (n - m) == width * n - width * m && width * (n - m) >= 0
  {
  }

  lemma MeasuredFirstAdvances(cfg: Config, classify: Classifier, d: Direction, outcomes: seq<Outcome>)
    requires |outcomes| > 0 && outcomes[0].state.Measured()
    ensures Advanced(cfg, classify, d, outcomes).intervals > d.intervals
  {
  }

  /** A tick with work, an answering provider and floor(log2 n) + 1 searches left moves on. */
  lemma AnsweredTickAdvances(cfg: Config, classify: Classifier, d: Direction, tick: Tick)
    requires cfg.Valid() && Inv(cfg, d) && Requested(cfg, d.at, tick.now) != []
    requires cfg.width * |Requested(cfg, d.at, tick.now)| <= MAX_WINDOW_SECONDS
    requires Answers(TellerOf(Plan(FirstStart(cfg, d.at, Boundary(cfg, tick.now)), cfg.width, cfg.maxRows), tick.ask))
    requires tick.used + Log2(|Requested(cfg, d.at, tick.now)|) + 1 <= cfg.maxSearches
    ensures After(cfg, classify, d, tick).intervals > d.intervals
  {
    hide Requested, Cells, Leaves, Answers, TellerOf, FirstStart, Boundary, Log2, Advanced, ValidateWindow, Inv;
    var starts := Requested(cfg, d.at, tick.now);
    var p := Plan(FirstStart(cfg, d.at, Boundary(cfg, tick.now)), cfg.width, cfg.maxRows);
    var outcomes := Cells(p, Leaves(p, tick.ask, cfg.maxSearches, tick.used, 0, |starts|, 0).0);
    OldestOutcomeIsMeasured(p, tick.ask, cfg.maxSearches, tick.used, |starts|);
    MeasuredFirstAdvances(cfg, classify, d, outcomes);
    assert TickOutcomes(cfg, d.at, tick) == Some(outcomes) by {
      RequestIsWhole(cfg, d, tick.now);
    }
  }

  // ------------------------------------------------------ what is stored

  /** What a search of the bucket at `at` alone would store. */
  ghost function TrueRows(cfg: Config, classify: Classifier, truth: seq<Row>, at: int): seq<StoredRow> {
    var reply := AnswerOf(Plan(at, cfg.width, cfg.maxRows), truth, at, at + cfg.width);
    BucketRows(Folded(RowsOf(reply.rows, at), classify, cfg.maxCountries), reply.truncated)
  }

  ghost predicate StoresTruth(cfg: Config, classify: Classifier, truth: seq<Row>, stored: map<int, seq<StoredRow>>) {
    forall at :: at in stored ==> stored[at] == TrueRows(cfg, classify, truth, at)
  }

  ghost predicate TrueOutcome(cfg: Config, classify: Classifier, truth: seq<Row>, o: Outcome) {
    o.state.Measured() ==> RowsFor(cfg, classify, o) == TrueRows(cfg, classify, truth, o.bucketStart)
  }

  lemma {:induction false} StoringTruth(cfg: Config, classify: Classifier, truth: seq<Row>, stored: map<int, seq<StoredRow>>, outcomes: seq<Outcome>)
    requires StoresTruth(cfg, classify, truth, stored)
    requires forall i :: 0 <= i < |outcomes| ==> TrueOutcome(cfg, classify, truth, outcomes[i])
    ensures StoresTruth(cfg, classify, truth, Stored(cfg, classify, stored, outcomes))
  {
    hide RowsFor, TrueRows;
    if |outcomes| > 0 {
      StoringTruth(cfg, classify, truth, stored, outcomes[..|outcomes| - 1]);
      assert TrueOutcome(cfg, classify, truth, outcomes[|outcomes| - 1]);
    }
  }

  lemma AloneIsTrue(cfg: Config, classify: Classifier, truth: seq<Row>, p: Plan, i: nat, o: Outcome)
    requires p.width == cfg.width && p.maxRows == cfg.maxRows && o.bucketStart == p.At(i)
    requires o.state.Measured() ==> (o.state, o.rows) == Alone(p, truth, i)
    ensures TrueOutcome(cfg, classify, truth, o)
  {
    hide Folded, BucketRows, Window, RowsOf;
    assert p.At(i + 1) == p.At(i) + p.width;
  }

  lemma TickStoresTruth(cfg: Config, classify: Classifier, truth: seq<Row>, d: Direction, tick: Tick)
    requires cfg.Valid() && Inv(cfg, d) && StoresTruth(cfg, classify, truth, d.stored)
    requires Honest(Plan(0, cfg.width, cfg.maxRows), tick.ask, truth)
    ensures StoresTruth(cfg, classify, truth, After(cfg, classify, d, tick).stored)
  {
    if TickOutcomes(cfg, d.at, tick).Some? {
      var outcomes := TickOutcomes(cfg, d.at, tick).value;
      var p := Plan(FirstStart(cfg, d.at, Boundary(cfg, tick.now)), cfg.width, cfg.maxRows);
      OutcomesFollowRequest(cfg, d, tick);
      if outcomes != [] {
        RequestIsWhole(cfg, d, tick.now);
        assert Honest(p, tick.ask, truth) by { SameAnswers(Plan(0, cfg.width, cfg.maxRows), p, tick.ask, truth); }
        OutcomesAreExact(p, truth, tick.ask, cfg.maxSearches, tick.used, |outcomes|);
      }
      hide Requested, Cells, Leaves, Alone, TrueOutcome, FirstStart, Boundary;
      forall i | 0 <= i < |outcomes| ensures TrueOutcome(cfg, classify, truth, outcomes[i]) {
        AloneIsTrue(cfg, classify, truth, p, i, outcomes[i]);
      }
      StoringTruth(cfg, classify, truth, d.stored, outcomes);
    }
  }

  lemma SameAnswers(p: Plan, p': Plan, ask: Provider, truth: seq<Row>)
    requires p.maxRows == p'.maxRows && Honest(p, ask, truth)
    ensures Honest(p', ask, truth)
  {
    forall used: nat, lo: int, hi: int | ask(used, lo, hi).Answered?
      ensures ask(used, lo, hi) == AnswerOf(p', truth, lo, hi)
    {
      assert ask(used, lo, hi) == AnswerOf(p, truth, lo, hi);
    }
  }

  /** Over any ticks of providers that may fail, reject or truncate but answer about `truth`: every
      stored bucket, and so every bucket up to the watermark, is stored as a search of that bucket
      alone would store it. */
  lemma {:induction false} RunStoresTruth(cfg: Config, classify: Classifier, truth: seq<Row>, ticks: seq<Tick>)
    requires cfg.Valid()
    requires forall i :: 0 <= i < |ticks| ==> Honest(Plan(0, cfg.width, cfg.maxRows), ticks[i].ask, truth)
    ensures StoresTruth(cfg, classify, truth, AfterAll(cfg, classify, Fresh, ticks).stored)
  {
    if |ticks| > 0 {
      var init := ticks[..|ticks| - 1];
      RunStoresTruth(cfg, classify, truth, init);
      RunCoversEveryBucket(cfg, classify, init);
      TickStoresTruth(cfg, classify, truth, AfterAll(cfg, classify, Fresh, init), ticks[|ticks| - 1]);
    }
  }

  // ----------------------------------------------------------- the program

  /** What one tick did in one direction. */
  datatype Report = Report(attempted: nat, complete: nat, lowerBound: nat, failed: nat, notCollected: nat,
                           splits: nat, rowsWritten: nat, unparseableKeys: nat)

  function Counted(r: Report, o: Outcome): Report {
    var r := r.(attempted := r.attempted + 1);
    match o.state
    case Complete => r.(complete := r.complete + 1)
    case LowerBound => r.(lowerBound := r.lowerBound + 1)
    case NotCollected => r.(notCollected := r.notCollected + 1)
    case _ => r.(failed := r.failed + 1)
  }

  /** How far the clock is past the last bucket collected. */
  function LagOf(cfg: Config, at: int, now: int): nat { if now - (at + cfg.width) < 0 then 0 else now - (at + cfg.width) }

  /** The keys that could not be read, over the measured buckets. */
  function UnreadKeys(classify: Classifier, outcomes: seq<Outcome>): nat {
    if |outcomes| == 0 then 0
    else
      var last := outcomes[|outcomes| - 1];
      UnreadKeys(classify, outcomes[..|outcomes| - 1]) + if last.state.Measured() then |BadKeys(last.rows, classify)| else 0
  }

  /** The rows to write, bucket by bucket. */
  type Pending = seq<(int, seq<StoredRow>)>

  ghost function PendingOf(cfg: Config, classify: Classifier, outcomes: seq<Outcome>): Pending {
    if |outcomes| == 0 then []
    else
      var before, last := PendingOf(cfg, classify, outcomes[..|outcomes| - 1]), outcomes[|outcomes| - 1];
      if last.state.Measured() then before + [(last.bucketStart, RowsFor(cfg, classify, last))] else before
  }

  function PutAll(stored: map<int, seq<StoredRow>>, pending: Pending): map<int, seq<StoredRow>> {
    if |pending| == 0 then stored
    else PutAll(stored, pending[..|pending| - 1])[pending[|pending| - 1].0 := pending[|pending| - 1].1]
  }

  lemma {:induction false} PendingIsStored(cfg: Config, classify: Classifier, stored: map<int, seq<StoredRow>>, outcomes: seq<Outcome>)
    ensures PutAll(stored, PendingOf(cfg, classify, outcomes)) == Stored(cfg, classify, stored, outcomes)
  {
    if |outcomes| > 0 {
      var init, last := outcomes[..|outcomes| - 1], outcomes[|outcomes| - 1];
      PendingIsStored(cfg, classify, stored, init);
      if last.state.Measured() {
        var before := PendingOf(cfg, classify, init);
        assert (before + [(last.bucketStart, RowsFor(cfg, classify, last))])[..|before|] == before;
      }
    }
  }

  ghost predicate Mentions(pending: Pending, at: int) { exists i :: 0 <= i < |pending| && pending[i].0 == at }

  /** Deleting first what is about to be written changes nothing else. */
  lemma {:induction false} DeleteThenPut(stored: map<int, seq<StoredRow>>, pending: Pending, gone: set<int>, at: int)
    requires at in gone ==> Mentions(pending, at)
    ensures at in PutAll(stored - gone, pending) <==> at in PutAll(stored, pending)
    ensures at in PutAll(stored, pending) ==> PutAll(stored - gone, pending)[at] == PutAll(stored, pending)[at]
  {
    if |pending| > 0 {
      var init, last := pending[..|pending| - 1], pending[|pending| - 1];
      if at != last.0 {
        if Mentions(pending, at) {
          var i :| 0 <= i < |pending| && pending[i].0 == at;
          assert init[i].0 == at;
        }
        DeleteThenPut(stored, init, gone, at);
      }
    }
  }

  class GeoDirection {
    const cfg: Config
    const classify: Classifier
    var at: Option<int>
    var intervals: nat
    var failures: nat
    var failing: bool
    var lag: nat
    var stored: map<int, seq<StoredRow>>

    ghost function View(): Direction
      reads this
    {
      Direction(at, intervals, failures, failing, stored)
    }

    constructor (cfg: Config, classify: Classifier)
      ensures this.cfg == cfg && this.classify == classify && View() == Fresh
    {
      this.cfg, this.classify := cfg, classify;
      at, intervals, failures, failing, lag, stored := None, 0, 0, false, 0, map[];
    }

    /** One tick of the direction; a refused window abandons it. */
    method Collect(now: int, ask: Provider, budget: SearchBudget) returns (r: Result<Report, WindowError>)
      requires cfg.Valid() && budget.maxSearches == cfg.maxSearches
      modifies this, budget
      ensures View() == After(cfg, classify, old(View()), Tick(now, ask, old(budget.used)))
      ensures r.Err? <==> TickOutcomes(cfg, old(at), Tick(now, ask, old(budget.used))).None?
      ensures r.Ok? ==>
                && r.value.attempted == |TickOutcomes(cfg, old(at), Tick(now, ask, old(budget.used))).value|
                && r.value.attempted == r.value.complete + r.value.lowerBound + r.value.failed + r.value.notCollected
                && r.value.rowsWritten >= r.value.complete + r.value.lowerBound
                && r.value.unparseableKeys == UnreadKeys(classify, TickOutcomes(cfg, old(at), Tick(now, ask, old(budget.used))).value)
      ensures lag == if r.Ok? && at.Some? then LagOf(cfg, at.value, now) else old(lag)
      ensures r.Ok? ==> budget.used == SpentAfter(cfg, old(at), Tick(now, ask, old(budget.used)))
      ensures old(budget.used) <= budget.maxSearches ==> budget.used <= budget.maxSearches
    {
      hide TickOutcomes, SpentAfter, UnreadKeys, LagOf, PendingOf, PutAll, Stored;
      var found := SearchWindow(now, ask, budget);
      if found.Err? {
        return Err(found.error);
      }
      var outcomes := found.value.0;
      var report, pending := Gather(outcomes);
      AdvanceWatermark(outcomes);
      if at.Some? {
        lag := LagOf(cfg, at.value, now);
      }
      Write(pending);
      PendingIsStored(cfg, classify, old(stored), outcomes);
      r := Ok(report.(splits := found.value.1));
    }

    /** Search the settled buckets after the watermark. */
    method SearchWindow(now: int, ask: Provider, budget: SearchBudget) returns (r: Result<(seq<Outcome>, nat), WindowError>)
      requires cfg.Valid() && budget.maxSearches == cfg.maxSearches
      modifies budget
      ensures var found := TickOutcomes(cfg, at, Tick(now, ask, old(budget.used)));
              if r.Err? then found == None else found == Some(r.value.0)
      ensures r.Ok? ==> budget.used == SpentAfter(cfg, at, Tick(now, ask, old(budget.used)))
      ensures old(budget.used) <= budget.maxSearches ==> budget.used <= budget.maxSearches
    {
      hide Cells, Leaves, ValidateWindow, Starts, FloorToBucket, FirstStart;
      var boundary := Boundary(cfg, now);
      var starts := ListStarts(FirstStart(cfg, at, boundary), boundary, cfg.width,
                               if at.None? then FIRST_RUN_LOOKBACK_BUCKETS else cfg.maxBuckets);
      assert starts == Requested(cfg, at, now);
      if starts == [] {
        return Ok(([], 0));
      }
      WindowLength(FirstStart(cfg, at, boundary), boundary, cfg.width, if at.None? then FIRST_RUN_LOOKBACK_BUCKETS else cfg.maxBuckets);
      hide Requested;
      r := RunSearch(ask, starts[0], starts[|starts| - 1] + cfg.width, cfg.width, cfg.maxRows, budget);
    }

    /** Back to what it was before its turn, as a rollback leaves it. */
    method Restore(d: Direction, lag: nat)
      modifies this
      ensures View() == d && this.lag == lag
    {
      at, intervals, failures, failing, stored := d.at, d.intervals, d.failures, d.failing, d.stored;
      this.lag := lag;
    }

    /** Count the outcomes and fold the measured ones. */
    method Gather(outcomes: seq<Outcome>) returns (report: Report, pending: Pending)
      requires cfg.Valid()
      ensures pending == PendingOf(cfg, classify, outcomes)
      ensures report.attempted == |outcomes| == report.complete + report.lowerBound + report.failed + report.notCollected
      ensures report.rowsWritten >= |pending| == report.complete + report.lowerBound
      ensures report.unparseableKeys == UnreadKeys(classify, outcomes)
    {
      report, pending := Report(0, 0, 0, 0, 0, 0, 0, 0), [];
      for n := 0 to |outcomes|
        invariant pending == PendingOf(cfg, classify, outcomes[..n])
        invariant report.attempted == n == report.complete + report.lowerBound + report.failed + report.notCollected
        invariant report.rowsWritten >= |pending| == report.complete + report.lowerBound
        invariant report.unparseableKeys == UnreadKeys(classify, outcomes[..n])
      {
        var outcome := outcomes[n];
        assert outcomes[..n + 1][..n] == outcomes[..n];
        report := Counted(report, outcome);
        if outcome.state.Measured() {
          var fact := FoldBucket(outcome.rows, classify, cfg.maxCountries);
          var rows := BucketRows(fact, outcome.state.LowerBound?);
          BucketRowsKeepTheBucket(outcome.rows, classify, cfg.maxCountries, outcome.state.LowerBound?);
          pending := pending + [(outcome.bucketStart, rows)];
          report := report.(rowsWritten := report.rowsWritten + |rows|,
                            unparseableKeys := report.unparseableKeys + fact.unparseableKeys);
        }
      }
      assert outcomes[..|outcomes|] == outcomes;
    }

    /** Walk the outcomes up to the first gap; the mark stays before it. */
    method AdvanceWatermark(outcomes: seq<Outcome>)
      modifies this`at, this`intervals, this`failures, this`failing
      ensures var n := MeasuredPrefix(outcomes);
              && at == (if n == 0 then old(at) else Some(outcomes[n - 1].bucketStart))
              && intervals == old(intervals) + n
              && failing == (n < |outcomes|)
              && failures == if n < |outcomes| then old(failures) + 1 else 0
    {
      var advanced := 0;
      while advanced < |outcomes| && outcomes[advanced].state.Measured()
        invariant advanced <= |outcomes|
        invariant MeasuredPrefix(outcomes) == advanced + MeasuredPrefix(outcomes[advanced..])
        invariant at == if advanced == 0 then old(at) else Some(outcomes[advanced - 1].bucketStart)
        invariant intervals == old(intervals) && failures == old(failures)
      {
        at := Some(outcomes[advanced].bucketStart);
        advanced := advanced + 1;
        assert outcomes[advanced - 1..][1..] == outcomes[advanced..];
      }
      assert MeasuredPrefix(outcomes[advanced..]) == 0 by {
        assert advanced < |outcomes| ==> outcomes[advanced..][0] == outcomes[advanced];
      }
      intervals := intervals + advanced;
      if exists i :: 0 <= i < |outcomes| && !outcomes[i].state.Measured() {
        failures := failures + 1;
        failing := true;
      } else {
        failures := 0;
        failing := false;
      }
    }

    /** Drop what was stored for the pending buckets and store their rows. */
    method Write(pending: Pending)
      modifies this`stored
      ensures stored == PutAll(old(stored), pending)
    {
      if |pending| == 0 {
        return;
      }
      ghost var gone := set i | 0 <= i < |pending| :: pending[i].0;
      stored := stored - (set i | 0 <= i < |pending| :: pending[i].0);
      for n := 0 to |pending|
        invariant stored == PutAll(old(stored) - gone, pending[..n])
      {
        assert pending[..n + 1][..n] == pending[..n];
        stored := stored[pending[n].0 := pending[n].1];
      }
      assert pending[..|pending|] == pending;
      forall at ensures at in stored <==> at in PutAll(old(stored), pending)
        ensures at in stored ==> stored[at] == PutAll(old(stored), pending)[at]
      {
        DeleteThenPut(old(stored), pending, gone, at);
      }
    }
  }
}
