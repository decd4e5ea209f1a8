/** Rebuilding a source's seasonal baseline (backend/app/anomaly/baseline.py and the rules it shares in
    backend/app/anomaly/seasonal.py): which buckets may train it, and the cells they fall into. */
module Baseline {
  import opened Sorting
  import opened Wrappers
  import opened Statistics
  import Engine = IncidentEngine
  import Runs = IncidentRuns

  datatype Metric = Metric(start: int, end: int, complete: bool, eps: real, events: real)

  datatype Observation = Observation(start: int, eps: real, events: real)

  datatype Source = Source(maintenance: bool, maintenanceUntil: Option<int>, businessOnly: bool, expectedActive: int -> bool)

  /** Why candidate buckets were dropped. */
  datatype Tally = Tally(maintenance: nat, offHours: nat, knownAnomaly: nat, incomplete: nat, unfinished: nat) {
    function Total(): nat { maintenance + offHours + knownAnomaly + incomplete + unfinished }
  }

  datatype Reason = Maintenance | OffHours | KnownAnomaly | Incomplete | Unfinished

  /** A closed interval. */
  datatype Span = Span(low: int, high: int)

  predicate InMaintenance(start: int, source: Source) {
    source.maintenance && (source.maintenanceUntil.None? || start <= source.maintenanceUntil.value)
  }

  predicate InAnySpan(when: int, spans: seq<Span>) { exists s :: s in spans && s.low <= when <= s.high }

  /** The span an incident removes; an incident that starts after the window removes nothing. */
  function SpansOf(incidents: seq<Engine.Incident>, end: int): seq<Span> {
    if |incidents| == 0 then []
    else
      (if incidents[0].detectedAt < end then [Span(incidents[0].detectedAt, Runs.ExclusionEnd(incidents[0], end))] else [])
      + SpansOf(incidents[1..], end)
  }

  function ExclusionReason(start: int, source: Source, spans: seq<Span>): Option<Reason> {
    if InMaintenance(start, source) then Some(Maintenance)
    else if source.businessOnly && !source.expectedActive(start) then Some(OffHours)
    else if InAnySpan(start, spans) then Some(KnownAnomaly)
    else None
  }

  /** Why a bucket is dropped; the first reason that applies is the one it is charged to. */
  function Dropped(m: Metric, source: Source, spans: seq<Span>, end: int): Option<Reason> {
    if m.end > end then Some(Unfinished)
    else if !m.complete then Some(Incomplete)
    else ExclusionReason(m.start, source, spans)
  }

  /** What a bucket must be to train a baseline. */
  ghost predicate Clean(m: Metric, source: Source, spans: seq<Span>, end: int) {
    && m.end <= end && m.complete && !InMaintenance(m.start, source)
    && (source.businessOnly ==> source.expectedActive(m.start))
    && (forall i :: 0 <= i < |spans| ==> !(spans[i].low <= m.start <= spans[i].high))
  }

  lemma KeptIffClean(m: Metric, source: Source, spans: seq<Span>, end: int)
    ensures Dropped(m, source, spans, end).None? <==> Clean(m, source, spans, end)
  {
    if InAnySpan(m.start, spans) {
      var s :| s in spans && s.low <= m.start <= s.high;
      var i :| 0 <= i < |spans| && spans[i] == s;
    } else {
      assert forall i :: 0 <= i < |spans| ==> spans[i] in spans;
    }
  }

  function Observed(m: Metric): Observation { Observation(m.start, m.eps, m.events) }

  function Kept(rows: seq<Metric>, source: Source, spans: seq<Span>, end: int): seq<Observation> {
    if |rows| == 0 then []
    else
      var last := rows[|rows| - 1];
      Kept(rows[..|rows| - 1], source, spans, end) + if Dropped(last, source, spans, end).None? then [Observed(last)] else []
  }

  function Charge(t: Tally, r: Reason): Tally {
    match r
    case Maintenance => t.(maintenance := t.maintenance + 1)
    case OffHours => t.(offHours := t.offHours + 1)
    case KnownAnomaly => t.(knownAnomaly := t.knownAnomaly + 1)
    case Incomplete => t.(incomplete := t.incomplete + 1)
    case Unfinished => t.(unfinished := t.unfinished + 1)
  }

  function Charged(rows: seq<Metric>, source: Source, spans: seq<Span>, end: int): Tally {
    if |rows| == 0 then Tally(0, 0, 0, 0, 0)
    else
      var before, why := Charged(rows[..|rows| - 1], source, spans, end), Dropped(rows[|rows| - 1], source, spans, end);
      if why.Some? then Charge(before, why.value) else before
  }

  lemma ChargeAddsOne(t: Tally, r: Reason)
    ensures Charge(t, r).Total() == t.Total() + 1
  {
  }

  /** Every candidate is kept or charged to exactly one reason. */
  lemma {:induction false} EveryCandidateAccounted(rows: seq<Metric>, source: Source, spans: seq<Span>, end: int)
    ensures |Kept(rows, source, spans, end)| + Charged(rows, source, spans, end).Total() == |rows|
  {
    hide Dropped, Charge, Observed;
    if |rows| > 0 {
      var init, why := rows[..|rows| - 1], Dropped(rows[|rows| - 1], source, spans, end);
      EveryCandidateAccounted(init, source, spans, end);
      if why.Some? {
        ChargeAddsOne(Charged(init, source, spans, end), why.value);
        assert Kept(rows, source, spans, end) == Kept(init, source, spans, end);
      } else {
        assert Charged(rows, source, spans, end) == Charged(init, source, spans, end);
      }
    }
  }

  /** What trains the baseline: the clean candidates, all of them. */
  lemma {:induction false} KeptAreClean(rows: seq<Metric>, source: Source, spans: seq<Span>, end: int, o: Observation)
    ensures o in Kept(rows, source, spans, end) <==>
            exists i :: 0 <= i < |rows| && Observed(rows[i]) == o && Clean(rows[i], source, spans, end)
  {
    if |rows| > 0 {
      var init, last := rows[..|rows| - 1], rows[|rows| - 1];
      KeptAreClean(init, source, spans, end, o);
      KeptIffClean(last, source, spans, end);
      hide Clean, Dropped;
      if i :| 0 <= i < |rows| && Observed(rows[i]) == o && Clean(rows[i], source, spans, end) {
        assert i < |init| ==> init[i] == rows[i];
      }
      if i :| 0 <= i < |init| && Observed(init[i]) == o && Clean(init[i], source, spans, end) {
        assert rows[i] == init[i];
      }
    }
  }

  method LoadClean(rows: seq<Metric>, incidents: seq<Engine.Incident>, source: Source, end: int)
    returns (observations: seq<Observation>, tally: Tally, candidates: nat)
    ensures observations == Kept(rows, source, SpansOf(incidents, end), end)
    ensures tally == Charged(rows, source, SpansOf(incidents, end), end)
    ensures candidates == |rows| == |observations| + tally.Total()
  {
    var excluded := SpansOf(incidents, end);
    observations, tally := [], Tally(0, 0, 0, 0, 0);
    for i := 0 to |rows|
      invariant observations == Kept(rows[..i], source, excluded, end)
      invariant tally == Charged(rows[..i], source, excluded, end)
    {
      var m := rows[i];
      assert rows[..i + 1][..i] == rows[..i];
      if m.end > end {
        tally := tally.(unfinished := tally.unfinished + 1);
        continue;
      }
      if !m.complete {
        tally := tally.(incomplete := tally.incomplete + 1);
        continue;
      }
      var reason := ExclusionReason(m.start, source, excluded);
      if reason.Some? {
        tally := Charge(tally, reason.value);
        continue;
      }
      observations := observations + [Observation(m.start, m.eps, m.events)];
    }
    assert rows[..|rows|] == rows;
    EveryCandidateAccounted(rows, source, excluded, end);
    candidates := |rows|;
  }

  // ------------------------------------------------------------------ the cells

  datatype MetricName = AverageEps | EventCount

  datatype Key = Key(metric: MetricName, weekday: int, hour: int)

  const DAY := 86400
  const HOUR := 3600

  /** (ISO weekday, hour) in UTC of a time in seconds since the epoch, which was a Thursday. */
  function SeasonalKey(start: int): (k: (int, int))
    ensures 1 <= k.0 <= 7 && 0 <= k.1 <= 23
  {
    ((start / DAY + 3) % 7 + 1, (start / HOUR) % 24)
  }

  function ValueOf(o: Observation, metric: MetricName): real {
    match metric
    case AverageEps => o.eps
    case EventCount => o.events
  }

  /** The values of one cell, oldest first. */
  function ValuesAt(observations: seq<Observation>, key: Key): seq<real> {
    if |observations| == 0 then []
    else
      var last := observations[|observations| - 1];
      ValuesAt(observations[..|observations| - 1], key)
      + if SeasonalKey(last.start) == (key.weekday, key.hour) then [ValueOf(last, key.metric)] else []
  }

  /** The cells as the rebuild collects them: exactly those that got a value. */
  ghost predicate Collects(cells: map<Key, seq<real>>, observations: seq<Observation>) {
    forall key: Key :: (key in cells <==> ValuesAt(observations, key) != []) &&
                       (key in cells ==> cells[key] == ValuesAt(observations, key))
  }

  function Put(cells: map<Key, seq<real>>, key: Key, value: real): map<Key, seq<real>> {
    cells[key := (if key in cells then cells[key] else []) + [value]]
  }

  lemma PutCollects(cells: map<Key, seq<real>>, observations: seq<Observation>, o: Observation)
    requires Collects(cells, observations)
    ensures var (weekday, hour) := SeasonalKey(o.start);
            Collects(Put(Put(cells, Key(AverageEps, weekday, hour), o.eps), Key(EventCount, weekday, hour), o.events),
                     observations + [o])
  {
    hide SeasonalKey;
    var (weekday, hour) := SeasonalKey(o.start);
    var after := Put(Put(cells, Key(AverageEps, weekday, hour), o.eps), Key(EventCount, weekday, hour), o.events);
    assert (observations + [o])[..|observations + [o]| - 1] == observations;
    forall key: Key
      ensures (key in after <==> ValuesAt(observations + [o], key) != []) &&
              (key in after ==> after[key] == ValuesAt(observations + [o], key))
    {
      hide ValuesAt;
      assert ValuesAt(observations + [o], key) == ValuesAt(observations, key)
        + (if SeasonalKey(o.start) == (key.weekday, key.hour) then [ValueOf(o, key.metric)] else []) by { ValuesSnoc(observations, o, key); }
    }
  }

  lemma ValuesSnoc(observations: seq<Observation>, o: Observation, key: Key)
    ensures ValuesAt(observations + [o], key) == ValuesAt(observations, key)
            + if SeasonalKey(o.start) == (key.weekday, key.hour) then [ValueOf(o, key.metric)] else []
  {
    assert (observations + [o])[..|observations + [o]| - 1] == observations;
  }

  method GroupCells(observations: seq<Observation>) returns (cells: map<Key, seq<real>>)
    ensures Collects(cells, observations)
  {
    hide Collects;
    cells := map[];
    NothingCollected();
    for i := 0 to |observations|
      invariant Collects(cells, observations[..i])
    {
      var o := observations[i];
      var (weekday, hour) := SeasonalKey(o.start);
      PutCollects(cells, observations[..i], o);
      assert observations[..i + 1] == observations[..i] + [o];
      cells := Put(cells, Key(AverageEps, weekday, hour), o.eps);
      cells := Put(cells, Key(EventCount, weekday, hour), o.events);
    }
    assert observations[..|observations|] == observations;
  }

  lemma NothingCollected()
    ensures Collects(map[], [])
  {
  }

  /** The cell numbered `slot`, counting the hours of the week from Monday. */
  function SlotKey(metric: MetricName, slot: nat): Key { Key(metric, slot / 24 + 1, slot % 24) }

  function CellsBelow(observations: seq<Observation>, metric: MetricName, n: nat): nat {
    if n == 0 then 0 else CellsBelow(observations, metric, n - 1) + |ValuesAt(observations, SlotKey(metric, n - 1))|
  }

  function SlotOf(start: int): (slot: nat)
    ensures slot < 168
  {
    (SeasonalKey(start).0 - 1) * 24 + SeasonalKey(start).1
  }

  lemma SlotIsKey(start: int, slot: nat, metric: MetricName)
    requires slot < 168
    ensures SeasonalKey(start) == (SlotKey(metric, slot).weekday, SlotKey(metric, slot).hour) <==> SlotOf(start) == slot
  {
  }

  lemma {:induction false} OneMoreBelow(observations: seq<Observation>, o: Observation, metric: MetricName, n: nat)
    requires n <= 168
    ensures CellsBelow(observations + [o], metric, n) == CellsBelow(observations, metric, n) + if SlotOf(o.start) < n then 1 else 0
  {
    hide SeasonalKey, SlotOf, ValuesAt;
    if n > 0 {
      var slot := n - 1;
      OneMoreBelow(observations, o, metric, slot);
      ValuesSnoc(observations, o, SlotKey(metric, slot));
      SlotIsKey(o.start, slot, metric);
    }
  }

  /** The 168 cells of a metric share out the observations: each goes to exactly one. */
  lemma {:induction false} CellsPartition(observations: seq<Observation>, metric: MetricName)
    ensures CellsBelow(observations, metric, 168) == |observations|
  {
    if |observations| == 0 {
      NoCells(metric, 168);
    } else {
      var init, last := observations[..|observations| - 1], observations[|observations| - 1];
      CellsPartition(init, metric);
      OneMoreBelow(init, last, metric, 168);
      assert init + [last] == observations;
    }
  }

  lemma {:induction false} NoCells(metric: MetricName, n: nat)
    ensures CellsBelow([], metric, n) == 0
  {
    if n > 0 {
      NoCells(metric, n - 1);
    }
  }

  // ---------------------------------------------------------------- the rebuild

  /** The completeness of a rebuild: kept over candidates, and 0 without any. */
  function RetainedFraction(retained: nat, candidates: nat): real {
    if candidates == 0 then 0.0 else retained as real / candidates as real
  }

  lemma FractionIsShare(retained: nat, candidates: nat)
    requires retained <= candidates
    ensures 0.0 <= RetainedFraction(retained, candidates) <= 1.0
    ensures candidates > 0 ==> (RetainedFraction(retained, candidates) == 1.0 <==> retained == candidates)
  {
    if candidates > 0 {
      var c, r := candidates as real, retained as real;
      var f := r / c;
      assert f * c == r;
      if f < 0.0 { Strictly(c, f, 0.0); }
      if f > 1.0 { Strictly(c, 1.0, f); }
    }
  }

  datatype Cell = Cell(summary: CellSummary, windowStart: int, windowEnd: int, completeness: real, excluded: Tally)

  function InWindow(metrics: seq<Metric>, low: int, high: int): seq<Metric> {
    if |metrics| == 0 then []
    else InWindow(metrics[..|metrics| - 1], low, high)
         + if low <= metrics[|metrics| - 1].start < high then [metrics[|metrics| - 1]] else []
  }

  /** The observations a rebuild at `now` trains on. */
  function Training(metrics: seq<Metric>, incidents: seq<Engine.Incident>, source: Source, lookback: nat, now: int): seq<Observation> {
    Kept(InWindow(metrics, now - lookback, now), source, SpansOf(incidents, now), now)
  }

  class BaselineBuilder {
    var cells: map<Key, Cell>

    constructor ()
      ensures cells == map[]
    {
      cells := map[];
    }

    /** Recompute every cell that has observations; the other stored cells stay. */
    method RebuildForSource(metrics: seq<Metric>, incidents: seq<Engine.Incident>, source: Source,
                            lookback: nat, minSamples: int, now: int) returns (written: nat)
      modifies this
      ensures var trained := Training(metrics, incidents, source, lookback, now);
              && (forall key: Key :: key in cells <==> key in old(cells) || ValuesAt(trained, key) != [])
              && (forall key: Key :: key in cells ==>
                    if ValuesAt(trained, key) == [] then key in old(cells) && cells[key] == old(cells)[key]
                    else cells[key].summary == Summarize(ValuesAt(trained, key), minSamples)
                         && cells[key].completeness == RetainedFraction(|trained|, |InWindow(metrics, now - lookback, now)|))
    {
      hide Kept, Charged, InWindow, ValuesAt, SpansOf, Summarize;
      var rows := InWindow(metrics, now - lookback, now);
      var observations, tally, candidates := LoadClean(rows, incidents, source, now);
      var grouped := GroupCells(observations);
      var completeness := RetainedFraction(|observations|, candidates);
      var rebuilt := map key | key in grouped && grouped[key] != [] ::
        Cell(Summarize(grouped[key], minSamples), now - lookback, now, completeness, tally);
      cells := cells + rebuilt;
      written := |rebuilt|;
    }
  }

  lemma {:induction false} SpanIsListed(incidents: seq<Engine.Incident>, end: int, i: nat)
    requires i < |incidents| && incidents[i].detectedAt < end
    ensures Span(incidents[i].detectedAt, Runs.ExclusionEnd(incidents[i], end)) in SpansOf(incidents, end)
  {
    if i > 0 {
      SpanIsListed(incidents[1..], end, i - 1);
    }
  }

  lemma {:induction false} InWindowIsBefore(metrics: seq<Metric>, low: int, high: int)
    ensures forall m :: m in InWindow(metrics, low, high) ==> low <= m.start < high
  {
    if |metrics| > 0 {
      InWindowIsBefore(metrics[..|metrics| - 1], low, high);
    }
  }

  /** A bucket in the span of an incident the rebuild sees does not train it. */
  lemma ExcludedNeverTrains(
      metrics: seq<Metric>, incidents: seq<Engine.Incident>, id: nat, source: Source, lookback: nat, now: int, o: Observation)
    requires id < |incidents| && Runs.AlwaysExcluded(incidents[id], o.start)
    ensures o !in Training(metrics, incidents, source, lookback, now)
  {
    hide SpansOf, InWindow, Kept, Charged;
    var rows := InWindow(metrics, now - lookback, now);
    if o in Training(metrics, incidents, source, lookback, now) {
      KeptAreClean(rows, source, SpansOf(incidents, now), now, o);
      var i :| 0 <= i < |rows| && Observed(rows[i]) == o && Clean(rows[i], source, SpansOf(incidents, now), now);
      InWindowIsBefore(metrics, now - lookback, now);
      assert rows[i] in rows;
      SpanIsListed(incidents, now, id);
      assert false;
    }
  }

  /** No anomalous bucket trains its own baseline: take any run of a detector and any anomalous bucket
      of it charged to an incident; no rebuild afterwards that reads the incident rows trains on it,
      whatever else is stored, whenever it runs and however the source is configured. */
  lemma ChargedBucketNeverTrains(
      buckets: seq<Engine.Bucket>, k: nat, metrics: seq<Metric>, others: seq<Engine.Incident>, source: Source,
      lookback: nat, now: int, o: Observation)
    requires forall i :: 0 <= i < |buckets| ==> buckets[i].start <= buckets[i].now
    requires k < |Runs.Charges(Engine.Initial, buckets)|
    requires o.start == Runs.Charges(Engine.Initial, buckets)[k].1
    ensures o !in Training(metrics, Engine.Run(Engine.Initial, buckets).incidents + others, source, lookback, now)
  {
    hide Engine.Run, Runs.Charges, Runs.AlwaysExcluded, Training, Runs.Bounded;
    Runs.ChargesStayCovered(buckets);
    var m := Engine.Run(Engine.Initial, buckets);
    var charge := Runs.Charges(Engine.Initial, buckets)[k];
    assert Runs.Covered(m, charge);
    assert (m.incidents + others)[charge.0] == m.incidents[charge.0];
    ExcludedNeverTrains(metrics, m.incidents + others, charge.0, source, lookback, now, o);
  }

  // ------------------------------------------- exactly which ones train it

  /** Clean but for the incidents. */
  ghost predicate Eligible(m: Metric, source: Source, end: int) {
    && m.end <= end && m.complete && !InMaintenance(m.start, source) && (source.businessOnly ==> source.expectedActive(m.start))
  }

  /** The observation comes from an eligible candidate of the rebuild. */
  ghost predicate Candidate(metrics: seq<Metric>, source: Source, lookback: nat, now: int, o: Observation) {
    exists m :: m in InWindow(metrics, now - lookback, now) && Observed(m) == o && Eligible(m, source, now)
  }

  ghost predicate Holds(spans: seq<Span>, at: int) {
    exists i :: 0 <= i < |spans| && spans[i].low <= at <= spans[i].high
  }

  lemma HoldsJoin(a: seq<Span>, b: seq<Span>, at: int)
    ensures Holds(a + b, at) <==> Holds(a, at) || Holds(b, at)
  {
    if i :| 0 <= i < |a| && a[i].low <= at <= a[i].high {
      assert (a + b)[i] == a[i];
    }
    if i :| 0 <= i < |b| && b[i].low <= at <= b[i].high {
      var j := |a| + i;
      assert (a + b)[j] == b[i];
    }
  }

  lemma ExcludedJoin(a: seq<Engine.Incident>, b: seq<Engine.Incident>, at: int)
    ensures Runs.Excluded(a + b, at) <==> Runs.Excluded(a, at) || Runs.Excluded(b, at)
  {
    hide Runs.AlwaysExcluded;
    if i :| 0 <= i < |a| && Runs.AlwaysExcluded(a[i], at) {
      assert (a + b)[i] == a[i];
    }
    if i :| 0 <= i < |b| && Runs.AlwaysExcluded(b[i], at) {
      var j := |a| + i;
      assert (a + b)[j] == b[i];
    }
  }

  lemma {:induction false} SpansExclude(incidents: seq<Engine.Incident>, end: int, at: int)
    requires at < end
    ensures Holds(SpansOf(incidents, end), at) <==> Runs.Excluded(incidents, at)
  {
    if |incidents| > 0 {
      var first, rest := incidents[0], incidents[1..];
      var span := if first.detectedAt < end then [Span(first.detectedAt, Runs.ExclusionEnd(first, end))] else [];
      SpansExclude(rest, end, at);
      Runs.SpanIsSettled(first, at, end);
      HoldsJoin(span, SpansOf(rest, end), at);
      ExcludedJoin([first], rest, at);
      assert [first] + rest == incidents;
      OneSpan(first, span, end, at);
      hide SpansOf, Runs.Excluded, Holds;
      assert SpansOf(incidents, end) == span + SpansOf(rest, end) by { SpansUnfold(incidents, end); }
    }
  }

  lemma SpansUnfold(incidents: seq<Engine.Incident>, end: int)
    requires |incidents| > 0
    ensures SpansOf(incidents, end) ==
            (if incidents[0].detectedAt < end then [Span(incidents[0].detectedAt, Runs.ExclusionEnd(incidents[0], end))] else [])
            + SpansOf(incidents[1..], end)
  {
  }

  lemma OneSpan(first: Engine.Incident, span: seq<Span>, end: int, at: int)
    requires at < end
    requires span == if first.detectedAt < end then [Span(first.detectedAt, Runs.ExclusionEnd(first, end))] else []
    ensures Holds(span, at) <==> Runs.Excluded([first], at)
  {
    Runs.SpanIsSettled(first, at, end);
    hide Runs.ExclusionEnd;
    if Runs.AlwaysExcluded(first, at) {
      assert span[0].low <= at <= span[0].high && Runs.AlwaysExcluded([first][0], at);
    }
  }

  /** An eligible candidate trains the baseline exactly when no incident's span holds it. */
  lemma TrainsIffNotExcluded(
      metrics: seq<Metric>, incidents: seq<Engine.Incident>, source: Source, lookback: nat, now: int, o: Observation)
    ensures o in Training(metrics, incidents, source, lookback, now) <==>
            Candidate(metrics, source, lookback, now, o) && !Runs.Excluded(incidents, o.start)
  {
    hide SpansOf, InWindow, Kept, Runs.Excluded;
    var rows := InWindow(metrics, now - lookback, now);
    KeptAreClean(rows, source, SpansOf(incidents, now), now, o);
    InWindowIsBefore(metrics, now - lookback, now);
    if i :| 0 <= i < |rows| && Observed(rows[i]) == o && Clean(rows[i], source, SpansOf(incidents, now), now) {
      assert rows[i] in rows;
      SpansExclude(incidents, now, o.start);
    }
    if m :| m in rows && Observed(m) == o && Eligible(m, source, now) {
      var i :| 0 <= i < |rows| && rows[i] == m;
      SpansExclude(incidents, now, o.start);
    }
  }

  /** Exactly when an anomalous bucket trains a later baseline, for any run before and after it, any
      stored buckets and any rebuild: it is otherwise eligible, it lifted a suppression, and neither an
      earlier incident of its detector nor one of another detector holds it. */
  lemma AnomalousTrainsIff(
      before: seq<Engine.Bucket>, b: Engine.Bucket, after: seq<Engine.Bucket>, others: seq<Engine.Incident>,
      metrics: seq<Metric>, source: Source, lookback: nat, now: int, o: Observation)
    requires Engine.IsNew(Engine.Run(Engine.Initial, before), b) && b.Effective().Anomalous? && Runs.OnTime(after)
    requires o.start == b.start
    ensures var m := Engine.Run(Engine.Initial, before);
            o in Training(metrics, Runs.Later(before, b, after).incidents + others, source, lookback, now) <==>
              && Candidate(metrics, source, lookback, now, o)
              && m.state.Suppressed? && !Runs.Excluded(m.incidents, b.start) && !Runs.Excluded(others, b.start)
  {
    hide Engine.Run, Runs.Later, Training, Runs.Excluded, Candidate, Runs.OnTime;
    var incidents := Runs.Later(before, b, after).incidents;
    TrainsIffNotExcluded(metrics, incidents + others, source, lookback, now, o);
    ExcludedJoin(incidents, others, b.start);
    Runs.AnomalousIsExcludedIff(before, b, after);
  }

  /** Exactly when a bucket of a recovery trains a rebuild made then: it is otherwise eligible, it is not the
      one that began the recovery, and no other incident holds it. */
  lemma RecoveryTrainsIff(
      before: seq<Engine.Bucket>, b: Engine.Bucket, others: seq<Engine.Incident>,
      metrics: seq<Metric>, source: Source, lookback: nat, now: int, o: Observation)
    requires var m := Engine.Run(Engine.Initial, before); Engine.IsNew(m, b) && Engine.Step(m, b).state.Recovering?
    requires o.start == b.start
    ensures var (m, n) := (Engine.Run(Engine.Initial, before), Engine.Step(Engine.Run(Engine.Initial, before), b));
            && Engine.Attached(n)
            && (o in Training(metrics, n.incidents + others, source, lookback, now) <==>
                && Candidate(metrics, source, lookback, now, o) && m.state.Recovering?
                && !Runs.Excluded(n.incidents[..n.activeId.value], b.start)
                && !Runs.Excluded(n.incidents[n.activeId.value + 1..], b.start) && !Runs.Excluded(others, b.start))
  {
    Runs.OnlyFirstRecoveryIsExcluded(before, b);
    hide Engine.Run, Engine.Step, Training, Runs.Excluded, Candidate, Runs.AlwaysExcluded, Runs.RecoveryStart;
    var n := Engine.Step(Engine.Run(Engine.Initial, before), b);
    TrainsIffNotExcluded(metrics, n.incidents + others, source, lookback, now, o);
    ExcludedJoin(n.incidents, others, b.start);
    ExcludedAround(n.incidents, n.activeId.value, b.start);
  }

  lemma ExcludedAround(incidents: seq<Engine.Incident>, k: nat, at: int)
    requires k < |incidents|
    ensures Runs.Excluded(incidents, at) <==>
            || Runs.Excluded(incidents[..k], at) || Runs.AlwaysExcluded(incidents[k], at)
            || Runs.Excluded(incidents[k + 1..], at)
  {
    hide Runs.AlwaysExcluded, Runs.Excluded;
    var (head, own, tail) := (incidents[..k], [incidents[k]], incidents[k + 1..]);
    assert incidents == head + own + tail;
    ExcludedJoin(head + own, tail, at);
    ExcludedJoin(head, own, at);
    ExcludedOne(incidents[k], at);
  }

  lemma ExcludedOne(i: Engine.Incident, at: int)
    ensures Runs.Excluded([i], at) <==> Runs.AlwaysExcluded(i, at)
  {
    hide Runs.AlwaysExcluded;
    assert [i][0] == i;
  }

  /** An anomalous bucket that trains exists: one whose first anomaly follows maintenance trains the next rebuild of a
      source that is out of maintenance by then, whatever its detector sees in between. */
  lemma LiftingBucketTrains(after: seq<Engine.Bucket>, now: int)
    requires Runs.OnTime(after) && 600 <= now <= 3900
    ensures Observation(300, 2.0, 600.0) in
            Training([Metric(300, 600, true, 2.0, 600.0)], Runs.Later([Runs.Maintained], Runs.Lifting, after).incidents,
                     Source(false, None, false, (_: int) => true), 3600, now)
  {
    var m, o := Metric(300, 600, true, 2.0, 600.0), Observation(300, 2.0, 600.0);
    var source := Source(false, None, false, (_: int) => true);
    Runs.LiftingBucketIsNotExcluded(after);
    hide Runs.Later, Runs.Excluded, Training;
    TrainsIffNotExcluded([m], Runs.Later([Runs.Maintained], Runs.Lifting, after).incidents, source, 3600, now, o);
    assert [m][..0] == [] && InWindow([m], now - 3600, now) == InWindow([m][..0], now - 3600, now) + [m];
    assert m in InWindow([m], now - 3600, now) && Observed(m) == o && Eligible(m, source, now);
  }
}
