/** Silence as an anomaly (backend/app/anomaly/detectors.py `detect_no_events`, and `_preceding_empty_buckets`
    and `_run_detectors` of backend/app/anomaly/engine.py): an empty bucket counts only once the grace
    period is over, and then the detectors that silence makes meaningless are withheld. */
module Silence {
  import opened Wrappers
  import opened Lifecycle
  import opened IncidentEngine

  /** A stored live bucket of the source. */
  datatype Row = Row(complete: bool, events: nat) {
    predicate Empty() { complete && events == 0 }
  }

  /** The seasonal cell for event counts, when there is one. */
  datatype ActivityCell = ActivityCell(reliable: bool, median: real)

  datatype Context = Context(row: Row, cell: Option<ActivityCell>, expectedActive: bool, grace: int, preceding: nat)

  /** How many rows the streak looks back. */
  const LOOKBACK := 12

  // ----------------------------------------------------------------- the streak

  /** The complete empty rows in a row at the end of a history. */
  function EmptyRun(history: seq<Row>): nat {
    if |history| == 0 || !history[|history| - 1].Empty() then 0 else 1 + EmptyRun(history[..|history| - 1])
  }

  function MinNat(a: nat, b: nat): nat { if a < b then a else b }

  /** How long the source has been silent before this bucket, as far back as `limit` rows. */
  method PrecedingEmptyBuckets(history: seq<Row>, limit: nat) returns (streak: nat)
    ensures streak == MinNat(EmptyRun(history), limit)
  {
    streak := 0;
    assert history[..|history|] == history;
    while streak < |history| && streak < limit
      invariant streak <= |history| && streak <= limit
      invariant EmptyRun(history) == streak + EmptyRun(history[..|history| - streak])
    {
      var row := history[|history| - 1 - streak];
      var left := history[..|history| - streak];
      assert left[|left| - 1] == row && left[..|left| - 1] == history[..|history| - streak - 1];
      if !row.complete || row.events > 0 {
        break;
      }
      streak := streak + 1;
    }
  }

  // --------------------------------------------------------------- the detector

  function DetectNoEvents(c: Context): Verdict {
    if c.row.events > 0 then Good
    else if !c.row.complete then NoData
    else if !c.expectedActive then Good
    else if c.cell.Some? && c.cell.value.reliable && c.cell.value.median <= 0.0 then Good
    else if c.cell.None? || !c.cell.value.reliable then NoData
    else if c.preceding < c.grace then Good
    else Bad
  }

  /** A source that should be sending now, judged against a reliable positive baseline. */
  function Judged(history: seq<Row>, row: Row, median: real, grace: int): Context {
    Context(row, Some(ActivityCell(true, median)), true, grace, Preceding(history))
  }

  function Preceding(history: seq<Row>): nat { MinNat(EmptyRun(history), LOOKBACK) }

  /** Silence is an anomaly from the (grace + 1)-th complete empty bucket in a row on, and only then. */
  ghost predicate GraceHonoured(history: seq<Row>, row: Row, median: real, grace: int) {
    DetectNoEvents(Judged(history, row, median, grace)).Bad? <==> EmptyRun(history + [row]) >= grace + 1
  }

  function Empties(n: nat): seq<Row> { seq(n, (_: nat) => Row(true, 0)) }

  lemma {:induction false} EmptiesRun(n: nat)
    ensures EmptyRun(Empties(n)) == n
  {
    if n > 0 {
      EmptiesRun(n - 1);
      assert Empties(n)[..n - 1] == Empties(n - 1);
    }
  }

  lemma OneMoreRow(history: seq<Row>, row: Row)
    ensures EmptyRun(history + [row]) == if row.Empty() then EmptyRun(history) + 1 else 0
  {
    assert (history + [row])[..|history + [row]| - 1] == history;
  }

  lemma ShortGraceIsHonoured(history: seq<Row>, row: Row, median: real, grace: int)
    requires 0 <= grace <= LOOKBACK && median > 0.0
    ensures GraceHonoured(history, row, median, grace)
  {
    OneMoreRow(history, row);
    hide EmptyRun;
  }

  /** A grace longer than the look-back can never run out: the detector never fires. */
  lemma LongGraceNeverEnds(history: seq<Row>, row: Row, median: real, grace: int)
    requires grace > LOOKBACK
    ensures !DetectNoEvents(Judged(history, row, median, grace)).Bad?
  {
  }

  /** Of the graces the policy admits (0 to 48), those the detector honours on every history are exactly
      the ones the look-back covers. */
  lemma GraceIsHonouredIff(grace: int, median: real)
    requires 0 <= grace <= 48 && median > 0.0
    ensures (forall history: seq<Row>, row: Row :: GraceHonoured(history, row, median, grace)) <==> grace <= LOOKBACK
  {
    if grace <= LOOKBACK {
      forall history: seq<Row>, row: Row ensures GraceHonoured(history, row, median, grace) {
        ShortGraceIsHonoured(history, row, median, grace);
      }
    } else {
      var history, row := Empties(grace), Row(true, 0);
      EmptiesRun(grace);
      OneMoreRow(history, row);
      LongGraceNeverEnds(history, row, median, grace);
      assert !GraceHonoured(history, row, median, grace);
    }
  }

  // ---------------------------------------------------- from silence to incident

  /** How a source's buckets look once it has gone silent: what came before, when, and how it is judged. */
  datatype Outage = Outage(history: seq<Row>, from: int, width: nat, median: real, grace: int, openAfter: int, resolveAfter: int) {
    /** The last bucket before it was not a complete empty one. */
    predicate Valid() { EmptyRun(history) == 0 && width >= 1 && median > 0.0 && grace >= 0 && openAfter >= 1 }
  }

  /** Its n-th empty bucket, as the incident machine gets it. */
  function SilentBucket(o: Outage, n: nat): Bucket {
    Bucket(o.from + n * o.width, o.width, DetectNoEvents(Judged(o.history + Empties(n), Row(true, 0), o.median, o.grace)), false,
           o.openAfter, o.resolveAfter, o.from + (n + 1) * o.width, false)
  }

  function SilentBuckets(o: Outage, n: nat): seq<Bucket> {
    if n == 0 then [] else SilentBuckets(o, n - 1) + [SilentBucket(o, n - 1)]
  }

  lemma {:induction false} EmptiesFollow(history: seq<Row>, n: nat)
    ensures EmptyRun(history + Empties(n)) == EmptyRun(history) + n
  {
    if n == 0 {
      assert history + Empties(0) == history;
    } else {
      EmptiesFollow(history, n - 1);
      assert history + Empties(n) == (history + Empties(n - 1)) + [Row(true, 0)];
      OneMoreRow(history + Empties(n - 1), Row(true, 0));
    }
  }

  lemma SilentVerdict(o: Outage, n: nat)
    requires o.Valid()
    ensures SilentBucket(o, n).verdict == if MinNat(n, LOOKBACK) < o.grace then Good else Bad
  {
    EmptiesFollow(o.history, n);
  }

  lemma {:induction false} OneWidthOn(n: nat, width: nat)
    requires width >= 1
    ensures (n + 1) * width > n * width
  {
  }

  /** The detector after n silent buckets, from a machine `m` without an incident or an anomalous run. */
  ghost predicate After(m: Machine, r: Machine, o: Outage, n: nat) {
    var bad := if o.grace > LOOKBACK || n <= o.grace then 0 else n - o.grace;
    && r.anomalous == bad
    && (if n == 0 then r.last == m.last else r.last == Some(o.from + (n - 1) * o.width))
    && r.state == (if n == 0 then m.state else if bad == 0 then Normal else if bad >= o.openAfter then Open else Candidate)
  }

  lemma SilentStep(m: Machine, r: Machine, o: Outage, n: nat)
    requires o.Valid() && !m.state.Active() && !m.state.Suppressed? && (m.last.None? || m.last.value < o.from)
    requires After(m, r, o, n)
    ensures After(m, Step(r, SilentBucket(o, n)), o, n + 1)
  {
    SilentVerdict(o, n);
    if n > 0 {
      OneWidthOn(n - 1, o.width);
    }
    StepCounts(r, SilentBucket(o, n));
    hide Step, DetectNoEvents, Judged;
  }

  /** A source that falls silent, whatever it sent before, opens an incident with exactly its
      (grace + openAfter)-th empty bucket when the look-back covers the grace, and never when not. */
  lemma {:induction false} OutageOpensOnTime(m: Machine, o: Outage, n: nat)
    requires o.Valid() && !m.state.Active() && !m.state.Suppressed? && m.anomalous == 0
    requires m.last.None? || m.last.value < o.from
    ensures var r := Run(m, SilentBuckets(o, n));
            && After(m, r, o, n)
            && (r.state.Open? <==> o.grace <= LOOKBACK && n >= o.grace + o.openAfter)
  {
    hide Step, SilentBucket;
    if n > 0 {
      var before := n - 1;
      OutageOpensOnTime(m, o, before);
      SilentStep(m, Run(m, SilentBuckets(o, before)), o, before);
      var init, b := SilentBuckets(o, before), SilentBucket(o, before);
      assert (init + [b])[..|init + [b]| - 1] == init;
    }
  }

  // ------------------------------------------------------- withholding detectors

  datatype Kind = NoEvents | VolumeDrop | VolumeSpike | ParsingDegradation | UnknownEventSpike | CardinalityDrop
                | RepeatedPayload | Other(name: string) {
    /** Meaningless for an interval without events. */
    predicate SuppressedByNoEvents() {
      VolumeDrop? || ParsingDegradation? || UnknownEventSpike? || CardinalityDrop? || RepeatedPayload?
    }
  }

  datatype Evidence = Evidence(kind: Kind, verdict: Verdict)

  /** The signal becomes unknown; a lack of data stays one. */
  function Demoted(v: Verdict): Verdict { if v.NoData? then NoData else Unsure }

  ghost predicate Silent(evidences: seq<Evidence>) {
    exists i :: 0 <= i < |evidences| && evidences[i].kind.NoEvents? && evidences[i].verdict.Bad?
  }

  /** Keep the verdicts whose inputs were measured; when silence is one of them, withhold the rest. */
  method RunDetectors(all: seq<Evidence>, supported: Kind -> bool) returns (results: seq<Evidence>, unsupported: seq<Kind>)
    requires forall i, j :: 0 <= i < j < |all| ==> all[i].kind != all[j].kind
    ensures results == if Silent(KeptOf(all, supported)) then Withheld(KeptOf(all, supported)) else KeptOf(all, supported)
    ensures |results| + |unsupported| == |all|
  {
    results, unsupported := [], [];
    for i := 0 to |all|
      invariant results == KeptOf(all[..i], supported) && |results| + |unsupported| == i
    {
      assert all[..i + 1][..i] == all[..i];
      if supported(all[i].kind) {
        results := results + [all[i]];
      } else {
        unsupported := unsupported + [all[i].kind];
      }
    }
    assert all[..|all|] == all;
    ghost var kept := results;
    KeptAreOnce(all, supported);
    var k := 0;
    while k < |results| && !results[k].kind.NoEvents?
      invariant k <= |results|
      invariant forall j :: 0 <= j < k ==> !results[j].kind.NoEvents?
    {
      k := k + 1;
    }
    if k < |results| && results[k].verdict.Bad? {
      assert Silent(kept);
      for i := 0 to |results|
        invariant |results| == |kept|
        invariant forall j :: 0 <= j < i ==> results[j] == Withheld(kept)[j]
        invariant forall j :: i <= j < |results| ==> results[j] == kept[j]
      {
        if results[i].kind.SuppressedByNoEvents() {
          results := results[i := results[i].(verdict := Demoted(results[i].verdict))];
        }
      }
    }
  }

  function KeptOf(all: seq<Evidence>, supported: Kind -> bool): seq<Evidence> {
    if |all| == 0 then []
    else KeptOf(all[..|all| - 1], supported) + if supported(all[|all| - 1].kind) then [all[|all| - 1]] else []
  }

  lemma {:induction false} KeptAreOnce(all: seq<Evidence>, supported: Kind -> bool)
    requires forall i, j :: 0 <= i < j < |all| ==> all[i].kind != all[j].kind
    ensures forall i, j :: 0 <= i < j < |KeptOf(all, supported)| ==> KeptOf(all, supported)[i].kind != KeptOf(all, supported)[j].kind
    ensures forall e :: e in KeptOf(all, supported) ==> e in all
  {
    if |all| > 0 {
      KeptAreOnce(all[..|all| - 1], supported);
      var kept := KeptOf(all[..|all| - 1], supported);
      forall i | 0 <= i < |kept| ensures kept[i].kind != all[|all| - 1].kind {
        assert kept[i] in all[..|all| - 1];
      }
    }
  }

  function Withheld(kept: seq<Evidence>): seq<Evidence> {
    seq(|kept|, (i: nat) requires i < |kept| =>
      if kept[i].kind.SuppressedByNoEvents() then kept[i].(verdict := Demoted(kept[i].verdict)) else kept[i])
  }

  /** A withheld detector neither counts nor moves: its counters stay, and its state too, but for the
      idle states and the end of a suppression. */
  lemma WithheldChangesNothing(m: Machine, b: Bucket, v: Verdict)
    requires b.verdict == Demoted(v)
    ensures var n := Step(m, b);
            && n.anomalous == m.anomalous && n.healthy == m.healthy
            && (n.state == m.state || (m.state.Normal? && n.state.InsufficientData?)
                || (m.state.Suppressed? && n.state.Normal?) || (b.maintenance && n.state.Suppressed?))
  {
    StepCounts(m, b);
    hide Step;
  }
}
