/** All directions of the geo collector in turn on one search budget
    (backend/app/collectors/geo_collector.py): what carries over from a direction on its own, what the
    directions before it leave of the budget, and one refused window that stops them all. */
module GeoTogether {
  import opened Wrappers
  import opened KeyedSearch
  import opened KeyedRun
  import opened Buckets
  import opened GeoFold
  import opened GeoCollector
  import opened GeoCatchUp

  /** One tick of the collector: the clock, and what the provider answers about each direction. */
  datatype JointTick = JointTick(now: int, ask: nat -> Provider)

  /** The direction's window is refused, which abandons the tick for every direction. */
  predicate Abandons(cfg: Config, d: Direction, now: int)
    requires cfg.Valid()
  {
    var starts := Requested(cfg, d.at, now);
    starts != [] && ValidateWindow(starts[0], starts[|starts| - 1] + cfg.width, cfg.width).Err?
  }

  /** The searches that these directions spend, from the first on. */
  function Spent(cfg: Config, ds: seq<Direction>, t: JointTick): nat
    requires cfg.Valid()
  {
    if |ds| == 0 then 0
    else SpentAfter(cfg, ds[|ds| - 1].at, Tick(t.now, t.ask(|ds| - 1), Spent(cfg, ds[..|ds| - 1], t)))
  }

  /** The turn of direction `i`: what is spent by then is what those before it left. */
  function Turn(cfg: Config, ds: seq<Direction>, t: JointTick, i: nat): Tick
    requires cfg.Valid() && i < |ds|
  {
    Tick(t.now, t.ask(i), Spent(cfg, ds[..i], t))
  }

  ghost predicate AnyAbandons(cfg: Config, ds: seq<Direction>, now: int)
    requires cfg.Valid()
  {
    exists i :: 0 <= i < |ds| && Abandons(cfg, ds[i], now)
  }

  /** The directions after a tick; the transaction of an abandoned one is rolled back. */
  ghost function Together(cfg: Config, classify: Classifier, ds: seq<Direction>, t: JointTick): seq<Direction>
    requires cfg.Valid()
  {
    if AnyAbandons(cfg, ds, t.now) then ds
    else seq(|ds|, (i: nat) requires i < |ds| => After(cfg, classify, ds[i], Turn(cfg, ds, t, i)))
  }

  ghost function TogetherAll(cfg: Config, classify: Classifier, ds: seq<Direction>, ticks: seq<JointTick>): (r: seq<Direction>)
    requires cfg.Valid()
    ensures |r| == |ds|
  {
    if |ticks| == 0 then ds
    else Together(cfg, classify, TogetherAll(cfg, classify, ds, ticks[..|ticks| - 1]), ticks[|ticks| - 1])
  }

  // ---------------------------------------------- each direction on its own

  /** The ticks that direction `i` takes part in, as it sees them. */
  ghost function TurnsOf(cfg: Config, classify: Classifier, ds: seq<Direction>, ticks: seq<JointTick>, i: nat): seq<Tick>
    requires cfg.Valid() && i < |ds|
  {
    if |ticks| == 0 then []
    else
      var init, last := ticks[..|ticks| - 1], ticks[|ticks| - 1];
      var before := TogetherAll(cfg, classify, ds, init);
      TurnsOf(cfg, classify, ds, init, i) + if AnyAbandons(cfg, before, last.now) then [] else [Turn(cfg, before, last, i)]
  }

  lemma AfterAllSnoc(cfg: Config, classify: Classifier, d: Direction, ticks: seq<Tick>, t: Tick)
    requires cfg.Valid()
    ensures AfterAll(cfg, classify, d, ticks + [t]) == After(cfg, classify, AfterAll(cfg, classify, d, ticks), t)
  {
    assert (ticks + [t])[..|ticks + [t]| - 1] == ticks;
  }

  /** In a run of the collector each direction goes through a run of its own, of ticks of that clock and
      that provider; what holds of every run of one direction so holds of each of several. */
  lemma {:induction false} EachRunsAlone(cfg: Config, classify: Classifier, ds: seq<Direction>, ticks: seq<JointTick>, i: nat)
    requires cfg.Valid() && i < |ds|
    ensures TogetherAll(cfg, classify, ds, ticks)[i] == AfterAll(cfg, classify, ds[i], TurnsOf(cfg, classify, ds, ticks, i))
  {
    hide After, Turn, AnyAbandons;
    if |ticks| > 0 {
      var init, last := ticks[..|ticks| - 1], ticks[|ticks| - 1];
      var before := TogetherAll(cfg, classify, ds, init);
      EachRunsAlone(cfg, classify, ds, init, i);
      if AnyAbandons(cfg, before, last.now) {
        assert TurnsOf(cfg, classify, ds, ticks, i) == TurnsOf(cfg, classify, ds, init, i);
      } else {
        AfterAllSnoc(cfg, classify, ds[i], TurnsOf(cfg, classify, ds, init, i), Turn(cfg, before, last, i));
      }
    }
  }

  lemma {:induction false} TurnsAreTheirs(cfg: Config, classify: Classifier, ds: seq<Direction>, ticks: seq<JointTick>, i: nat, k: nat)
    requires cfg.Valid() && i < |ds| && k < |TurnsOf(cfg, classify, ds, ticks, i)|
    ensures exists j :: 0 <= j < |ticks| && TurnsOf(cfg, classify, ds, ticks, i)[k].ask == ticks[j].ask(i)
                                         && TurnsOf(cfg, classify, ds, ticks, i)[k].now == ticks[j].now
  {
    hide AnyAbandons, Spent, TogetherAll;
    if |ticks| > 0 {
      var init := ticks[..|ticks| - 1];
      if k < |TurnsOf(cfg, classify, ds, init, i)| {
        TurnsAreTheirs(cfg, classify, ds, init, i, k);
        var j :| 0 <= j < |init| && TurnsOf(cfg, classify, ds, init, i)[k].ask == init[j].ask(i)
                                 && TurnsOf(cfg, classify, ds, init, i)[k].now == init[j].now;
        assert init[j] == ticks[j];
      } else {
        assert ticks[|ticks| - 1] == ticks[|ticks| - 1];
      }
    }
  }

  function AllFresh(n: nat): seq<Direction> { seq(n, _ => Fresh) }

  /** Over any ticks of any number of directions: each keeps its own watermark covered, and stores of every
      bucket what a search of that bucket alone would store. */
  lemma TogetherStoresTruth(cfg: Config, classify: Classifier, n: nat, ticks: seq<JointTick>, i: nat, truth: seq<Row>)
    requires cfg.Valid() && i < n
    requires forall j :: 0 <= j < |ticks| ==> Honest(Plan(0, cfg.width, cfg.maxRows), ticks[j].ask(i), truth)
    ensures var d := TogetherAll(cfg, classify, AllFresh(n), ticks)[i];
            Inv(cfg, d) && StoresTruth(cfg, classify, truth, d.stored)
  {
    hide Inv, StoresTruth, Honest, After, TurnsOf;
    var turns := TurnsOf(cfg, classify, AllFresh(n), ticks, i);
    EachRunsAlone(cfg, classify, AllFresh(n), ticks, i);
    RunCoversEveryBucket(cfg, classify, turns);
    forall k | 0 <= k < |turns| ensures Honest(Plan(0, cfg.width, cfg.maxRows), turns[k].ask, truth) {
      TurnsAreTheirs(cfg, classify, AllFresh(n), ticks, i, k);
    }
    RunStoresTruth(cfg, classify, truth, turns);
  }

  // ------------------------------------------------------------- the budget

  /** The searches a direction can need at most: 2n - 1 for n buckets. */
  function Need(cfg: Config, d: Direction, now: int): nat
    requires cfg.Valid()
  {
    var n := |Requested(cfg, d.at, now)|;
    if n == 0 then 0 else 2 * n - 1
  }

  function Demand(cfg: Config, ds: seq<Direction>, now: int): nat
    requires cfg.Valid()
  {
    if |ds| == 0 then 0 else Demand(cfg, ds[..|ds| - 1], now) + Need(cfg, ds[|ds| - 1], now)
  }

  /** However the provider answers, the directions keep to the budget and to their demand. */
  lemma {:induction false} SpentFits(cfg: Config, ds: seq<Direction>, t: JointTick)
    requires cfg.Valid()
    ensures Spent(cfg, ds, t) <= cfg.maxSearches && Spent(cfg, ds, t) <= Demand(cfg, ds, t.now)
  {
    hide Leaves, Requested;
    if |ds| > 0 {
      var init, d := ds[..|ds| - 1], ds[|ds| - 1];
      SpentFits(cfg, init, t);
      var starts := Requested(cfg, d.at, t.now);
      if starts != [] {
        LeavesKeepBudget(Plan(starts[0], cfg.width, cfg.maxRows), t.ask(|ds| - 1), cfg.maxSearches, Spent(cfg, init, t), |starts|);
      }
    }
  }

  /** A provider that truncates every answer about the directions before `k`. */
  function TruncatingBefore(k: nat, ask: Provider): nat -> Provider {
    (i: nat) => Truncating(i < k, ask)
  }

  function Truncating(always: bool, ask: Provider): Provider { if always then AlwaysTruncates() else ask }

  lemma TruncatingAt(k: nat, ask: Provider, i: nat)
    ensures TruncatingBefore(k, ask)(i) == if i < k then AlwaysTruncates() else ask
  {
    assert TruncatingBefore(k, ask)(i) == Truncating(i < k, ask);
  }

  /** Directions whose every answer is truncated spend all they can. */
  lemma {:induction false} TruncatedSpend(cfg: Config, ds: seq<Direction>, t: JointTick)
    requires cfg.Valid() && forall i: nat :: i < |ds| ==> t.ask(i) == AlwaysTruncates()
    ensures Spent(cfg, ds, t) ==
            if cfg.maxSearches <= Demand(cfg, ds, t.now) then cfg.maxSearches else Demand(cfg, ds, t.now)
  {
    hide Leaves, Requested;
    if |ds| > 0 {
      var init, d := ds[..|ds| - 1], ds[|ds| - 1];
      TruncatedSpend(cfg, init, t);
      var starts := Requested(cfg, d.at, t.now);
      if starts != [] {
        TruncationSpends(Plan(starts[0], cfg.width, cfg.maxRows), cfg.maxSearches, Spent(cfg, init, t), 0, |starts|, 0);
      }
    }
  }

  /** An answering provider moves the watermark of direction `k`, whatever it answers about those before. */
  ghost predicate AlwaysServed(cfg: Config, classify: Classifier, ds: seq<Direction>, now: int, k: nat)
    requires cfg.Valid() && k < |ds|
  {
    forall ask: nat -> Provider :: AnswersAbout(cfg, ds[k], now, ask(k)) ==>
      Together(cfg, classify, ds, JointTick(now, ask))[k].intervals > ds[k].intervals
  }

  ghost predicate AnswersAbout(cfg: Config, d: Direction, now: int, ask: Provider)
    requires cfg.Valid()
  {
    Answers(TellerOf(Plan(FirstStart(cfg, d.at, Boundary(cfg, now)), cfg.width, cfg.maxRows), ask))
  }

  lemma TruncatingAnswers(cfg: Config, d: Direction, now: int)
    requires cfg.Valid()
    ensures AnswersAbout(cfg, d, now, AlwaysTruncates())
  {
    var p := Plan(FirstStart(cfg, d.at, Boundary(cfg, now)), cfg.width, cfg.maxRows);
    hide FirstStart, Boundary;
    forall used: nat, first: nat, count: nat ensures AnswerIsUsable(TellerOf(p, AlwaysTruncates())(used, first, count)) {
      TruncatingTeller(p, used, first, count);
    }
  }

  lemma UnmeasuredFirstStays(cfg: Config, classify: Classifier, d: Direction, outcomes: seq<Outcome>)
    requires |outcomes| > 0 ==> !outcomes[0].state.Measured()
    ensures Advanced(cfg, classify, d, outcomes).intervals == d.intervals && Advanced(cfg, classify, d, outcomes).at == d.at
  {
  }

  /** With fewer than floor(log2 n) + 1 searches left a truncating provider moves nothing. */
  lemma TruncatedTickStays(cfg: Config, classify: Classifier, d: Direction, tick: Tick)
    requires cfg.Valid() && tick.ask == AlwaysTruncates() && Requested(cfg, d.at, tick.now) != []
    requires cfg.maxSearches <= tick.used + Log2(|Requested(cfg, d.at, tick.now)|)
    ensures After(cfg, classify, d, tick).intervals == d.intervals
  {
    hide Requested, Cells, Leaves, Log2, Advanced, ValidateWindow;
    var starts := Requested(cfg, d.at, tick.now);
    if TickOutcomes(cfg, d.at, tick).Some? {
      OldestIsLeftOut(Plan(starts[0], cfg.width, cfg.maxRows), cfg.maxSearches, tick.used, |starts|);
      UnmeasuredFirstStays(cfg, classify, d, TickOutcomes(cfg, d.at, tick).value);
    }
  }

  lemma ServedWithin(cfg: Config, classify: Classifier, ds: seq<Direction>, t: JointTick, k: nat)
    requires cfg.Valid() && k < |ds| && !AnyAbandons(cfg, ds, t.now) && Inv(cfg, ds[k])
    requires Requested(cfg, ds[k].at, t.now) != [] && cfg.width * |Requested(cfg, ds[k].at, t.now)| <= MAX_WINDOW_SECONDS
    requires Demand(cfg, ds[..k], t.now) + Log2(|Requested(cfg, ds[k].at, t.now)|) + 1 <= cfg.maxSearches
    requires AnswersAbout(cfg, ds[k], t.now, t.ask(k))
    ensures Together(cfg, classify, ds, t)[k].intervals > ds[k].intervals
  {
    hide Requested, Log2, Answers, TellerOf, FirstStart, Boundary, After, AnyAbandons, Inv, Spent;
    SpentFits(cfg, ds[..k], t);
    AnsweredTickAdvances(cfg, classify, ds[k], Turn(cfg, ds, t, k));
  }

  /** Exactly when a direction with work is served whatever the provider answers about those before it:
      when the budget covers their whole demand and floor(log2 n) + 1 searches more. */
  lemma AlwaysServedIff(cfg: Config, classify: Classifier, ds: seq<Direction>, now: int, k: nat)
    requires cfg.Valid() && k < |ds| && !AnyAbandons(cfg, ds, now) && Inv(cfg, ds[k])
    requires Requested(cfg, ds[k].at, now) != [] && cfg.width * |Requested(cfg, ds[k].at, now)| <= MAX_WINDOW_SECONDS
    ensures AlwaysServed(cfg, classify, ds, now, k) <==>
            Demand(cfg, ds[..k], now) + Log2(|Requested(cfg, ds[k].at, now)|) + 1 <= cfg.maxSearches
  {
    hide Requested, Log2, AnswersAbout, After, AnyAbandons, Inv, Spent, Demand;
    if Demand(cfg, ds[..k], now) + Log2(|Requested(cfg, ds[k].at, now)|) + 1 <= cfg.maxSearches {
      forall ask: nat -> Provider | AnswersAbout(cfg, ds[k], now, ask(k))
        ensures Together(cfg, classify, ds, JointTick(now, ask))[k].intervals > ds[k].intervals
      {
        ServedWithin(cfg, classify, ds, JointTick(now, ask), k);
      }
    } else {
      var ask := TruncatingBefore(k, AlwaysTruncates());
      forall i: nat | i <= k ensures ask(i) == AlwaysTruncates() {
        TruncatingAt(k, AlwaysTruncates(), i);
      }
      TruncatedSpend(cfg, ds[..k], JointTick(now, ask));
      TruncatingAnswers(cfg, ds[k], now);
      TruncatedTickStays(cfg, classify, ds[k], Turn(cfg, ds, JointTick(now, ask), k));
      assert AnswersAbout(cfg, ds[k], now, ask(k));
    }
  }

  lemma FreshWindow(cfg: Config, now: int)
    requires cfg.Valid() && cfg.width * FIRST_RUN_LOOKBACK_BUCKETS <= MAX_WINDOW_SECONDS
    ensures Inv(cfg, Fresh) && |Requested(cfg, None, now)| == 12 && !Abandons(cfg, Fresh, now)
  {
    FreshIsSound(cfg);
    FirstRunAsksForAll(cfg, now);
    hide Inv, Requested, ValidateWindow;
    RequestIsWhole(cfg, Fresh, now);
  }

  /** On the first tick of two directions the second is sure to be served from 27 searches on; the default
      budget is 16 (backend/app/core/config.py). */
  lemma FirstTickServesBothIff(cfg: Config, classify: Classifier, now: int)
    requires cfg.Valid() && cfg.width * FIRST_RUN_LOOKBACK_BUCKETS <= MAX_WINDOW_SECONDS
    ensures AlwaysServed(cfg, classify, [Fresh, Fresh], now, 1) <==> cfg.maxSearches >= 27
  {
    var ds := [Fresh, Fresh];
    FreshWindow(cfg, now);
    hide Requested, AlwaysServed, Inv, Abandons;
    assert !AnyAbandons(cfg, ds, now);
    assert ds[..1] == [Fresh] && ds[..1][..0] == [];
    assert Demand(cfg, [], now) == 0 && Demand(cfg, ds[..1], now) == 23;
    assert Log2(12) == 3;
    AlwaysServedIff(cfg, classify, ds, now, 1);
  }

  // ------------------------------------------------------------- starvation

  lemma {:induction false} NothingStored(cfg: Config, classify: Classifier, stored: map<int, seq<StoredRow>>, outcomes: seq<Outcome>)
    requires NoneMeasured(outcomes)
    ensures Stored(cfg, classify, stored, outcomes) == stored
  {
    if |outcomes| > 0 {
      NothingStored(cfg, classify, stored, outcomes[..|outcomes| - 1]);
    }
  }

  ghost predicate NoneMeasured(outcomes: seq<Outcome>) {
    forall i :: 0 <= i < |outcomes| ==> !outcomes[i].state.Measured()
  }

  lemma NoneLeftCollectsNone(p: Plan, ask: Provider, limit: nat, used: nat, count: nat)
    requires count >= 1 && used >= limit
    ensures NoneMeasured(Cells(p, Leaves(p, ask, limit, used, 0, count, 0).0))
  {
    var leaf := Leaf(0, count, 0, NotCollected, []);
    assert Leaves(p, ask, limit, used, 0, count, 0).0 == [leaf];
    assert [leaf][1..] == [] && Cells(p, []) == [];
    var cells := Cells(p, [leaf]);
    assert cells == LeafCells(p, leaf);
    forall i | 0 <= i < |cells| ensures !cells[i].state.Measured() {
      assert cells[i] == Cell(p, leaf, 0 + i);
    }
  }

  /** A direction whose turn comes with the budget spent gets nothing. */
  lemma SpentOutStays(cfg: Config, classify: Classifier, d: Direction, tick: Tick)
    requires cfg.Valid() && tick.used >= cfg.maxSearches
    ensures var n := After(cfg, classify, d, tick); n.at == d.at && n.intervals == d.intervals && n.stored == d.stored
  {
    hide Requested, Cells, Leaves, ValidateWindow;
    var starts := Requested(cfg, d.at, tick.now);
    if TickOutcomes(cfg, d.at, tick).Some? {
      var outcomes := TickOutcomes(cfg, d.at, tick).value;
      if starts != [] {
        var p := Plan(starts[0], cfg.width, cfg.maxRows);
        NoneLeftCollectsNone(p, tick.ask, cfg.maxSearches, tick.used, |starts|);
        assert outcomes == Cells(p, Leaves(p, tick.ask, cfg.maxSearches, tick.used, 0, |starts|, 0).0);
      }
      NothingStored(cfg, classify, d.stored, outcomes);
    }
  }

  lemma {:induction false} SpentGrows(cfg: Config, ds: seq<Direction>, t: JointTick, i: nat, k: nat)
    requires cfg.Valid() && i <= k <= |ds|
    ensures Spent(cfg, ds[..i], t) <= Spent(cfg, ds[..k], t)
    decreases k
  {
    hide Leaves, Requested;
    if i < k {
      SpentGrows(cfg, ds, t, i, k - 1);
      assert ds[..k][..k - 1] == ds[..k - 1];
      var starts := Requested(cfg, ds[k - 1].at, t.now);
      if starts != [] {
        LeavesKeepBudget(Plan(starts[0], cfg.width, cfg.maxRows), t.ask(k - 1), cfg.maxSearches, Spent(cfg, ds[..k - 1], t), |starts|);
      }
    }
  }

  lemma {:induction false} StartsAtLeast(first: int, boundary: int, width: int, limit: nat, n: nat)
    requires width > 0 && n <= limit && first + width * n <= boundary
    ensures |Starts(first, boundary, width, limit)| >= n
    decreases limit
  {
    if n > 0 {
      assert width * n == width * (n - 1) + width;
      Scales(width, 0, n - 1);
      StartsAtLeast(first + width, boundary, width, limit - 1, n - 1);
    }
  }

  /** Ticks at least `pace` buckets apart. */
  ghost predicate Paced(cfg: Config, ticks: seq<JointTick>, pace: nat)
    requires cfg.Valid()
  {
    forall i :: 0 < i < |ticks| ==> Boundary(cfg, ticks[i - 1].now) + cfg.width * pace <= Boundary(cfg, ticks[i].now)
  }

  /** The watermark is settled by the last of the ticks. */
  ghost predicate Behind(cfg: Config, d: Direction, ticks: seq<JointTick>)
    requires cfg.Valid()
  {
    && Inv(cfg, d)
    && (d.at.Some? ==> |ticks| > 0 && d.at.value + cfg.width <= Boundary(cfg, ticks[|ticks| - 1].now))
  }

  lemma AsksForAPace(cfg: Config, d: Direction, ticks: seq<JointTick>, pace: nat)
    requires cfg.Valid() && |ticks| > 0 && Paced(cfg, ticks, pace) && Behind(cfg, d, ticks[..|ticks| - 1])
    requires 1 <= pace <= FIRST_RUN_LOOKBACK_BUCKETS && pace <= cfg.maxBuckets
    ensures Need(cfg, d, ticks[|ticks| - 1].now) >= 2 * pace - 1
  {
    var now := ticks[|ticks| - 1].now;
    hide Starts, Boundary, Inv;
    if d.at.None? {
      FirstRunAsksForAll(cfg, now);
    } else {
      StartsAtLeast(d.at.value + cfg.width, Boundary(cfg, now), cfg.width, cfg.maxBuckets, pace);
    }
  }

  lemma StaysBehind(cfg: Config, classify: Classifier, d: Direction, ticks: seq<JointTick>, pace: nat, used: nat)
    requires cfg.Valid() && |ticks| > 0 && Paced(cfg, ticks, pace) && Behind(cfg, d, ticks[..|ticks| - 1])
    ensures var last := ticks[|ticks| - 1];
            Behind(cfg, d, ticks) && Behind(cfg, After(cfg, classify, d, Tick(last.now, last.ask(0), used)), ticks)
  {
    hide After, Boundary, Inv;
    var last := ticks[|ticks| - 1];
    TickKeepsWatermark(cfg, classify, d, Tick(last.now, last.ask(0), used));
    Scales(cfg.width, 0, pace);
  }

  ghost predicate Starved(d: Direction) { d.at == None && d.intervals == 0 && d.stored == map[] }

  lemma StarvedTick(cfg: Config, classify: Classifier, ds: seq<Direction>, t: JointTick, k: nat)
    requires cfg.Valid() && 1 <= k < |ds| && t.ask(0) == AlwaysTruncates() && Need(cfg, ds[0], t.now) >= cfg.maxSearches
    requires Starved(ds[k])
    ensures Starved(Together(cfg, classify, ds, t)[k])
  {
    hide Requested, After, Need, SpentAfter;
    assert ds[..1] == [ds[0]] && [ds[0]][..0] == [];
    assert Demand(cfg, [ds[0]], t.now) == Need(cfg, ds[0], t.now) by { assert Demand(cfg, [], t.now) == 0; }
    TruncatedSpend(cfg, ds[..1], t);
    SpentGrows(cfg, ds, t, 1, k);
    SpentOutStays(cfg, classify, ds[k], Turn(cfg, ds, t, k));
  }

  /** Starvation: when the searches allowed do not cover the buckets that come in between two ticks, a
      provider that truncates every answer about the first direction leaves none for the others, so that
      nothing is ever collected for them, however many ticks go by. */
  lemma {:induction false} FirstStarvesTheRest(cfg: Config, classify: Classifier, n: nat, ticks: seq<JointTick>, pace: nat, k: nat)
    requires cfg.Valid() && 1 <= k < n
    requires 1 <= pace <= FIRST_RUN_LOOKBACK_BUCKETS && pace <= cfg.maxBuckets && cfg.maxSearches <= 2 * pace - 1
    requires Paced(cfg, ticks, pace) && forall j :: 0 <= j < |ticks| ==> ticks[j].ask(0) == AlwaysTruncates()
    ensures var ds := TogetherAll(cfg, classify, AllFresh(n), ticks); Behind(cfg, ds[0], ticks) && Starved(ds[k])
  {
    hide After, Boundary, Need, Inv, AnyAbandons;
    if |ticks| == 0 {
      FreshIsSound(cfg);
    } else {
      var init, last := ticks[..|ticks| - 1], ticks[|ticks| - 1];
      FirstStarvesTheRest(cfg, classify, n, init, pace, k);
      var ds := TogetherAll(cfg, classify, AllFresh(n), init);
      AsksForAPace(cfg, ds[0], ticks, pace);
      StaysBehind(cfg, classify, ds[0], ticks, pace, 0);
      StarvedTick(cfg, classify, ds, last, k);
      assert Turn(cfg, ds, last, 0) == Tick(last.now, last.ask(0), 0) by { assert ds[..0] == []; }
    }
  }

  // --------------------------------------------------------- a refused window

  lemma RefusedAbandons(cfg: Config, d: Direction, now: int)
    requires cfg.Valid() && Inv(cfg, d)
    ensures Abandons(cfg, d, now) <==> Refused(cfg, d, now)
  {
    hide Inv, Requested, ValidateWindow;
    if Requested(cfg, d.at, now) != [] {
      RequestIsWhole(cfg, d, now);
    }
  }

  lemma StaysRefused(cfg: Config, d: Direction, now: int, later: int)
    requires cfg.Valid() && Inv(cfg, d) && Refused(cfg, d, now) && now <= later
    ensures Refused(cfg, d, later)
  {
    RequestGrows(cfg, d, now, later);
    Scales(cfg.width, |Requested(cfg, d.at, now)|, |Requested(cfg, d.at, later)|);
  }

  /** One direction whose window is too long stops them all, for ever. */
  lemma {:induction false} OneRefusalStopsAll(cfg: Config, classify: Classifier, ds: seq<Direction>, k: nat, now: int, ticks: seq<JointTick>)
    requires cfg.Valid() && k < |ds| && Inv(cfg, ds[k]) && Refused(cfg, ds[k], now)
    requires forall j :: 0 <= j < |ticks| ==> now <= ticks[j].now
    ensures TogetherAll(cfg, classify, ds, ticks) == ds
  {
    hide Inv, Refused, Abandons;
    if |ticks| > 0 {
      var last := ticks[|ticks| - 1];
      OneRefusalStopsAll(cfg, classify, ds, k, now, ticks[..|ticks| - 1]);
      StaysRefused(cfg, ds[k], now, last.now);
      RefusedAbandons(cfg, ds[k], last.now);
    }
  }

  // ----------------------------------------------------------- the program

  /** What one tick did: the report of each direction and the searches sent. */
  datatype JointReport = JointReport(directions: seq<Report>, searchesSent: nat)

  class GeoCollection {
    const cfg: Config
    const classify: Classifier
    const directions: seq<GeoDirection>

    ghost predicate Valid() {
      && cfg.Valid()
      && (forall i :: 0 <= i < |directions| ==> directions[i].cfg == cfg && directions[i].classify == classify)
      && (forall i, j :: 0 <= i < j < |directions| ==> directions[i] != directions[j])
    }

    ghost function Views(): (r: seq<Direction>)
      reads directions
      ensures |r| == |directions| && forall i :: 0 <= i < |r| ==> r[i] == directions[i].View()
    {
      seq(|directions|, (i: nat) requires i < |directions| reads directions => directions[i].View())
    }

    /** The watermark rows of the directions, as they were created. */
    constructor (cfg: Config, classify: Classifier, directions: seq<GeoDirection>)
      requires cfg.Valid()
      requires forall i :: 0 <= i < |directions| ==> directions[i].cfg == cfg && directions[i].classify == classify
      requires forall i, j :: 0 <= i < j < |directions| ==> directions[i] != directions[j]
      ensures Valid() && this.cfg == cfg && this.classify == classify && this.directions == directions
    {
      this.cfg, this.classify, this.directions := cfg, classify, directions;
    }

    /** The first `i` directions had their turns of the tick, the others not yet. */
    ghost predicate Done(ds: seq<Direction>, t: JointTick, i: nat)
      requires Valid() && i <= |ds| == |directions|
      reads directions
    {
      && (forall j :: 0 <= j < i ==> directions[j].View() == After(cfg, classify, ds[j], Turn(cfg, ds, t, j)))
      && (forall j :: i <= j < |directions| ==> directions[j].View() == ds[j])
    }

    /** One tick of all directions on one budget; when a window is refused everything is rolled back. */
    method Collect(now: int, ask: nat -> Provider) returns (r: Result<JointReport, WindowError>)
      requires Valid()
      modifies directions
      ensures Views() == Together(cfg, classify, old(Views()), JointTick(now, ask))
      ensures r.Err? <==> AnyAbandons(cfg, old(Views()), now)
      ensures r.Ok? ==> |r.value.directions| == |directions|
                        && r.value.searchesSent == Spent(cfg, old(Views()), JointTick(now, ask)) <= cfg.maxSearches
    {
      hide After, Spent, Abandons, Done;
      ghost var ds, t := Views(), JointTick(now, ask);
      var budget := new SearchBudget(cfg.maxSearches);
      var saved, lags := Save();
      var reports := [];
      Begin(ds, t);
      var i := 0;
      while i < |directions|
        invariant 0 <= i == |reports| <= |directions|
        invariant fresh(budget) && budget.maxSearches == cfg.maxSearches
        invariant budget.used == Spent(cfg, ds[..i], t) <= cfg.maxSearches
        invariant Done(ds, t, i) && forall j :: 0 <= j < i ==> !Abandons(cfg, ds[j], now)
      {
        var report := TakeTurn(i, now, ask(i), budget, ds, t);
        if report.Err? {
          RollBack(saved, lags);
          return Err(report.error);
        }
        reports := reports + [report.value];
        i := i + 1;
      }
      End(ds, t);
      assert ds[..i] == ds;
      r := Ok(JointReport(reports, budget.used));
    }

    method TakeTurn(i: nat, now: int, ask: Provider, budget: SearchBudget, ghost ds: seq<Direction>, ghost t: JointTick)
      returns (r: Result<Report, WindowError>)
      requires Valid() && i < |directions| == |ds| && Done(ds, t, i) && now == t.now && ask == t.ask(i)
      requires budget.maxSearches == cfg.maxSearches && budget.used == Spent(cfg, ds[..i], t) <= cfg.maxSearches
      modifies directions[i], budget
      ensures r.Err? <==> Abandons(cfg, ds[i], now)
      ensures r.Ok? ==> Done(ds, t, i + 1) && budget.used == Spent(cfg, ds[..i + 1], t) <= cfg.maxSearches
    {
      hide TickOutcomes, After, SpentAfter, Abandons;
      assert directions[i].View() == ds[i];
      AbandonsIff(cfg, ds[i], Turn(cfg, ds, t, i));
      r := directions[i].Collect(now, ask, budget);
      assert ds[..i + 1][..i] == ds[..i];
    }

    lemma Begin(ds: seq<Direction>, t: JointTick)
      requires Valid() && ds == Views()
      ensures Done(ds, t, 0) && Spent(cfg, ds[..0], t) == 0
    {
    }

    lemma End(ds: seq<Direction>, t: JointTick)
      requires Valid() && |ds| == |directions| && Done(ds, t, |ds|) && !AnyAbandons(cfg, ds, t.now)
      ensures Views() == Together(cfg, classify, ds, t)
    {
      hide After, AnyAbandons;
    }

    /** The rows as the transaction found them. */
    method Save() returns (saved: seq<Direction>, lags: seq<nat>)
      ensures saved == Views() && |lags| == |saved|
    {
      saved, lags := [], [];
      for i := 0 to |directions|
        invariant |saved| == |lags| == i && forall j :: 0 <= j < i ==> saved[j] == directions[j].View()
      {
        var d := directions[i];
        saved := saved + [Direction(d.at, d.intervals, d.failures, d.failing, d.stored)];
        lags := lags + [d.lag];
      }
    }

    method RollBack(saved: seq<Direction>, lags: seq<nat>)
      requires Valid() && |lags| == |saved| == |directions|
      modifies directions
      ensures Views() == saved
    {
      for i := 0 to |saved|
        invariant forall j :: 0 <= j < i ==> directions[j].View() == saved[j]
      {
        directions[i].Restore(saved[i], lags[i]);
      }
    }
  }

  lemma AbandonsIff(cfg: Config, d: Direction, tick: Tick)
    requires cfg.Valid()
    ensures TickOutcomes(cfg, d.at, tick).None? <==> Abandons(cfg, d, tick.now)
  {
    hide Requested, Leaves, Cells, ValidateWindow;
  }
}
