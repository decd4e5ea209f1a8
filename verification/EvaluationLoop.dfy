/** The loop that feeds a source's buckets to the detectors (`evaluate_pending` and its fault
    bookkeeping in backend/app/anomaly/engine.py, backend/app/anomaly/faults.py,
    backend/app/repositories/anomaly_faults.py). A bucket whose evaluation raises is rolled back and
    retried on later ticks; after K recorded failures the watermark moves past it without a verdict.
    `S` is all the state the detectors keep, and which evaluations raise is up to the tick. */
module EvaluationLoop {
  import opened Wrappers
  import IncidentEngine

  /** One row of the fault table, for one bucket of the source. */
  datatype Fault = Fault(attempts: nat, givenUp: bool, resolved: bool) {
    predicate Open() { !givenUp && !resolved }
  }

  datatype FaultDecision = Retry | GiveUp

  datatype BoundError = NoAttempt | NoLimit

  /** How the bookkeeping of a failed evaluation went. When it is lost its rows are rolled back, but
      the set of sources held in memory stays as the failure left it. */
  datatype Bookkeeping = Kept | Lost(retrying: bool)

  datatype Fate = Judged | Raised(bookkeeping: Bookkeeping)

  type Fates = int -> Fate

  /** The source's watermark, its fault rows, whether the engine believes a fault awaits a retry and
      the detectors' state; then the history: the buckets judged, those given up and the failures
      recorded. */
  datatype Loop<S> = Loop(
    watermark: Option<int>, faults: map<int, Fault>, retrying: bool, verdict: S,
    judged: seq<int>, abandoned: seq<int>, failures: multiset<int>)

  /** What one tick finds: the live buckets in order, and what happens to each it evaluates. */
  datatype Tick = Tick(live: seq<int>, fates: Fates)

  function NextAttempt(attempts: int, maxAttempts: int): Result<FaultDecision, BoundError> {
    if attempts < 1 then Err(NoAttempt)
    else if maxAttempts < 1 then Err(NoLimit)
    else Ok(if attempts >= maxAttempts then GiveUp else Retry)
  }

  // ------------------------------------------------------------- one bucket

  function Attempts(faults: map<int, Fault>, b: int): nat { if b in faults then faults[b].attempts else 0 }

  /** The row after one more failure; it is never reopened. */
  function FailedOnce(faults: map<int, Fault>, b: int): Fault {
    if b in faults then faults[b].(attempts := faults[b].attempts + 1) else Fault(1, false, false)
  }

  /** Record a failed attempt on `b`; the flag says that the bucket was given up. */
  function Recorded<S>(l: Loop<S>, b: int, how: Bookkeeping, maxAttempts: int): (Loop<S>, bool) {
    var row := FailedOnce(l.faults, b);
    match NextAttempt(row.attempts, maxAttempts)
    case Err(_) => (l, false)
    case Ok(decision) =>
      if how.Lost? then (l.(retrying := how.retrying), false)
      else
        var counted := l.(failures := l.failures + multiset{b}, retrying := decision.Retry?);
        if decision.GiveUp? then (counted.(faults := l.faults[b := row.(givenUp := true)]), true)
        else (counted.(faults := l.faults[b := row]), false)
  }

  function Resolved(faults: map<int, Fault>): map<int, Fault> {
    map b | b in faults :: if faults[b].Open() then faults[b].(resolved := true) else faults[b]
  }

  /** Close the fault the source was retrying. */
  function Cleared<S>(l: Loop<S>): Loop<S> {
    if l.retrying then l.(faults := Resolved(l.faults), retrying := false) else l
  }

  function Passed<S>(l: Loop<S>, b: int, judge: (S, int) -> S): Loop<S> {
    Cleared(l.(verdict := judge(l.verdict, b), watermark := Some(b), judged := l.judged + [b]))
  }

  function Abandoned<S>(l: Loop<S>, b: int): Loop<S> { l.(watermark := Some(b), abandoned := l.abandoned + [b]) }

  /** Evaluate the pending buckets in order, up to the first that is held. */
  function Walk<S>(l: Loop<S>, pending: seq<int>, fates: Fates, maxAttempts: int, judge: (S, int) -> S): Loop<S>
    decreases |pending|
  {
    if |pending| == 0 then l
    else
      var b := pending[0];
      match fates(b)
      case Judged => Walk(Passed(l, b, judge), pending[1..], fates, maxAttempts, judge)
      case Raised(how) =>
        var (recorded, givenUp) := Recorded(l, b, how, maxAttempts);
        if givenUp then Walk(Abandoned(recorded, b), pending[1..], fates, maxAttempts, judge) else recorded
  }

  // --------------------------------------------------------------- one tick

  function Later(live: seq<int>, mark: int): (r: seq<int>) {
    if |live| == 0 then [] else (if live[0] > mark then [live[0]] else []) + Later(live[1..], mark)
  }

  function Prefix(s: seq<int>, n: nat): seq<int> { if |s| <= n then s else s[..n] }

  predicate AnyOpen(faults: map<int, Fault>) { exists b :: b in faults && faults[b].Open() }

  /** The engine reads afresh which sources await a retry. */
  function Woken<S>(l: Loop<S>): Loop<S> { l.(retrying := AnyOpen(l.faults)) }

  /** No watermark yet: evaluate the newest bucket alone, and start the watermark there once it is
      judged or given up. */
  function First<S>(l: Loop<S>, b: int, fate: Fate, maxAttempts: int, judge: (S, int) -> S): Loop<S> {
    match fate
    case Judged => Passed(l, b, judge)
    case Raised(how) =>
      var (recorded, givenUp) := Recorded(l, b, how, maxAttempts);
      if givenUp then Abandoned(recorded, b) else recorded
  }

  function Evaluated<S>(l: Loop<S>, t: Tick, limit: nat, maxAttempts: int, judge: (S, int) -> S): Loop<S> {
    match l.watermark
    case None =>
      if |t.live| == 0 then Woken(l)
      else First(Woken(l), t.live[|t.live| - 1], t.fates(t.live[|t.live| - 1]), maxAttempts, judge)
    case Some(mark) => Walk(Woken(l), Prefix(Later(t.live, mark), limit), t.fates, maxAttempts, judge)
  }

  function Run<S>(l: Loop<S>, ticks: seq<Tick>, limit: nat, maxAttempts: int, judge: (S, int) -> S): Loop<S> {
    if |ticks| == 0 then l
    else Evaluated(Run(l, ticks[..|ticks| - 1], limit, maxAttempts, judge), ticks[|ticks| - 1], limit, maxAttempts, judge)
  }

  function Empty<S>(verdict: S): Loop<S> { Loop(None, map[], false, verdict, [], [], multiset{}) }

  // -------------------------------------------------------- what always holds

  ghost predicate Ascending(s: seq<int>) { forall i, j :: 0 <= i < j < |s| ==> s[i] < s[j] }

  ghost predicate AllAbove(s: seq<int>, mark: Option<int>) {
    mark.Some? ==> forall i :: 0 <= i < |s| ==> s[i] > mark.value
  }

  ghost predicate UpTo(s: seq<int>, mark: Option<int>) {
    if mark.None? then s == [] else forall i :: 0 <= i < |s| ==> s[i] <= mark.value
  }

  /** Judged or given up, at most once, and in the order of the buckets. */
  ghost predicate InTurn<S>(l: Loop<S>) {
    && Ascending(l.judged) && Ascending(l.abandoned) && UpTo(l.judged, l.watermark) && UpTo(l.abandoned, l.watermark)
    && (forall b :: b in l.judged ==> b !in l.abandoned)
  }

  /** A bucket the watermark has not reached. */
  predicate Ahead(mark: Option<int>, b: int) { mark.None? || b > mark.value }

  /** Attempts count the recorded failures; a bucket given up has had exactly the allowed number of
      them; one still ahead has had fewer. */
  ghost predicate AttemptsCount(faults: map<int, Fault>, failures: multiset<int>) {
    forall b: int :: Attempts(faults, b) == failures[b]
  }

  ghost predicate GivenUpAtLimit(abandoned: seq<int>, faults: map<int, Fault>, maxAttempts: int) {
    forall b :: b in abandoned ==> b in faults && faults[b].givenUp && faults[b].attempts == maxAttempts
  }

  ghost predicate AheadBelowLimit(mark: Option<int>, faults: map<int, Fault>, maxAttempts: int) {
    forall b: int :: Ahead(mark, b) ==> Attempts(faults, b) < maxAttempts
  }

  ghost predicate Bounded<S>(l: Loop<S>, maxAttempts: int) {
    && AttemptsCount(l.faults, l.failures)
    && GivenUpAtLimit(l.abandoned, l.faults, maxAttempts)
    && (maxAttempts >= 1 ==> AheadBelowLimit(l.watermark, l.faults, maxAttempts))
  }

  ghost function Fold<S>(verdict: S, buckets: seq<int>, judge: (S, int) -> S): S {
    if |buckets| == 0 then verdict else judge(Fold(verdict, buckets[..|buckets| - 1], judge), buckets[|buckets| - 1])
  }

  ghost predicate Inv<S>(l: Loop<S>, verdict: S, maxAttempts: int, judge: (S, int) -> S) {
    InTurn(l) && Bounded(l, maxAttempts) && l.verdict == Fold(verdict, l.judged, judge)
  }

  lemma ClearedKeeps<S>(l: Loop<S>)
    ensures var c := Cleared(l);
            && c == l.(faults := c.faults, retrying := c.retrying)
            && (forall b: int :: Attempts(c.faults, b) == Attempts(l.faults, b))
            && (forall b :: b in l.faults && l.faults[b].givenUp ==> b in c.faults && c.faults[b] == l.faults[b])
  {
  }

  lemma PassedKeeps<S>(l: Loop<S>, b: int, verdict: S, maxAttempts: int, judge: (S, int) -> S)
    requires Inv(l, verdict, maxAttempts, judge) && Ahead(l.watermark, b)
    ensures Inv(Passed(l, b, judge), verdict, maxAttempts, judge)
    ensures Passed(l, b, judge).watermark == Some(b) && Passed(l, b, judge).judged == l.judged + [b]
    ensures Passed(l, b, judge).abandoned == l.abandoned
  {
    var marked := l.(verdict := judge(l.verdict, b), watermark := Some(b), judged := l.judged + [b]);
    ClearedKeeps(marked);
    hide Cleared;
    assert (l.judged + [b])[..|l.judged + [b]| - 1] == l.judged;
    assert InTurn(marked);
  }

  lemma HeldBounds<S>(l: Loop<S>, b: int, how: Bookkeeping, maxAttempts: int)
    requires Bounded(l, maxAttempts) && b !in l.abandoned
    ensures var (r, givenUp) := Recorded(l, b, how, maxAttempts); !givenUp ==> Bounded(r, maxAttempts)
  {
    var (r, givenUp) := Recorded(l, b, how, maxAttempts);
    if !givenUp {
      assert AttemptsCount(r.faults, r.failures);
    }
  }

  lemma GivenUpBounds<S>(l: Loop<S>, b: int, how: Bookkeeping, maxAttempts: int)
    requires Bounded(l, maxAttempts) && Ahead(l.watermark, b) && b !in l.abandoned
    ensures var (r, givenUp) := Recorded(l, b, how, maxAttempts); givenUp ==> Bounded(Abandoned(r, b), maxAttempts)
  {
    var (r, givenUp) := Recorded(l, b, how, maxAttempts);
    if givenUp {
      assert Attempts(l.faults, b) < maxAttempts;
      var a := Abandoned(r, b);
      assert AttemptsCount(a.faults, a.failures);
      assert GivenUpAtLimit(a.abandoned, a.faults, maxAttempts);
    }
  }

  lemma RecordedKeeps<S>(l: Loop<S>, b: int, how: Bookkeeping, verdict: S, maxAttempts: int, judge: (S, int) -> S)
    requires Inv(l, verdict, maxAttempts, judge) && Ahead(l.watermark, b)
    ensures var (r, givenUp) := Recorded(l, b, how, maxAttempts);
            && (!givenUp ==> Inv(r, verdict, maxAttempts, judge) && r.watermark == l.watermark)
            && (givenUp ==> Inv(Abandoned(r, b), verdict, maxAttempts, judge))
            && r.judged == l.judged && r.abandoned == l.abandoned
  {
    hide Fold, Bounded;
    assert b !in l.judged && b !in l.abandoned;
    HeldBounds(l, b, how, maxAttempts);
    GivenUpBounds(l, b, how, maxAttempts);
  }

  // ------------------------------------------------------ what a tick settles

  /** History only grows and the watermark never goes back. */
  ghost predicate Extends<S>(l: Loop<S>, r: Loop<S>) {
    && l.judged <= r.judged && l.abandoned <= r.abandoned
    && (l.watermark.Some? ==> r.watermark.Some? && l.watermark.value <= r.watermark.value)
  }

  /** Every one of these buckets the watermark has reached was judged or given up. */
  ghost predicate Settled<S>(buckets: seq<int>, r: Loop<S>) {
    forall i :: 0 <= i < |buckets| && !Ahead(r.watermark, buckets[i]) ==>
      buckets[i] in r.judged || buckets[i] in r.abandoned
  }

  ghost predicate MarkFrom(buckets: seq<int>, before: Option<int>, after: Option<int>) {
    after == before || (after.Some? && after.value in buckets)
  }

  lemma {:induction false} WalkKeeps<S>(
      l: Loop<S>, pending: seq<int>, fates: Fates, verdict: S, maxAttempts: int, judge: (S, int) -> S)
    requires Inv(l, verdict, maxAttempts, judge) && Ascending(pending) && AllAbove(pending, l.watermark)
    ensures var r := Walk(l, pending, fates, maxAttempts, judge);
            Inv(r, verdict, maxAttempts, judge) && Extends(l, r) && Settled(pending, r)
    ensures MarkFrom(pending, l.watermark, Walk(l, pending, fates, maxAttempts, judge).watermark)
    decreases |pending|
  {
    hide Inv, Passed, Recorded;
    if |pending| > 0 {
      var b := pending[0];
      match fates(b)
      case Judged =>
        PassedKeeps(l, b, verdict, maxAttempts, judge);
        WalkKeeps(Passed(l, b, judge), pending[1..], fates, verdict, maxAttempts, judge);
        SettledHead(l, Passed(l, b, judge), pending, Walk(l, pending, fates, maxAttempts, judge));
      case Raised(how) =>
        RecordedKeeps(l, b, how, verdict, maxAttempts, judge);
        var (recorded, givenUp) := Recorded(l, b, how, maxAttempts);
        if givenUp {
          WalkKeeps(Abandoned(recorded, b), pending[1..], fates, verdict, maxAttempts, judge);
          SettledHead(l, Abandoned(recorded, b), pending, Walk(l, pending, fates, maxAttempts, judge));
        } else {
          HeldIsAhead(l, recorded, pending);
        }
    }
  }

  lemma SettledHead<S>(l: Loop<S>, next: Loop<S>, pending: seq<int>, r: Loop<S>)
    requires |pending| > 0 && (next.judged == l.judged + [pending[0]] || next.abandoned == l.abandoned + [pending[0]])
    requires Extends(next, r) && Settled(pending[1..], r)
    ensures Settled(pending, r)
  {
    assert pending[0] in next.judged || pending[0] in next.abandoned;
    forall i | 0 <= i < |pending| && !Ahead(r.watermark, pending[i])
      ensures pending[i] in r.judged || pending[i] in r.abandoned
    {
      if i > 0 {
        var before := i - 1;
        assert pending[1..][before] == pending[i];
      }
    }
  }

  lemma HeldIsAhead<S>(l: Loop<S>, r: Loop<S>, pending: seq<int>)
    requires AllAbove(pending, l.watermark) && r.watermark == l.watermark
    ensures Settled(pending, r)
  {
  }

  lemma {:induction false} LaterHolds(live: seq<int>, mark: int, b: int)
    ensures b in Later(live, mark) <==> b in live && b > mark
  {
    if |live| > 0 {
      LaterHolds(live[1..], mark, b);
    }
  }

  lemma {:induction false} LaterAscends(live: seq<int>, mark: int)
    requires Ascending(live)
    ensures Ascending(Later(live, mark))
  {
    if |live| > 0 {
      LaterAscends(live[1..], mark);
      var rest := Later(live[1..], mark);
      forall i | 0 <= i < |rest| ensures live[0] < rest[i] {
        LaterHolds(live[1..], mark, rest[i]);
      }
    }
  }

  lemma LaterIsPending(live: seq<int>, mark: int)
    requires Ascending(live)
    ensures Ascending(Later(live, mark)) && AllAbove(Later(live, mark), Some(mark))
    ensures forall b :: b in Later(live, mark) <==> b in live && b > mark
  {
    LaterAscends(live, mark);
    hide Later, Ascending;
    forall b: int ensures b in Later(live, mark) <==> b in live && b > mark {
      LaterHolds(live, mark, b);
    }
    assert forall i :: 0 <= i < |Later(live, mark)| ==> Later(live, mark)[i] in Later(live, mark);
  }

  /** What the tick's limit left out stays ahead of the watermark. */
  lemma BatchSettles<S>(pending: seq<int>, limit: nat, mark: int, r: Loop<S>)
    requires Ascending(pending) && AllAbove(pending, Some(mark))
    requires Settled(Prefix(pending, limit), r) && MarkFrom(Prefix(pending, limit), Some(mark), r.watermark)
    ensures Settled(pending, r)
  {
    forall i | 0 <= i < |pending| && !Ahead(r.watermark, pending[i])
      ensures pending[i] in r.judged || pending[i] in r.abandoned
    {
      assert i < |Prefix(pending, limit)| && Prefix(pending, limit)[i] == pending[i];
    }
  }

  lemma WokenKeeps<S>(l: Loop<S>, verdict: S, maxAttempts: int, judge: (S, int) -> S)
    requires Inv(l, verdict, maxAttempts, judge)
    ensures Inv(Woken(l), verdict, maxAttempts, judge)
  {
    assert InTurn(Woken(l)) && Bounded(Woken(l), maxAttempts);
  }

  /** One tick, whatever raises: the history stays in turn, and every live bucket between the old
      watermark and the new one was judged or given up. */
  lemma TickSettles<S>(l: Loop<S>, t: Tick, verdict: S, limit: nat, maxAttempts: int, judge: (S, int) -> S)
    requires Inv(l, verdict, maxAttempts, judge) && Ascending(t.live)
    ensures var r := Evaluated(l, t, limit, maxAttempts, judge);
            && Inv(r, verdict, maxAttempts, judge) && Extends(l, r)
            && (l.watermark.Some? ==> forall b :: b in t.live && Ahead(l.watermark, b) && !Ahead(r.watermark, b) ==>
                  b in r.judged || b in r.abandoned)
  {
    hide Inv, Passed, Recorded, Walk;
    WokenKeeps(l, verdict, maxAttempts, judge);
    match l.watermark
    case None =>
      if |t.live| > 0 {
        var b := t.live[|t.live| - 1];
        PassedKeeps(Woken(l), b, verdict, maxAttempts, judge);
        match t.fates(b)
        case Judged =>
        case Raised(how) => RecordedKeeps(Woken(l), b, how, verdict, maxAttempts, judge);
      }
    case Some(mark) =>
      var pending := Later(t.live, mark);
      LaterIsPending(t.live, mark);
      var batch := Prefix(pending, limit);
      assert batch <= pending;
      WalkKeeps(Woken(l), batch, t.fates, verdict, maxAttempts, judge);
      BatchSettles(pending, limit, mark, Evaluated(l, t, limit, maxAttempts, judge));
  }

  // ------------------------------------------------------------ over all ticks

  ghost predicate InOrder(ticks: seq<Tick>) { forall i :: 0 <= i < |ticks| ==> Ascending(ticks[i].live) }

  /** Whatever raises and whatever bookkeeping is lost, over any run from a fresh source: each bucket
      was judged at most once or given up, never both, both in bucket order and none past the
      watermark; a given-up bucket has exactly `maxAttempts` recorded failures and one still ahead
      has fewer; and the detectors' state is what the judged buckets alone make of it. */
  lemma {:induction false} RunKeeps<S>(verdict: S, ticks: seq<Tick>, limit: nat, maxAttempts: int, judge: (S, int) -> S)
    requires InOrder(ticks)
    ensures Inv(Run(Empty(verdict), ticks, limit, maxAttempts, judge), verdict, maxAttempts, judge)
  {
    if |ticks| > 0 {
      RunKeeps(verdict, ticks[..|ticks| - 1], limit, maxAttempts, judge);
      hide Inv, Evaluated;
      TickSettles(Run(Empty(verdict), ticks[..|ticks| - 1], limit, maxAttempts, judge), ticks[|ticks| - 1],
                  verdict, limit, maxAttempts, judge);
    }
  }

  /** A bucket that is live whenever the loop looks is never skipped: once the watermark reaches it,
      it has been judged or given up. */
  lemma {:induction false} NothingIsSkipped<S>(
      l: Loop<S>, ticks: seq<Tick>, b: int, verdict: S, limit: nat, maxAttempts: int, judge: (S, int) -> S)
    requires Inv(l, verdict, maxAttempts, judge) && l.watermark.Some? && Ahead(l.watermark, b)
    requires InOrder(ticks) && forall i :: 0 <= i < |ticks| ==> b in ticks[i].live
    ensures var r := Run(l, ticks, limit, maxAttempts, judge);
            && Inv(r, verdict, maxAttempts, judge) && r.watermark.Some?
            && (!Ahead(r.watermark, b) ==> b in r.judged || b in r.abandoned)
  {
    hide Inv, Evaluated;
    if |ticks| > 0 {
      NothingIsSkipped(l, ticks[..|ticks| - 1], b, verdict, limit, maxAttempts, judge);
      TickSettles(Run(l, ticks[..|ticks| - 1], limit, maxAttempts, judge), ticks[|ticks| - 1],
                  verdict, limit, maxAttempts, judge);
    }
  }

  // ------------------------------------------------------------------- progress

  /** No failure's bookkeeping is lost in this tick. */
  ghost predicate Working(t: Tick) {
    forall b :: b in t.live ==> t.fates(b).Judged? || t.fates(b).bookkeeping.Kept?
  }

  ghost predicate FewerLeft(r: Option<int>, live: seq<int>, mark: int) {
    r.Some? && r.value >= mark && |Later(live, r.value)| < |Later(live, mark)|
  }

  /** The head was held, with one more attempt counted. */
  ghost predicate HeadHeld<S>(l: Loop<S>, r: Loop<S>, head: int) {
    r.watermark == l.watermark && Attempts(r.faults, head) == Attempts(l.faults, head) + 1
  }

  lemma {:induction false} LaterShrinks(live: seq<int>, mark: int, after: int)
    requires mark <= after
    ensures |Later(live, after)| <= |Later(live, mark)|
    ensures (exists b :: b in live && mark < b <= after) ==> |Later(live, after)| < |Later(live, mark)|
  {
    if |live| > 0 {
      LaterShrinks(live[1..], mark, after);
      if b :| b in live && mark < b <= after {
        assert b == live[0] || b in live[1..];
      }
    }
  }

  lemma {:induction false} LaterOfPrefix(part: seq<int>, live: seq<int>, mark: int)
    requires part <= live
    ensures Later(part, mark) <= Later(live, mark)
  {
    if |part| > 0 {
      LaterOfPrefix(part[1..], live[1..], mark);
    }
  }

  /** A tick with pending buckets and working bookkeeping, however many newer buckets have come since the
      live ones counted, either leaves fewer of those pending or counts one more attempt on the oldest. */
  lemma TickProgresses<S>(l: Loop<S>, t: Tick, live: seq<int>, verdict: S, limit: nat, maxAttempts: int, judge: (S, int) -> S)
    requires Inv(l, verdict, maxAttempts, judge) && Ascending(t.live) && Working(t) && live <= t.live
    requires l.watermark.Some? && Later(live, l.watermark.value) != [] && limit >= 1 && maxAttempts >= 1
    ensures var r := Evaluated(l, t, limit, maxAttempts, judge);
            FewerLeft(r.watermark, live, l.watermark.value) || HeadHeld(l, r, Later(live, l.watermark.value)[0])
  {
    hide Inv, Passed, Fold;
    var mark := l.watermark.value;
    var batch := Prefix(Later(t.live, mark), limit);
    LaterIsPending(t.live, mark);
    LaterOfPrefix(live, t.live, mark);
    var head := batch[0];
    assert head == Later(live, mark)[0] && head in t.live;
    LaterHolds(live, mark, head);
    var r := Evaluated(l, t, limit, maxAttempts, judge);
    WokenKeeps(l, verdict, maxAttempts, judge);
    var (recorded, givenUp) := Recorded(Woken(l), head, Kept, maxAttempts);
    if t.fates(head).Judged? || givenUp {
      assert r.watermark.Some? && r.watermark.value >= head by {
        hide Recorded, Walk;
        HeadPasses(Woken(l), batch, t.fates, verdict, maxAttempts, judge);
      }
      LaterShrinks(live, mark, r.watermark.value);
    } else {
      assert r == recorded;
    }
  }

  lemma HeadPasses<S>(l: Loop<S>, pending: seq<int>, fates: Fates, verdict: S, maxAttempts: int, judge: (S, int) -> S)
    requires Inv(l, verdict, maxAttempts, judge) && Ascending(pending) && AllAbove(pending, l.watermark) && |pending| > 0
    requires fates(pending[0]).Judged? || (fates(pending[0]).bookkeeping.Kept? && Recorded(l, pending[0], Kept, maxAttempts).1)
    ensures var r := Walk(l, pending, fates, maxAttempts, judge); r.watermark.Some? && r.watermark.value >= pending[0]
  {
    hide Inv, Recorded, Passed;
    var b := pending[0];
    if fates(b).Judged? {
      PassedKeeps(l, b, verdict, maxAttempts, judge);
      WalkKeeps(Passed(l, b, judge), pending[1..], fates, verdict, maxAttempts, judge);
    } else {
      RecordedKeeps(l, b, Kept, verdict, maxAttempts, judge);
      WalkKeeps(Abandoned(Recorded(l, b, Kept, maxAttempts).0, b), pending[1..], fates, verdict, maxAttempts, judge);
    }
  }

  /** How many more ticks can go by: (pending, attempts left on the oldest), as one number. */
  ghost function Remaining<S>(l: Loop<S>, live: seq<int>, maxAttempts: int): int
    requires l.watermark.Some?
  {
    var pending := Later(live, l.watermark.value);
    if |pending| == 0 then 0 else (|pending| - 1) * maxAttempts + (maxAttempts - Attempts(l.faults, pending[0]))
  }

  lemma TickShrinksRemaining<S>(
      l: Loop<S>, t: Tick, live: seq<int>, verdict: S, limit: nat, maxAttempts: int, judge: (S, int) -> S)
    requires Inv(l, verdict, maxAttempts, judge) && Ascending(t.live) && Working(t) && live <= t.live
    requires l.watermark.Some? && limit >= 1 && maxAttempts >= 1
    ensures var r := Evaluated(l, t, limit, maxAttempts, judge);
            && r.watermark.Some? && Remaining(l, live, maxAttempts) >= 0
            && (Remaining(l, live, maxAttempts) > 0 ==> Remaining(r, live, maxAttempts) < Remaining(l, live, maxAttempts))
            && (Remaining(l, live, maxAttempts) == 0 ==> Remaining(r, live, maxAttempts) == 0)
  {
    var mark := l.watermark.value;
    var r := Evaluated(l, t, limit, maxAttempts, judge);
    var pending := Later(live, mark);
    MarkOnlyGrows(l, t, verdict, limit, maxAttempts, judge);
    LaterShrinks(live, mark, r.watermark.value);
    if |pending| > 0 {
      TickProgresses(l, t, live, verdict, limit, maxAttempts, judge);
      StillPending(l, live, verdict, maxAttempts, judge);
      hide Evaluated, Inv, Later;
      if FewerLeft(r.watermark, live, mark) {
        assert Attempts(l.faults, pending[0]) < maxAttempts by {
          PendingBelowLimit(l, live, verdict, maxAttempts, judge);
        }
        Products(|Later(live, r.watermark.value)|, |pending| - 1, maxAttempts);
      }
    }
  }

  lemma PendingBelowLimit<S>(l: Loop<S>, live: seq<int>, verdict: S, maxAttempts: int, judge: (S, int) -> S)
    requires Inv(l, verdict, maxAttempts, judge) && l.watermark.Some? && maxAttempts >= 1 && Ascending(live)
    requires |Later(live, l.watermark.value)| > 0
    ensures Attempts(l.faults, Later(live, l.watermark.value)[0]) < maxAttempts
  {
    LaterIsPending(live, l.watermark.value);
    assert Later(live, l.watermark.value)[0] in Later(live, l.watermark.value);
  }

  lemma MarkOnlyGrows<S>(l: Loop<S>, t: Tick, verdict: S, limit: nat, maxAttempts: int, judge: (S, int) -> S)
    requires Inv(l, verdict, maxAttempts, judge) && Ascending(t.live) && l.watermark.Some?
    ensures var r := Evaluated(l, t, limit, maxAttempts, judge);
            r.watermark.Some? && l.watermark.value <= r.watermark.value
  {
    TickSettles(l, t, verdict, limit, maxAttempts, judge);
    hide Inv;
  }

  lemma {:induction false} Products(a: nat, b: int, k: int)
    requires a <= b && k >= 1
    ensures 0 <= a * k <= b * k && (a - 1) * k == a * k - k
  {
  }

  /** The ticks find these buckets live, and perhaps newer ones; no bookkeeping is lost. */
  ghost predicate StayLive(ticks: seq<Tick>, live: seq<int>) {
    forall i :: 0 <= i < |ticks| ==> Ascending(ticks[i].live) && live <= ticks[i].live && Working(ticks[i])
  }

  /** However many newer buckets keep arriving, with working bookkeeping `Remaining` ticks clear what is
      pending: every one of these live buckets ahead of the watermark ends up judged or given up. */
  lemma {:induction false} PendingIsCleared<S>(
      l: Loop<S>, ticks: seq<Tick>, live: seq<int>, verdict: S, limit: nat, maxAttempts: int, judge: (S, int) -> S)
    requires Inv(l, verdict, maxAttempts, judge) && l.watermark.Some? && limit >= 1 && maxAttempts >= 1
    requires Ascending(live) && StayLive(ticks, live)
    requires Remaining(l, live, maxAttempts) <= |ticks|
    ensures var r := Run(l, ticks, limit, maxAttempts, judge);
            forall b :: b in live && Ahead(l.watermark, b) ==> !Ahead(r.watermark, b) && (b in r.judged || b in r.abandoned)
  {
    RemainingAfter(l, ticks, live, verdict, limit, maxAttempts, judge);
    var r := Run(l, ticks, limit, maxAttempts, judge);
    forall b | b in live && Ahead(l.watermark, b)
      ensures !Ahead(r.watermark, b) && (b in r.judged || b in r.abandoned)
    {
      hide Inv, Run;
      NothingIsSkipped(l, ticks, b, verdict, limit, maxAttempts, judge);
      LaterIsPending(live, r.watermark.value);
      if Ahead(r.watermark, b) {
        assert b in Later(live, r.watermark.value);
        assert Later(live, r.watermark.value)[0] in Later(live, r.watermark.value);
        StillPending(r, live, verdict, maxAttempts, judge);
      }
    }
  }

  lemma StillPending<S>(r: Loop<S>, live: seq<int>, verdict: S, maxAttempts: int, judge: (S, int) -> S)
    requires Inv(r, verdict, maxAttempts, judge) && r.watermark.Some? && maxAttempts >= 1 && Ascending(live)
    requires |Later(live, r.watermark.value)| > 0
    ensures Remaining(r, live, maxAttempts) > 0
  {
    var pending := Later(live, r.watermark.value);
    LaterIsPending(live, r.watermark.value);
    assert pending[0] in pending;
    assert Attempts(r.faults, pending[0]) < maxAttempts;
    Products(0, |pending| - 1, maxAttempts);
  }

  lemma {:induction false} RemainingAfter<S>(
      l: Loop<S>, ticks: seq<Tick>, live: seq<int>, verdict: S, limit: nat, maxAttempts: int, judge: (S, int) -> S)
    requires Inv(l, verdict, maxAttempts, judge) && l.watermark.Some? && limit >= 1 && maxAttempts >= 1
    requires Ascending(live) && StayLive(ticks, live)
    ensures var r := Run(l, ticks, limit, maxAttempts, judge);
            && Inv(r, verdict, maxAttempts, judge) && r.watermark.Some?
            && (Remaining(r, live, maxAttempts) <= 0 || Remaining(r, live, maxAttempts) <= Remaining(l, live, maxAttempts) - |ticks|)
  {
    hide Inv, Evaluated;
    if |ticks| > 0 {
      var m, t := Run(l, ticks[..|ticks| - 1], limit, maxAttempts, judge), ticks[|ticks| - 1];
      RemainingAfter(l, ticks[..|ticks| - 1], live, verdict, limit, maxAttempts, judge);
      TickSettles(m, t, verdict, limit, maxAttempts, judge);
      hide Remaining;
      TickShrinksRemaining(m, t, live, verdict, limit, maxAttempts, judge);
    }
  }

  // ---------------------------------------------------- before the watermark

  /** Without a watermark a tick sets one exactly when the newest live bucket is judged or its
      recorded failures reach the limit. */
  lemma FirstMarkIff<S>(l: Loop<S>, t: Tick, limit: nat, maxAttempts: int, judge: (S, int) -> S)
    requires l.watermark.None? && maxAttempts >= 1
    ensures var r := Evaluated(l, t, limit, maxAttempts, judge);
            r.watermark.Some? <==>
              |t.live| > 0 &&
              var b := t.live[|t.live| - 1];
              t.fates(b).Judged? || (t.fates(b).bookkeeping.Kept? && Attempts(l.faults, b) + 1 >= maxAttempts)
  {
  }

  /** The failures of `b` on record from the ticks that found it newest. */
  ghost function KeptFailures(ticks: seq<Tick>, b: int): nat {
    if |ticks| == 0 then 0
    else
      var t := ticks[|ticks| - 1];
      KeptFailures(ticks[..|ticks| - 1], b)
      + if |t.live| > 0 && t.live[|t.live| - 1] == b && t.fates(b) == Raised(Kept) then 1 else 0
  }

  /** The last of these ticks sets no watermark: it found nothing live, or the newest bucket raised and
      its recorded failures stay below the limit or this one was lost. */
  ghost predicate SetsNone(ticks: seq<Tick>, maxAttempts: int)
    requires |ticks| > 0
  {
    var t := ticks[|ticks| - 1];
    |t.live| > 0 ==>
      var b := t.live[|t.live| - 1];
      t.fates(b).Raised? && (t.fates(b).bookkeeping.Lost? || KeptFailures(ticks, b) < maxAttempts)
  }

  /** Over a whole run: a fresh source has no watermark exactly when no tick had what it takes. */
  lemma {:induction false} NoMarkIff<S>(ticks: seq<Tick>, verdict: S, limit: nat, maxAttempts: int, judge: (S, int) -> S)
    requires maxAttempts >= 1
    ensures var r := Run(Empty(verdict), ticks, limit, maxAttempts, judge);
            && (r.watermark.None? <==> forall i :: 0 < i <= |ticks| ==> SetsNone(ticks[..i], maxAttempts))
            && (r.watermark.None? ==> forall b: int :: Attempts(r.faults, b) == KeptFailures(ticks, b))
  {
    if |ticks| > 0 {
      var init, t := ticks[..|ticks| - 1], ticks[|ticks| - 1];
      var m := Run(Empty(verdict), init, limit, maxAttempts, judge);
      NoMarkIff(init, verdict, limit, maxAttempts, judge);
      assert forall i :: 0 < i <= |init| ==> init[..i] == ticks[..i];
      assert ticks[..|ticks|] == ticks;
      hide Evaluated, SetsNone;
      if m.watermark.Some? {
        MarkStays(m, t, limit, maxAttempts, judge);
      } else {
        NoMarkTick(m, ticks, limit, maxAttempts, judge);
      }
    }
  }

  lemma NoMarkTick<S>(l: Loop<S>, ticks: seq<Tick>, limit: nat, maxAttempts: int, judge: (S, int) -> S)
    requires l.watermark.None? && maxAttempts >= 1 && |ticks| > 0
    requires forall b: int :: Attempts(l.faults, b) == KeptFailures(ticks[..|ticks| - 1], b)
    ensures var r := Evaluated(l, ticks[|ticks| - 1], limit, maxAttempts, judge);
            && (r.watermark.None? <==> SetsNone(ticks, maxAttempts))
            && (r.watermark.None? ==> forall b: int :: Attempts(r.faults, b) == KeptFailures(ticks, b))
  {
    var t := ticks[|ticks| - 1];
    if |t.live| > 0 {
      var b := t.live[|t.live| - 1];
      FirstMarkIff(l, t, limit, maxAttempts, judge);
      FirstTickCounts(l, t, b, limit, maxAttempts, judge);
      hide Evaluated;
    }
  }

  /** A tick that sets no watermark counts one failure of the newest bucket, if it keeps it. */
  lemma FirstTickCounts<S>(l: Loop<S>, t: Tick, b: int, limit: nat, maxAttempts: int, judge: (S, int) -> S)
    requires l.watermark.None? && maxAttempts >= 1 && |t.live| > 0 && t.live[|t.live| - 1] == b
    ensures var r := Evaluated(l, t, limit, maxAttempts, judge);
            r.watermark.None? ==> forall c: int ::
              Attempts(r.faults, c) == Attempts(l.faults, c) + if c == b && t.fates(b) == Raised(Kept) then 1 else 0
  {
  }

  /** While the newest bucket stays the same, `maxAttempts` ticks with working bookkeeping are enough. */
  lemma {:induction false} SteadyNewestStarts<S>(
      l: Loop<S>, ticks: seq<Tick>, live: seq<int>, limit: nat, maxAttempts: int, judge: (S, int) -> S)
    requires l.watermark.None? && maxAttempts >= 1 && |live| > 0
    requires forall i :: 0 <= i < |ticks| ==> ticks[i].live == live && Working(ticks[i])
    ensures var r := Run(l, ticks, limit, maxAttempts, judge);
            r.watermark.None? ==>
              Attempts(r.faults, live[|live| - 1]) == Attempts(l.faults, live[|live| - 1]) + |ticks| &&
              (|ticks| > 0 ==> Attempts(r.faults, live[|live| - 1]) < maxAttempts)
  {
    if |ticks| > 0 {
      SteadyNewestStarts(l, ticks[..|ticks| - 1], live, limit, maxAttempts, judge);
      var m, t := Run(l, ticks[..|ticks| - 1], limit, maxAttempts, judge), ticks[|ticks| - 1];
      assert live[|live| - 1] in t.live;
      if m.watermark.Some? {
        MarkStays(m, t, limit, maxAttempts, judge);
      } else {
        FirstMarkIff(m, t, limit, maxAttempts, judge);
      }
    }
  }

  lemma MarkStays<S>(l: Loop<S>, t: Tick, limit: nat, maxAttempts: int, judge: (S, int) -> S)
    requires l.watermark.Some?
    ensures Evaluated(l, t, limit, maxAttempts, judge).watermark.Some?
  {
    WalkKeepsMark(Woken(l), Prefix(Later(t.live, l.watermark.value), limit), t.fates, maxAttempts, judge);
  }

  lemma {:induction false} WalkKeepsMark<S>(l: Loop<S>, pending: seq<int>, fates: Fates, maxAttempts: int, judge: (S, int) -> S)
    requires l.watermark.Some?
    ensures Walk(l, pending, fates, maxAttempts, judge).watermark.Some?
    decreases |pending|
  {
    if |pending| > 0 {
      var b := pending[0];
      match fates(b)
      case Judged => WalkKeepsMark(Passed(l, b, judge), pending[1..], fates, maxAttempts, judge);
      case Raised(how) =>
        var (recorded, givenUp) := Recorded(l, b, how, maxAttempts);
        if givenUp {
          WalkKeepsMark(Abandoned(recorded, b), pending[1..], fates, maxAttempts, judge);
        }
    }
  }

  /** The ticks of a source that gains a bucket before every tick while all its evaluations raise. */
  function Growing(n: nat): seq<Tick> {
    seq(n, (i: nat) => Tick(seq(i + 1, (j: nat) => j), (_: int) => Raised(Kept)))
  }

  /** The bound does not cover the first watermark: the count restarts with each newer bucket, so a
      source whose evaluations keep raising may never get one, however many ticks go by. */
  lemma {:induction false} NewBucketsStarveTheFirstMark<S>(n: nat, verdict: S, limit: nat, maxAttempts: int, judge: (S, int) -> S)
    requires maxAttempts >= 2
    ensures InOrder(Growing(n)) && forall i :: 0 <= i < n ==> Working(Growing(n)[i])
    ensures var r := Run(Empty(verdict), Growing(n), limit, maxAttempts, judge);
            r.watermark.None? && (forall b: int :: b >= n ==> Attempts(r.faults, b) == 0)
  {
    if n > 0 {
      var before := n - 1;
      NewBucketsStarveTheFirstMark(before, verdict, limit, maxAttempts, judge);
      assert Growing(n)[..before] == Growing(before);
      var t := Growing(n)[before];
      assert t.live[|t.live| - 1] == before && t.fates(before) == Raised(Kept);
      hide Evaluated;
      StarvedTick(Run(Empty(verdict), Growing(before), limit, maxAttempts, judge), t, before, limit, maxAttempts, judge);
    }
  }

  lemma StarvedTick<S>(l: Loop<S>, t: Tick, b: int, limit: nat, maxAttempts: int, judge: (S, int) -> S)
    requires l.watermark.None? && maxAttempts >= 2 && Attempts(l.faults, b) == 0
    requires |t.live| > 0 && t.live[|t.live| - 1] == b && t.fates(b) == Raised(Kept)
    ensures var r := Evaluated(l, t, limit, maxAttempts, judge);
            r.watermark.None? && (forall c: int :: c != b ==> Attempts(r.faults, c) == Attempts(l.faults, c))
  {
    FirstMarkIff(l, t, limit, maxAttempts, judge);
  }

  // --------------------------------------------------------------- open faults

  lemma {:induction false} WalkCloses<S>(l: Loop<S>, pending: seq<int>, fates: Fates, maxAttempts: int, judge: (S, int) -> S)
    requires AnyOpen(l.faults) ==> l.retrying && |pending| > 0
    requires forall b :: b in pending ==> fates(b).Judged?
    ensures !AnyOpen(Walk(l, pending, fates, maxAttempts, judge).faults)
    decreases |pending|
  {
    if |pending| > 0 {
      WalkCloses(Passed(l, pending[0], judge), pending[1..], fates, maxAttempts, judge);
    }
  }

  /** A tick that judges something and in which nothing raises leaves no fault awaiting a retry,
      whatever earlier ticks left open. */
  lemma CleanTickClosesFaults<S>(l: Loop<S>, t: Tick, limit: nat, maxAttempts: int, judge: (S, int) -> S)
    requires l.watermark.Some? && limit >= 1 && Later(t.live, l.watermark.value) != []
    requires forall b :: b in t.live ==> t.fates(b).Judged?
    requires Ascending(t.live)
    ensures !AnyOpen(Evaluated(l, t, limit, maxAttempts, judge).faults)
  {
    LaterIsPending(t.live, l.watermark.value);
    var batch := Prefix(Later(t.live, l.watermark.value), limit);
    assert forall b :: b in batch ==> b in Later(t.live, l.watermark.value);
    WalkCloses(Woken(l), batch, t.fates, maxAttempts, judge);
  }

  // ---------------------------------------------------- what the detectors see

  /** Fold a source's bucket into the incident machine. */
  function Detect(buckets: int -> IncidentEngine.Bucket): (IncidentEngine.Machine, int) -> IncidentEngine.Machine {
    (m: IncidentEngine.Machine, at: int) => IncidentEngine.Step(m, buckets(at))
  }

  function Chosen(buckets: int -> IncidentEngine.Bucket, starts: seq<int>): seq<IncidentEngine.Bucket> {
    seq(|starts|, (i: nat) requires i < |starts| => buckets(starts[i]))
  }

  /** The incident machine only ever sees the judged buckets, each of them new to it: its state is its
      own run over them, every one counts, and so it is sound. */
  lemma MachineSeesJudgedBuckets(ticks: seq<Tick>, buckets: int -> IncidentEngine.Bucket, limit: nat, maxAttempts: int)
    requires InOrder(ticks) && forall at: int :: buckets(at).start == at
    ensures var r := Run(Empty(IncidentEngine.Initial), ticks, limit, maxAttempts, Detect(buckets));
            && r.verdict == IncidentEngine.Run(IncidentEngine.Initial, Chosen(buckets, r.judged))
            && |IncidentEngine.Trace(IncidentEngine.Initial, Chosen(buckets, r.judged))| == |r.judged|
            && IncidentEngine.Sound(r.verdict)
  {
    hide Run, InTurn, Bounded, IncidentEngine.Sound;
    RunKeeps(IncidentEngine.Initial, ticks, limit, maxAttempts, Detect(buckets));
    var r := Run(Empty(IncidentEngine.Initial), ticks, limit, maxAttempts, Detect(buckets));
    JudgedAscend(r);
    FoldIsRun(buckets, r.judged);
    IncidentEngine.RunIsSound(Chosen(buckets, r.judged));
  }

  lemma JudgedAscend<S>(l: Loop<S>)
    requires InTurn(l)
    ensures Ascending(l.judged)
  {
  }

  lemma {:induction false} FoldIsRun(buckets: int -> IncidentEngine.Bucket, starts: seq<int>)
    requires Ascending(starts) && forall at: int :: buckets(at).start == at
    ensures var m := Fold(IncidentEngine.Initial, starts, Detect(buckets));
            && m == IncidentEngine.Run(IncidentEngine.Initial, Chosen(buckets, starts))
            && |IncidentEngine.Trace(IncidentEngine.Initial, Chosen(buckets, starts))| == |starts|
            && m.last == if |starts| == 0 then None else Some(starts[|starts| - 1])
  {
    if |starts| > 0 {
      var init, last := starts[..|starts| - 1], starts[|starts| - 1];
      FoldIsRun(buckets, init);
      var m := Fold(IncidentEngine.Initial, init, Detect(buckets));
      assert Chosen(buckets, starts)[..|starts| - 1] == Chosen(buckets, init);
      IncidentEngine.StepCounts(m, buckets(last));
      hide IncidentEngine.Step;
    }
  }

  // -------------------------------------------------------------- the evaluator

  /** The engine for one source, its verdict state and its fault rows changed in place. `spoil` is what
      a failed evaluation may have done to the state before it raised. */
  class Evaluator<S> {
    var watermark: Option<int>
    var faults: map<int, Fault>
    var retrying: bool
    var verdict: S
    ghost var judged: seq<int>
    ghost var abandoned: seq<int>
    ghost var failures: multiset<int>
    const limit: nat
    const maxAttempts: int
    const judge: (S, int) -> S
    const spoil: (S, int) -> S

    ghost function View(): Loop<S>
      reads this
    {
      Loop(watermark, faults, retrying, verdict, judged, abandoned, failures)
    }

    constructor (verdict: S, limit: nat, maxAttempts: int, judge: (S, int) -> S, spoil: (S, int) -> S)
      ensures View() == Empty(verdict)
      ensures this.limit == limit && this.maxAttempts == maxAttempts && this.judge == judge
    {
      this.verdict, this.limit, this.maxAttempts, this.judge, this.spoil := verdict, limit, maxAttempts, judge, spoil;
      watermark, faults, retrying := None, map[], false;
      judged, abandoned, failures := [], [], multiset{};
    }

    /** One tick; a source whose monitoring is off is left alone. */
    method EvaluatePending(t: Tick, monitored: bool) returns (failed: nat, givenUp: nat)
      modifies this
      ensures View() == if monitored then Evaluated(old(View()), t, limit, maxAttempts, judge) else old(View())
      ensures givenUp == |abandoned| - |old(abandoned)| && givenUp <= failed <= givenUp + 1
    {
      failed, givenUp := 0, 0;
      if !monitored {
        return;
      }
      retrying := AnyOpen(faults);
      if watermark.None? {
        if |t.live| == 0 {
          return;
        }
        var newest := t.live[|t.live| - 1];
        var ok := JudgeBucket(newest, t.fates(newest));
        if !ok {
          failed := 1;
          var given := RecordFailure(newest, t.fates(newest).bookkeeping);
          if given {
            givenUp := 1;
            watermark, abandoned := Some(newest), abandoned + [newest];
          }
          return;
        }
        ClearFailure();
        return;
      }
      var later := PendingAfter(t.live, watermark.value);
      failed, givenUp := EvaluateInOrder(Prefix(later, limit), t.fates);
    }

    /** Evaluate the batch bucket by bucket; stop at the first that must be held. */
    method EvaluateInOrder(batch: seq<int>, fates: Fates) returns (failed: nat, givenUp: nat)
      modifies this
      ensures View() == Walk(old(View()), batch, fates, maxAttempts, judge)
      ensures givenUp == |abandoned| - |old(abandoned)| && givenUp <= failed <= givenUp + 1
    {
      hide Cleared, Recorded;
      failed, givenUp := 0, 0;
      var i := 0;
      while i < |batch|
        invariant 0 <= i <= |batch|
        invariant Walk(View(), batch[i..], fates, maxAttempts, judge) == Walk(old(View()), batch, fates, maxAttempts, judge)
        invariant failed == givenUp == |abandoned| - |old(abandoned)|
      {
        var b := batch[i];
        assert batch[i..][0] == b && batch[i..][1..] == batch[i + 1..];
        var ok := JudgeBucket(b, fates(b));
        i := i + 1;
        if !ok {
          failed := failed + 1;
          var given := RecordFailure(b, fates(b).bookkeeping);
          if !given {
            return;
          }
          givenUp := givenUp + 1;
          watermark, abandoned := Some(b), abandoned + [b];
          continue;
        }
        ClearFailure();
      }
      assert batch[i..] == [];
    }

    /** Evaluate inside a savepoint: when it raises, whatever it did to the state is undone. */
    method JudgeBucket(b: int, fate: Fate) returns (ok: bool)
      modifies this`verdict, this`watermark, this`judged
      ensures ok == fate.Judged?
      ensures View() == if ok then old(View()).(verdict := judge(old(verdict), b), watermark := Some(b), judged := old(judged) + [b])
                        else old(View())
    {
      var savepoint := verdict;
      if fate.Raised? {
        verdict := spoil(verdict, b);
        verdict := savepoint;
        return false;
      }
      verdict := judge(verdict, b);
      watermark, judged := Some(b), judged + [b];
      return true;
    }

    /** Count a failure in the bucket's row, undone when the bookkeeping is lost; true means give up. */
    method RecordFailure(b: int, how: Bookkeeping) returns (givenUp: bool)
      modifies this`faults, this`retrying, this`failures
      ensures (View(), givenUp) == Recorded(old(View()), b, how, maxAttempts)
    {
      var savepoint := faults;
      faults := faults[b := FailedOnce(faults, b)];
      var decision := NextAttempt(faults[b].attempts, maxAttempts);
      if decision.Err? {
        faults := savepoint;
        return false;
      }
      givenUp := decision.value.GiveUp?;
      if givenUp {
        faults := faults[b := faults[b].(givenUp := true)];
        assert faults == savepoint[b := FailedOnce(savepoint, b).(givenUp := true)];
      }
      if how.Lost? {
        faults, retrying := savepoint, how.retrying;
        return false;
      }
      retrying, failures := !givenUp, failures + multiset{b};
    }

    method ClearFailure()
      modifies this`faults, this`retrying
      ensures View() == Cleared(old(View()))
    {
      if retrying {
        faults, retrying := Resolved(faults), false;
      }
    }
  }

  method PendingAfter(live: seq<int>, mark: int) returns (pending: seq<int>)
    ensures pending == Later(live, mark)
  {
    pending := [];
    var i := |live|;
    while i > 0
      invariant 0 <= i <= |live|
      invariant pending == Later(live[i..], mark)
    {
      i := i - 1;
      assert live[i..][1..] == live[i + 1..];
      if live[i] > mark {
        pending := [live[i]] + pending;
      }
    }
    assert live[0..] == live;
  }
}
