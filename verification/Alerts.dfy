/** The alert store (backend/app/alerts/service.py): one active alert per condition, refreshed in
    place, acknowledged, resolved; and the bulk operation that does a bucket's work in two passes. */
module Alerts {
  import opened Sorting
  import opened Wrappers

  datatype Status = Open | Acknowledged | Resolved
  datatype Severity = Info | Low | Medium | High | Critical
  datatype Transition = Opening | Acknowledging | Resolving

  type Evidence = map<string, string>

  datatype Input = Input(
    fingerprint: string, title: string, severity: Severity, sourceType: string, sourceId: Option<nat>,
    description: Option<string>, evidence: Option<Evidence>, anomalies: Option<seq<string>>, context: Option<Evidence>)

  datatype Resolution = Resolution(fingerprint: string, actor: string, reason: Option<string>)

  datatype Alert = Alert(
    fingerprint: string, title: string, severity: Severity, sourceType: string, sourceId: Option<nat>,
    description: Option<string>, context: Evidence, status: Status,
    openedAt: int, firstSeen: int, lastSeen: int, occurrences: nat, evidence: Evidence, anomalies: seq<string>,
    acknowledged: Option<(int, string)>, resolved: Option<(int, string, Option<string>)>) {
    predicate Active() { status != Resolved }
  }

  /** The rows ever created; an alert's id is its place. */
  type Table = seq<Alert>

  datatype AlertResult = AlertResult(id: nat, created: bool, updated: bool, transition: Option<Transition>)

  datatype AlertError = NotFound | Conflict

  // ------------------------------------------------------------ one operation

  predicate Live(a: Alert, fingerprint: string) { a.Active() && a.fingerprint == fingerprint }

  /** The active alert of a condition. */
  function Find(t: Table, fingerprint: string): (r: Option<nat>)
    ensures r.Some? ==> r.value < |t| && Live(t[r.value], fingerprint)
    ensures r.None? ==> forall i :: 0 <= i < |t| ==> !Live(t[i], fingerprint)
  {
    if |t| == 0 then None
    else if Live(t[|t| - 1], fingerprint) then Some(|t| - 1)
    else Find(t[..|t| - 1], fingerprint)
  }

  function OrEmpty<T>(o: Option<T>, empty: T): T { if o.Some? then o.value else empty }

  /** The members of both, once each, in text order. */
  function SortedUnion(a: seq<string>, b: seq<string>): seq<string> { Sort(Distinct(a + b), TextLe) }

  lemma SortedUnionIsUnion(a: seq<string>, b: seq<string>)
    ensures var r := SortedUnion(a, b);
            && SortedBy(r, TextLe) && (forall x :: x in r <==> x in a || x in b)
            && (forall x :: multiset(r)[x] <= 1)
  {
    TextLeIsTotalPreorder();
    SortSorts(Distinct(a + b), TextLe);
    SortPermutes(Distinct(a + b), TextLe);
    var r := SortedUnion(a, b);
    forall x ensures (x in r <==> x in a || x in b) && multiset(r)[x] <= 1 {
      assert x in r <==> x in multiset(r);
      assert x in multiset(Distinct(a + b)) <==> x in Distinct(a + b);
      OnceEach(Distinct(a + b), x);
    }
  }

  /** A repeated detection: new evidence only when there is some, anomalies added to. */
  function Refreshed(a: Alert, d: Input, now: int): Alert {
    a.(occurrences := a.occurrences + 1, lastSeen := now, severity := d.severity,
       evidence := OrEmpty(d.evidence, a.evidence),
       anomalies := if d.anomalies.Some? && d.anomalies.value != [] then SortedUnion(a.anomalies, d.anomalies.value)
                    else a.anomalies)
  }

  function NewAlert(d: Input, now: int): Alert {
    Alert(d.fingerprint, d.title, d.severity, d.sourceType, d.sourceId, d.description, OrEmpty(d.context, map[]), Open,
          now, now, now, 1, OrEmpty(d.evidence, map[]), OrEmpty(d.anomalies, []), None, None)
  }

  /** What a worker that lost the insert race does to the winner's alert. */
  function Bumped(a: Alert, now: int): Alert { a.(occurrences := a.occurrences + 1, lastSeen := now) }

  /** One `open_or_update`, and what another worker opens for the same condition between this worker's
      lookup and its insert, if anything. */
  datatype Arrival = Arrival(input: Input, rival: Option<(Input, int)>) {
    const fingerprint := input.fingerprint
  }

  function Unrivalled(d: Input): Arrival { Arrival(d, None) }

  function RivalRow(e: Arrival): Alert
    requires e.rival.Some?
  {
    NewAlert(e.rival.value.0.(fingerprint := e.fingerprint), e.rival.value.1)
  }

  /** The row that a condition without an active alert gets: a new one, or the rival's with this assertion
      counted on it. */
  function RowFor(e: Arrival, now: int): (a: Alert)
    ensures a.Active() && a.fingerprint == e.fingerprint
  {
    if e.rival.Some? then Bumped(RivalRow(e), now) else NewAlert(e.input, now)
  }

  /** Open a new alert for the condition or refresh the one that is active. */
  function Entered(t: Table, e: Arrival, now: int): Table {
    match Find(t, e.fingerprint)
    case Some(i) => t[i := Refreshed(t[i], e.input, now)]
    case None => t + [RowFor(e, now)]
  }

  function EnteredResult(t: Table, e: Arrival): AlertResult {
    match Find(t, e.fingerprint)
    case Some(i) => AlertResult(i, false, true, None)
    case None => if e.rival.Some? then AlertResult(|t|, false, true, None) else AlertResult(|t|, true, false, Some(Opening))
  }

  function Asserted(t: Table, d: Input, now: int): Table { Entered(t, Unrivalled(d), now) }

  function AssertResult(t: Table, d: Input): AlertResult { EnteredResult(t, Unrivalled(d)) }

  function Acked(t: Table, id: nat, actor: string, now: int): (Table, AlertResult)
    requires id < |t|
  {
    if t[id].status == Open then
      (t[id := t[id].(status := Acknowledged, acknowledged := Some((now, actor)))],
       AlertResult(id, false, true, Some(Acknowledging)))
    else (t, AlertResult(id, false, false, None))
  }

  function ResolvedAt(t: Table, id: nat, actor: string, reason: Option<string>, now: int): (Table, AlertResult)
    requires id < |t|
  {
    if t[id].status == Resolved then (t, AlertResult(id, false, false, None))
    else (t[id := t[id].(status := Resolved, resolved := Some((now, actor, reason)))],
          AlertResult(id, false, true, Some(Resolving)))
  }

  function ResolvedBy(t: Table, r: Resolution, now: int): (Table, Option<AlertResult>) {
    match Find(t, r.fingerprint)
    case None => (t, None)
    case Some(i) => var (t', result) := ResolvedAt(t, i, r.actor, r.reason, now); (t', Some(result))
  }

  /** A call on the store; `Race` is `open_or_update` by a worker whose lookup found nothing and whose
      insert then lost to another worker's. */
  datatype Call =
    | Assert(input: Input)
    | Race(input: Input)
    | Acknowledge(id: nat, actor: string)
    | Resolve(id: nat, actor: string, reason: Option<string>)
    | ResolveBy(resolution: Resolution)

  function Called(t: Table, c: Call, now: int): (Table, Result<Option<AlertResult>, AlertError>) {
    match c
    case Assert(d) => (Asserted(t, d, now), Ok(Some(AssertResult(t, d))))
    case Race(d) =>
      (match Find(t, d.fingerprint)
       case None => (t, Err(Conflict))
       case Some(i) => (t[i := Bumped(t[i], now)], Ok(Some(AlertResult(i, false, true, None)))))
    case Acknowledge(id, actor) =>
      if id >= |t| then (t, Err(NotFound)) else var (t', r) := Acked(t, id, actor, now); (t', Ok(Some(r)))
    case Resolve(id, actor, reason) =>
      if id >= |t| then (t, Err(NotFound)) else var (t', r) := ResolvedAt(t, id, actor, reason, now); (t', Ok(Some(r)))
    case ResolveBy(r) => var (t', result) := ResolvedBy(t, r, now); (t', Ok(result))
  }

  datatype Timed = Timed(call: Call, now: int)

  function Run(t: Table, calls: seq<Timed>): Table {
    if |calls| == 0 then t
    else Called(Run(t, calls[..|calls| - 1]), calls[|calls| - 1].call, calls[|calls| - 1].now).0
  }

  // --------------------------------------------------------- one active alert

  ghost predicate OneActive(t: Table) {
    forall i, j :: 0 <= i < j < |t| && t[i].Active() && t[j].Active() ==> t[i].fingerprint != t[j].fingerprint
  }

  lemma FindIsThe(t: Table, i: nat)
    requires OneActive(t) && i < |t| && t[i].Active()
    ensures Find(t, t[i].fingerprint) == Some(i)
  {
  }

  lemma CallKeepsOneActive(t: Table, c: Call, now: int)
    requires OneActive(t)
    ensures OneActive(Called(t, c, now).0)
  {
  }

  // ----------------------------------------------- what the history promises

  /** One entry of a condition's history: a transition that is announced, or a silent refresh. */
  datatype Entry = Entry(fingerprint: string, transition: Option<Transition>)

  /** What one call announces: nothing when it failed or changed nothing. */
  ghost function Told(t: Table, c: Call, now: int): seq<Entry> {
    var (t', r) := Called(t, c, now);
    if r.Ok? && r.value.Some? && r.value.value.id < |t'| && (r.value.value.created || r.value.value.updated)
    then [Entry(t'[r.value.value.id].fingerprint, r.value.value.transition)] else []
  }

  ghost function History(calls: seq<Timed>): seq<Entry> {
    if |calls| == 0 then []
    else
      var last := calls[|calls| - 1];
      History(calls[..|calls| - 1]) + Told(Run([], calls[..|calls| - 1]), last.call, last.now)
  }

  /** Where a condition stands: no active alert, or one asserted so many times. */
  datatype Standing = Quiet | Alive(acknowledged: bool, occurrences: nat)

  /** The protocol (OPENED, refreshes, at most one ACKNOWLEDGED, RESOLVED)*; `None` once it is broken. */
  ghost function Follows(standing: Option<Standing>, transition: Option<Transition>): Option<Standing> {
    match standing
    case None => None
    case Some(Quiet) => if transition == Some(Opening) then Some(Alive(false, 1)) else None
    case Some(Alive(acknowledged, n)) =>
      match transition
      case None => Some(Alive(acknowledged, n + 1))
      case Some(Opening) => None
      case Some(Acknowledging) => if acknowledged then None else Some(Alive(true, n))
      case Some(Resolving) => Some(Quiet)
  }

  ghost function Standings(history: seq<Entry>, fingerprint: string): Option<Standing> {
    if |history| == 0 then Some(Quiet)
    else
      var before, last := Standings(history[..|history| - 1], fingerprint), history[|history| - 1];
      if last.fingerprint == fingerprint then Follows(before, last.transition) else before
  }

  /** Where the table says a condition stands. */
  ghost function Stands(t: Table, fingerprint: string): Standing {
    match Find(t, fingerprint)
    case None => Quiet
    case Some(i) => Alive(t[i].status == Acknowledged, t[i].occurrences)
  }

  ghost function StandingOf(a: Alert): Standing {
    if a.Active() then Alive(a.status == Acknowledged, a.occurrences) else Quiet
  }

  lemma StandsAppended(t: Table, a: Alert, fingerprint: string)
    requires a.Active() && Find(t, a.fingerprint).None?
    ensures Stands(t + [a], fingerprint) == if a.fingerprint == fingerprint then StandingOf(a) else Stands(t, fingerprint)
    ensures Stands(t, a.fingerprint) == Quiet
  {
    assert (t + [a])[..|t + [a]| - 1] == t;
  }

  lemma StandsReplaced(t: Table, i: nat, a: Alert, fingerprint: string)
    requires OneActive(t) && i < |t| && t[i].Active() && a.fingerprint == t[i].fingerprint
    ensures OneActive(t[i := a]) && Stands(t, a.fingerprint) == StandingOf(t[i])
    ensures Stands(t[i := a], fingerprint) == if a.fingerprint == fingerprint then StandingOf(a) else Stands(t, fingerprint)
  {
    var t' := t[i := a];
    FindIsThe(t, i);
    if a.fingerprint == fingerprint {
      if a.Active() {
        FindIsThe(t', i);
      }
    } else if Find(t, fingerprint).Some? {
      assert t'[Find(t, fingerprint).value] == t[Find(t, fingerprint).value];
      FindIsThe(t', Find(t, fingerprint).value);
    }
  }

  /** One step of a condition along the protocol, and no other condition touched. */
  ghost predicate Steps(t: Table, t': Table, told: seq<Entry>, fingerprint: string) {
    if |told| == 0 then t' == t
    else
      && |told| == 1
      && (if told[0].fingerprint == fingerprint
          then Follows(Some(Stands(t, fingerprint)), told[0].transition) == Some(Stands(t', fingerprint))
          else Stands(t', fingerprint) == Stands(t, fingerprint))
  }

  /** One call moves the condition it is about one step along the protocol, and no other. */
  lemma CallFollows(t: Table, c: Call, now: int, fingerprint: string)
    requires OneActive(t)
    ensures Steps(t, Called(t, c, now).0, Told(t, c, now), fingerprint)
  {
    hide SortedUnion, Stands, OneActive;
    match c
    case Assert(d) =>
      match Find(t, d.fingerprint) {
        case Some(i) => StandsReplaced(t, i, Refreshed(t[i], d, now), fingerprint);
        case None => StandsAppended(t, NewAlert(d, now), fingerprint);
      }
    case Race(d) =>
      match Find(t, d.fingerprint) {
        case Some(i) => StandsReplaced(t, i, Bumped(t[i], now), fingerprint);
        case None =>
      }
    case Acknowledge(id, actor) =>
      if id < |t| && t[id].status == Open {
        StandsReplaced(t, id, Acked(t, id, actor, now).0[id], fingerprint);
      }
    case Resolve(id, actor, reason) =>
      if id < |t| && t[id].status != Resolved {
        StandsReplaced(t, id, ResolvedAt(t, id, actor, reason, now).0[id], fingerprint);
      }
    case ResolveBy(r) =>
      match Find(t, r.fingerprint) {
        case Some(i) => StandsReplaced(t, i, ResolvedAt(t, i, r.actor, r.reason, now).0[i], fingerprint);
        case None =>
      }
  }

  /** Over any run of calls by any number of workers, lost races included, each condition has at most
      one active alert, its announcements follow the protocol, and the protocol's state is what the
      table says: acknowledged or not, and how many times asserted since it opened. */
  lemma {:induction false} HistoryFollows(calls: seq<Timed>, fingerprint: string)
    ensures var t := Run([], calls); OneActive(t) && Standings(History(calls), fingerprint) == Some(Stands(t, fingerprint))
  {
    if |calls| > 0 {
      var init, last := calls[..|calls| - 1], calls[|calls| - 1];
      HistoryFollows(init, fingerprint);
      var t := Run([], init);
      CallKeepsOneActive(t, last.call, last.now);
      CallFollows(t, last.call, last.now, fingerprint);
      var told := Told(t, last.call, last.now);
      hide Called, Told, Stands, Follows, OneActive;
      if told == [] {
        assert History(calls) == History(init);
      } else {
        assert History(calls)[..|History(calls)| - 1] == History(init);
        assert History(calls)[|History(calls)| - 1] == told[0];
      }
    }
  }

  /** A resolved alert never changes again, and no row ever goes away or changes condition. */
  lemma {:induction false} ResolvedAlertsStay(t: Table, calls: seq<Timed>, id: nat)
    requires id < |t|
    ensures var r := Run(t, calls);
            id < |r| && r[id].fingerprint == t[id].fingerprint && (t[id].status == Resolved ==> r[id] == t[id])
  {
    hide SortedUnion;
    if |calls| > 0 {
      ResolvedAlertsStay(t, calls[..|calls| - 1], id);
    }
  }

  // --------------------------------------------------------- in bulk or in turn

  /** The opens one by one, and the result each gave. */
  function EnterAll(t: Table, opens: seq<Arrival>, now: int): Table {
    if |opens| == 0 then t else Entered(EnterAll(t, opens[..|opens| - 1], now), opens[|opens| - 1], now)
  }

  function EnterResults(t: Table, opens: seq<Arrival>, now: int): seq<AlertResult> {
    seq(|opens|, (i: nat) requires i < |opens| => EnteredResult(EnterAll(t, opens[..i], now), opens[i]))
  }

  function ResolveAll(t: Table, resolutions: seq<Resolution>, now: int): (Table, seq<Option<AlertResult>>) {
    if |resolutions| == 0 then (t, [])
    else
      var (t1, results) := ResolveAll(t, resolutions[..|resolutions| - 1], now);
      var (t2, result) := ResolvedBy(t1, resolutions[|resolutions| - 1], now);
      (t2, results + [result])
  }

  /** The inputs whose alert was active before the call (the first pass), or was not (the second). */
  function Part(t: Table, opens: seq<Arrival>, known: bool): seq<Arrival> {
    if |opens| == 0 then []
    else
      var last := opens[|opens| - 1];
      Part(t, opens[..|opens| - 1], known) + if Find(t, last.fingerprint).Some? == known then [last] else []
  }

  /** The rows have the same conditions and statuses: every lookup gives the same answer. */
  ghost predicate SameShape(t: Table, u: Table) {
    |t| == |u| && forall i :: 0 <= i < |t| ==> t[i].fingerprint == u[i].fingerprint && t[i].status == u[i].status
  }

  lemma {:induction false} ShapeDecides(t: Table, u: Table, fingerprint: string)
    requires SameShape(t, u)
    ensures Find(t, fingerprint) == Find(u, fingerprint)
  {
    if |t| > 0 {
      ShapeDecides(t[..|t| - 1], u[..|u| - 1], fingerprint);
    }
  }

  lemma AssertKeepsShape(t: Table, u: Table, d: Arrival, now: int)
    requires SameShape(t, u)
    ensures SameShape(Entered(t, d, now), Entered(u, d, now)) && EnteredResult(t, d) == EnteredResult(u, d)
    ensures Find(t, d.fingerprint).Some? ==> SameShape(Entered(t, d, now), t)
  {
    ShapeDecides(t, u, d.fingerprint);
    hide SortedUnion;
  }

  /** An active alert stays where it is whatever is asserted next. */
  lemma FoundStays(t: Table, d: Arrival, fingerprint: string, now: int)
    requires Find(t, fingerprint).Some?
    ensures Find(Entered(t, d, now), fingerprint) == Find(t, fingerprint)
  {
    match Find(t, d.fingerprint)
    case Some(i) =>
      AssertKeepsShape(t, t, d, now);
      ShapeDecides(Entered(t, d, now), t, fingerprint);
    case None =>
      assert Entered(t, d, now)[..|t|] == t;
  }

  /** Refreshing an alert that was already active commutes with asserting another condition. */
  lemma RefreshCommutes(t: Table, x: Arrival, y: Arrival, now: int)
    requires Find(t, x.fingerprint).Some? && x.fingerprint != y.fingerprint
    ensures Entered(Entered(t, y, now), x, now) == Entered(Entered(t, x, now), y, now)
  {
    hide Refreshed, SortedUnion;
    var i := Find(t, x.fingerprint).value;
    FoundStays(t, y, x.fingerprint, now);
    AssertKeepsShape(t, t, x, now);
    ShapeDecides(Entered(t, x, now), t, y.fingerprint);
    match Find(t, y.fingerprint)
    case Some(j) =>
      assert i != j;
      assert t[i := Refreshed(t[i], x.input, now)][j := Refreshed(t[j], y.input, now)] == t[j := Refreshed(t[j], y.input, now)][i := Refreshed(t[i], x.input, now)];
    case None =>
      assert (t + [RowFor(y, now)])[i := Refreshed(t[i], x.input, now)] == t[i := Refreshed(t[i], x.input, now)] + [RowFor(y, now)];
  }

  lemma {:induction false} RefreshMovesForward(t: Table, x: Arrival, ys: seq<Arrival>, now: int)
    requires Find(t, x.fingerprint).Some? && forall i :: 0 <= i < |ys| ==> ys[i].fingerprint != x.fingerprint
    ensures Entered(EnterAll(t, ys, now), x, now) == EnterAll(Entered(t, x, now), ys, now)
    ensures Find(EnterAll(t, ys, now), x.fingerprint) == Find(t, x.fingerprint)
  {
    hide Entered;
    if |ys| > 0 {
      RefreshMovesForward(t, x, ys[..|ys| - 1], now);
      FoundStays(EnterAll(t, ys[..|ys| - 1], now), ys[|ys| - 1], x.fingerprint, now);
      RefreshCommutes(EnterAll(t, ys[..|ys| - 1], now), x, ys[|ys| - 1], now);
    }
  }

  lemma {:induction false} PartHolds(t: Table, opens: seq<Arrival>, known: bool)
    ensures forall d :: d in Part(t, opens, known) ==> Find(t, d.fingerprint).Some? == known
  {
    if |opens| > 0 {
      PartHolds(t, opens[..|opens| - 1], known);
    }
  }

  lemma {:induction false} KnownKeepFound(t: Table, opens: seq<Arrival>, fingerprint: string, now: int)
    requires Find(t, fingerprint).Some?
    ensures Find(EnterAll(t, opens, now), fingerprint) == Find(t, fingerprint)
  {
    hide Entered;
    if |opens| > 0 {
      KnownKeepFound(t, opens[..|opens| - 1], fingerprint, now);
      FoundStays(EnterAll(t, opens[..|opens| - 1], now), opens[|opens| - 1], fingerprint, now);
    }
  }

  /** The first pass alone leaves every lookup as it was. */
  lemma {:induction false} KnownKeepShape(t: Table, opens: seq<Arrival>, now: int)
    ensures SameShape(EnterAll(t, Part(t, opens, true), now), t)
  {
    hide Entered;
    if |opens| > 0 {
      var init, last := opens[..|opens| - 1], opens[|opens| - 1];
      KnownKeepShape(t, init, now);
      if Find(t, last.fingerprint).Some? {
        var u := EnterAll(t, Part(t, init, true), now);
        ShapeDecides(u, t, last.fingerprint);
        AssertKeepsShape(u, u, last, now);
        assert Part(t, opens, true)[..|Part(t, opens, true)| - 1] == Part(t, init, true);
      } else {
        assert Part(t, opens, true) == Part(t, init, true);
      }
    }
  }

  lemma EnterSnoc(t: Table, init: seq<Arrival>, last: Arrival, now: int)
    ensures EnterAll(t, init + [last], now) == Entered(EnterAll(t, init, now), last, now)
  {
    assert (init + [last])[..|init + [last]| - 1] == init;
  }

  ghost predicate PassesAgree(t: Table, opens: seq<Arrival>, first: seq<Arrival>, second: seq<Arrival>, now: int) {
    EnterAll(EnterAll(t, first, now), second, now) == EnterAll(t, opens, now)
  }

  lemma KnownComesLast(t: Table, init: seq<Arrival>, last: Arrival, now: int)
    requires Find(t, last.fingerprint).Some?
    requires PassesAgree(t, init, Part(t, init, true), Part(t, init, false), now)
    ensures PassesAgree(t, init + [last], Part(t, init, true) + [last], Part(t, init, false), now)
  {
    hide Part, Entered, EnterAll, SameShape;
    var (k, u) := (Part(t, init, true), Part(t, init, false));
    var a := EnterAll(t, k, now);
    EnterSnoc(t, init, last, now);
    EnterSnoc(t, k, last, now);
    KnownKeepShape(t, init, now);
    ShapeDecides(a, t, last.fingerprint);
    PartHolds(t, init, false);
    assert forall i :: 0 <= i < |u| ==> u[i] in u;
    RefreshMovesForward(a, last, u, now);
  }

  lemma NewComesLast(t: Table, init: seq<Arrival>, last: Arrival, now: int)
    requires PassesAgree(t, init, Part(t, init, true), Part(t, init, false), now)
    ensures PassesAgree(t, init + [last], Part(t, init, true), Part(t, init, false) + [last], now)
  {
    hide Part, Entered, EnterAll;
    EnterSnoc(t, init, last, now);
    EnterSnoc(EnterAll(t, Part(t, init, true), now), Part(t, init, false), last, now);
  }

  /** The two passes leave the table that one pass in input order would. */
  lemma {:induction false} TwoPassesAreOne(t: Table, opens: seq<Arrival>, now: int)
    ensures PassesAgree(t, opens, Part(t, opens, true), Part(t, opens, false), now)
  {
    hide Entered, Find;
    if |opens| > 0 {
      hide PassesAgree;
      var init, last := opens[..|opens| - 1], opens[|opens| - 1];
      assert opens == init + [last];
      TwoPassesAreOne(t, init, now);
      if Find(t, last.fingerprint).Some? {
        KnownComesLast(t, init, last, now);
        assert Part(t, opens, false) == Part(t, init, false);
      } else {
        NewComesLast(t, init, last, now);
        assert Part(t, opens, true) == Part(t, init, true);
      }
    }
  }

  lemma {:induction false} SameShapeThroughout(t: Table, u: Table, opens: seq<Arrival>, now: int)
    requires SameShape(t, u)
    ensures SameShape(EnterAll(t, opens, now), EnterAll(u, opens, now))
  {
    hide Entered;
    if |opens| > 0 {
      SameShapeThroughout(t, u, opens[..|opens| - 1], now);
      AssertKeepsShape(EnterAll(t, opens[..|opens| - 1], now), EnterAll(u, opens[..|opens| - 1], now), opens[|opens| - 1], now);
    }
  }

  lemma ShapeJoins(a: Table, t: Table, b: Table)
    requires SameShape(a, t) && SameShape(b, t)
    ensures SameShape(a, b)
  {
  }

  /** While the second pass is at input `i`, its lookups see what the one-by-one pass would. */
  lemma SecondPassSeesTheSame(t: Table, opens: seq<Arrival>, i: nat, now: int)
    requires i <= |opens|
    ensures SameShape(EnterAll(EnterAll(t, Part(t, opens, true), now), Part(t, opens[..i], false), now),
                      EnterAll(t, opens[..i], now))
  {
    TwoPassesAreOne(t, opens[..i], now);
    assert EnterAll(EnterAll(t, Part(t, opens[..i], true), now), Part(t, opens[..i], false), now) == EnterAll(t, opens[..i], now);
    hide *;
    var (a, b) := (EnterAll(t, Part(t, opens, true), now), EnterAll(t, Part(t, opens[..i], true), now));
    KnownKeepShape(t, opens, now);
    KnownKeepShape(t, opens[..i], now);
    ShapeJoins(a, t, b);
    SameShapeThroughout(a, b, Part(t, opens[..i], false), now);
  }

  // ------------------------------------------------------ repeated detections

  ghost predicate Mentioned(opens: seq<Arrival>, x: string) {
    exists i :: 0 <= i < |opens| && opens[i].input.anomalies.Some? && x in opens[i].input.anomalies.value
  }

  /** The evidence a series of detections leaves: the last there was. */
  ghost function LastEvidence(opens: seq<Arrival>): Evidence {
    if |opens| == 0 then map[] else OrEmpty(opens[|opens| - 1].input.evidence, LastEvidence(opens[..|opens| - 1]))
  }

  /** The one alert that a series of detections of one condition amounts to. */
  ghost predicate Merges(a: Alert, opens: seq<Arrival>, now: int)
    requires |opens| > 0
  {
    && a.status == Open && a.occurrences == |opens| && a.fingerprint == opens[0].fingerprint && a.title == opens[0].input.title
    && a.severity == opens[|opens| - 1].input.severity && a.evidence == LastEvidence(opens)
    && a.openedAt == a.firstSeen == a.lastSeen == now && (forall x :: x in a.anomalies <==> Mentioned(opens, x))
  }

  lemma MentionedSnoc(init: seq<Arrival>, last: Arrival, x: string)
    ensures Mentioned(init + [last], x) <==> Mentioned(init, x) || (last.input.anomalies.Some? && x in last.input.anomalies.value)
  {
    var opens := init + [last];
    assert opens[|init|] == last;
    if Mentioned(init, x) {
      var i :| 0 <= i < |init| && init[i].input.anomalies.Some? && x in init[i].input.anomalies.value;
      assert opens[i] == init[i];
    }
  }

  lemma RefreshMerges(a: Alert, init: seq<Arrival>, last: Arrival, now: int)
    requires |init| > 0 && Merges(a, init, now)
    ensures Merges(Refreshed(a, last.input, now), init + [last], now)
  {
    var opens := init + [last];
    assert opens[..|opens| - 1] == init;
    var r := Refreshed(a, last.input, now);
    forall x ensures x in r.anomalies <==> Mentioned(opens, x) {
      MentionedSnoc(init, last, x);
      if last.input.anomalies.Some? {
        SortedUnionIsUnion(a.anomalies, last.input.anomalies.value);
      }
    }
  }

  /** However often a quiet condition is detected in one call, it gets one alert: it counts the
      detections, keeps every anomaly id and the last evidence there was, takes the last severity, and
      leaves every other row as it is. */
  lemma {:induction false} DetectionsMerge(t: Table, opens: seq<Arrival>, now: int)
    requires |opens| > 0 && Find(t, opens[0].fingerprint).None? && opens[0].rival.None?
    requires forall i :: 0 <= i < |opens| ==> opens[i].fingerprint == opens[0].fingerprint
    ensures var r := EnterAll(t, opens, now);
            && |r| == |t| + 1 && r[..|t|] == t && Find(r, opens[0].fingerprint) == Some(|t|) && Merges(r[|t|], opens, now)
  {
    hide Refreshed, Merges, SortedUnion, Find, EnterAll;
    var init, last := opens[..|opens| - 1], opens[|opens| - 1];
    assert opens == init + [last];
    EnterSnoc(t, init, last, now);
    if |init| == 0 {
      assert EnterAll(t, [], now) == t by { NothingEntered(t, now); }
      FirstMerges(last, now);
      LastIsLive(t, NewAlert(last.input, now));
      assert [] + [last] == [last];
    } else {
      assert init[0] == opens[0];
      DetectionsMerge(t, init, now);
      var m := EnterAll(t, init, now);
      RefreshMerges(m[|t|], init, last, now);
      FoundStays(m, last, last.fingerprint, now);
    }
  }

  lemma NothingEntered(t: Table, now: int)
    ensures EnterAll(t, [], now) == t
  {
  }

  lemma LastIsLive(t: Table, a: Alert)
    requires a.Active()
    ensures Find(t + [a], a.fingerprint) == Some(|t|)
  {
  }

  lemma FirstMerges(d: Arrival, now: int)
    requires d.rival.None?
    ensures Merges(RowFor(d, now), [d], now)
  {
    assert [d][..0] == [];
    forall x ensures x in RowFor(d, now).anomalies <==> Mentioned([d], x) {
      MentionedSnoc([], d, x);
      assert [] + [d] == [d];
    }
  }
}
