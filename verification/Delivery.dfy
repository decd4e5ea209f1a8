/** Notification delivery (backend/app/alerts/dispatcher.py, backend/app/services/backoff.py): each
    announced transition is queued once per route, then tried until it is sent or parked. */
module Delivery {
  import opened Reals
  import opened Sorting
  import opened Wrappers
  import opened Alerts

  datatype Channel = Teams | Email | Slack | Webhook | Syslog

  datatype DeliveryStatus = Pending | Failed | Sent | DeadLetter {
    /** Nothing is ever done with it again. */
    predicate Final() { Sent? || DeadLetter? }
  }

  datatype Route = Route(channel: Channel, target: string)

  datatype Notification = Notification(
    alert: nat, transition: Transition, route: Route,
    status: DeliveryStatus, attempts: nat, maxAttempts: nat, nextAt: Option<real>, sentAt: Option<real>)

  type Queue = seq<Notification>

  /** What a try meets: no notifier for the channel, success, or an error that may be permanent. The
      jitter is the draw that backoff makes. */
  datatype Fate = NoNotifier | Delivered | Error(permanent: bool, jitter: real)

  datatype Settings = Settings(sendRecovery: bool, maxRetries: nat, retryBase: real, retryMax: real) {
    predicate Valid() { retryBase > 0.0 && retryMax > 0.0 }
  }

  // -------------------------------------------------------------- queueing

  predicate Same(a: Notification, b: Notification) {
    a.alert == b.alert && a.transition == b.transition && a.route == b.route
  }

  predicate Queued(q: Queue, n: Notification) { exists i :: 0 <= i < |q| && Same(q[i], n) }

  function Fresh(s: Settings, alert: nat, transition: Transition, route: Route, now: real): Notification {
    Notification(alert, transition, route, Pending, 0, s.maxRetries + 1, Some(now), None)
  }

  function Enqueued(s: Settings, q: Queue, alert: nat, transition: Transition, routes: seq<Route>, now: real): Queue {
    if (transition == Resolving && !s.sendRecovery) || |routes| == 0 then q
    else
      var before := Enqueued(s, q, alert, transition, routes[..|routes| - 1], now);
      var n := Fresh(s, alert, transition, routes[|routes| - 1], now);
      if Queued(before, n) then before else before + [n]
  }

  ghost predicate Unique(q: Queue) { forall i, j :: 0 <= i < j < |q| ==> !Same(q[i], q[j]) }

  /** Queueing a transition, again or for the first time: the rows there were stay as they are, every
      route has exactly one row for it, and no other row is added. */
  lemma {:induction false} EnqueueOnce(s: Settings, q: Queue, alert: nat, transition: Transition, routes: seq<Route>, now: real)
    requires Unique(q)
    ensures var r := Enqueued(s, q, alert, transition, routes, now);
            && q <= r && Unique(r)
            && (transition == Resolving && !s.sendRecovery ==> r == q)
            && (!(transition == Resolving && !s.sendRecovery) ==>
                  forall route :: route in routes ==> Queued(r, Fresh(s, alert, transition, route, now)))
            && (forall i :: |q| <= i < |r| ==> r[i].route in routes && r[i] == Fresh(s, alert, transition, r[i].route, now))
  {
    if !(transition == Resolving && !s.sendRecovery) && |routes| > 0 {
      var init, last := routes[..|routes| - 1], routes[|routes| - 1];
      EnqueueOnce(s, q, alert, transition, init, now);
      var before := Enqueued(s, q, alert, transition, init, now);
      var r := Enqueued(s, q, alert, transition, routes, now);
      forall route | route in routes ensures Queued(r, Fresh(s, alert, transition, route, now)) {
        if route in init {
          var i :| 0 <= i < |before| && Same(before[i], Fresh(s, alert, transition, route, now));
          assert r[i] == before[i];
        } else {
          assert route == last;
          if !Queued(before, Fresh(s, alert, transition, last, now)) {
            assert Same(r[|r| - 1], Fresh(s, alert, transition, last, now));
          }
        }
      }
    }
  }

  /** Queueing the same transition a second time adds nothing. */
  lemma {:induction false} EnqueueAgainAddsNothing(
      s: Settings, q: Queue, alert: nat, transition: Transition, routes: seq<Route>, now: real, later: real)
    requires forall route :: route in routes ==> Queued(q, Fresh(s, alert, transition, route, now))
    ensures Enqueued(s, q, alert, transition, routes, later) == q
  {
    if |routes| > 0 {
      EnqueueAgainAddsNothing(s, q, alert, transition, routes[..|routes| - 1], now, later);
      var last := routes[|routes| - 1];
      var i :| 0 <= i < |q| && Same(q[i], Fresh(s, alert, transition, last, now));
      assert Same(q[i], Fresh(s, alert, transition, last, later));
    }
  }

  // --------------------------------------------------------------- one try

  function Power2(n: nat): real { if n == 0 then 1.0 else 2.0 * Power2(n - 1) }

  function MinReal(a: real, b: real): real { if a <= b then a else b }

  function Portion(share: real, whole: real): real { share * whole }

  /** Exponential backoff with full jitter; `attempt` counts from 1. */
  function Backoff(s: Settings, attempt: nat, jitter: real): real
    requires attempt >= 1
  {
    Portion(jitter, MinReal(s.retryMax, s.retryBase * Power2(attempt - 1)))
  }

  lemma {:induction false} PowerIsPositive(n: nat)
    ensures Power2(n) >= 1.0
  {
    if n > 0 {
      PowerIsPositive(n - 1);
    }
  }

  lemma ProductIsPositive(a: real, b: real)
    requires a > 0.0 && b > 0.0
    ensures a * b > 0.0
  {
  }

  lemma PortionWithin(share: real, whole: real)
    requires 0.0 <= share <= 1.0 && whole >= 0.0
    ensures 0.0 <= Portion(share, whole) <= whole
  {
    Rectangle(share, whole);
    Rectangle(1.0 - share, whole);
    assert (1.0 - share) * whole == whole - share * whole;
  }

  /** A retry is never due later than `retryMax` after the failure, nor before it. */
  lemma BackoffIsBounded(s: Settings, attempt: nat, jitter: real)
    requires s.Valid() && attempt >= 1 && 0.0 <= jitter <= 1.0
    ensures 0.0 <= Backoff(s, attempt, jitter) <= s.retryMax
    ensures Backoff(s, attempt, jitter) <= s.retryBase * Power2(attempt - 1)
  {
    PowerIsPositive(attempt - 1);
    ProductIsPositive(s.retryBase, Power2(attempt - 1));
    hide Power2, Portion;
    PortionWithin(jitter, MinReal(s.retryMax, s.retryBase * Power2(attempt - 1)));
  }

  function Tried(s: Settings, n: Notification, fate: Fate, now: real): Notification {
    var t := n.(attempts := n.attempts + 1);
    match fate
    case NoNotifier => t.(status := DeadLetter)
    case Delivered => t.(status := Sent, sentAt := Some(now))
    case Error(permanent, jitter) =>
      if permanent || t.attempts >= n.maxAttempts then t.(status := DeadLetter, nextAt := None)
      else t.(status := Failed, nextAt := Some(now + Backoff(s, t.attempts, jitter)))
  }

  // -------------------------------------------------------------- a dispatch

  predicate IsDue(n: Notification, now: real) {
    !n.status.Final() && (n.nextAt.None? || n.nextAt.value <= now)
  }

  /** The due rows, by number. */
  function Due(q: Queue, now: real): seq<nat> {
    if |q| == 0 then []
    else Due(q[..|q| - 1], now) + if IsDue(q[|q| - 1], now) then [|q| - 1] else []
  }

  lemma {:induction false} DueHolds(q: Queue, now: real)
    ensures forall k :: 0 <= k < |Due(q, now)| ==> Due(q, now)[k] < |q| && IsDue(q[Due(q, now)[k]], now)
    ensures forall j, k :: 0 <= j < k < |Due(q, now)| ==> Due(q, now)[j] < Due(q, now)[k]
  {
    if |q| > 0 {
      DueHolds(q[..|q| - 1], now);
    }
  }

  lemma {:induction false} DueHasAll(q: Queue, now: real, i: nat)
    requires i < |q| && IsDue(q[i], now)
    ensures i in Due(q, now)
  {
    if i < |q| - 1 {
      DueHasAll(q[..|q| - 1], now, i);
    }
  }

  /** Earliest next attempt first; rows without one come last. */
  function Soonest(q: Queue): (nat, nat) -> bool {
    (i: nat, j: nat) => j >= |q| || q[j].nextAt.None? || (i < |q| && q[i].nextAt.Some? && q[i].nextAt.value <= q[j].nextAt.value)
  }

  function Chosen(q: Queue, now: real, limit: nat): seq<nat> {
    var due := Sort(Due(q, now), Soonest(q));
    if |due| <= limit then due else due[..limit]
  }

  lemma SortedDue(q: Queue, now: real)
    ensures var due := Sort(Due(q, now), Soonest(q));
            && SortedBy(due, Soonest(q)) && |due| == |Due(q, now)|
            && (forall i :: i in due <==> i in Due(q, now))
            && (forall j, k :: 0 <= j < k < |due| ==> due[j] != due[k])
  {
    var due := Sort(Due(q, now), Soonest(q));
    SoonestOrders(q);
    hide Soonest, Sort, Due;
    SortPermutes(Due(q, now), Soonest(q));
    SortSorts(Due(q, now), Soonest(q));
    DueHolds(q, now);
    PermutedHasNoRepeats(Due(q, now), due);
    forall i ensures i in due <==> i in Due(q, now) {
      assert i in due <==> i in multiset(due);
      assert i in Due(q, now) <==> i in multiset(Due(q, now));
    }
  }

  /** A dispatch takes due rows only, none twice, as many as the limit allows, the earliest first. */
  lemma ChosenAreDue(q: Queue, now: real, limit: nat)
    ensures var c := Chosen(q, now, limit);
            && (forall i :: i in c ==> i < |q| && IsDue(q[i], now))
            && (forall j, k :: 0 <= j < k < |c| ==> c[j] != c[k])
            && |c| == (if |Due(q, now)| <= limit then |Due(q, now)| else limit)
  {
    var due, c := Sort(Due(q, now), Soonest(q)), Chosen(q, now, limit);
    SortedDue(q, now);
    DueHolds(q, now);
    assert forall i :: i in c ==> i in due;
    hide Soonest, Sort, Due, Chosen;
  }

  /** A due row that is passed over is due no earlier than any that is taken. */
  lemma EarliestFirst(q: Queue, now: real, limit: nat, i: nat, j: nat)
    requires i in Chosen(q, now, limit) && j in Due(q, now) && j !in Chosen(q, now, limit)
    ensures Soonest(q)(i, j)
  {
    var due, c := Sort(Due(q, now), Soonest(q)), Chosen(q, now, limit);
    SortedDue(q, now);
    hide Soonest, Sort, Due;
    var a :| 0 <= a < |c| && c[a] == i;
    assert j in due;
    var b :| 0 <= b < |due| && due[b] == j;
    assert due[a] == i;
  }

  lemma SoonestOrders(q: Queue)
    ensures TotalPreorder(Soonest(q))
  {
  }

  type Fates = nat -> Fate

  function TriedEach(s: Settings, q: Queue, due: seq<nat>, fates: Fates, now: real): Queue {
    if |due| == 0 then q
    else
      var before, i := TriedEach(s, q, due[..|due| - 1], fates, now), due[|due| - 1];
      if i < |before| then before[i := Tried(s, before[i], fates(i), now)] else before
  }

  function Dispatched(s: Settings, q: Queue, now: real, limit: nat, fates: Fates): Queue {
    TriedEach(s, q, Chosen(q, now, limit), fates, now)
  }

  ghost predicate RowsOf(due: seq<nat>, q: Queue) { NoRepeats(due) && forall k :: 0 <= k < |due| ==> due[k] < |q| }

  lemma {:induction false} TriedAt(s: Settings, q: Queue, due: seq<nat>, fates: Fates, now: real, i: nat)
    requires RowsOf(due, q) && i < |q|
    ensures var r := TriedEach(s, q, due, fates, now);
            |r| == |q| && r[i] == if i in due then Tried(s, q[i], fates(i), now) else q[i]
  {
    hide Tried;
    if |due| > 0 {
      var init, last := due[..|due| - 1], due[|due| - 1];
      TriedAt(s, q, init, fates, now, i);
      assert due == init + [last];
      assert i in due <==> i in init || i == last;
      assert last !in init;
    }
  }

  lemma EachTriedOnce(s: Settings, q: Queue, due: seq<nat>, fates: Fates, now: real)
    requires forall i :: i in due ==> i < |q|
    requires forall j, k :: 0 <= j < k < |due| ==> due[j] != due[k]
    ensures var r := TriedEach(s, q, due, fates, now);
            |r| == |q| && forall i: nat :: i < |q| ==> r[i] == if i in due then Tried(s, q[i], fates(i), now) else q[i]
  {
    hide Tried, TriedEach;
    assert forall k :: 0 <= k < |due| ==> due[k] in due;
    assert RowsOf(due, q);
    var r := TriedEach(s, q, due, fates, now);
    assert |r| == |q| by { TriedLength(s, q, due, fates, now); }
    forall i: nat | i < |q| ensures r[i] == if i in due then Tried(s, q[i], fates(i), now) else q[i] {
      TriedAt(s, q, due, fates, now, i);
    }
  }

  lemma {:induction false} TriedLength(s: Settings, q: Queue, due: seq<nat>, fates: Fates, now: real)
    ensures |TriedEach(s, q, due, fates, now)| == |q|
  {
    if |due| > 0 {
      TriedLength(s, q, due[..|due| - 1], fates, now);
    }
  }

  // ------------------------------------------------------------ over all runs

  /** A row is never tried more often than allowed, and one still open has tries left. */
  ghost predicate Sane(n: Notification) {
    n.attempts <= n.maxAttempts && (!n.status.Final() ==> n.attempts < n.maxAttempts)
  }

  ghost predicate AllSane(q: Queue) { Unique(q) && forall i :: 0 <= i < |q| ==> Sane(q[i]) }

  datatype Event =
    | Announce(alert: nat, transition: Transition, routes: seq<Route>, now: real)
    | Dispatch(now: real, limit: nat, fates: Fates)

  function Happened(s: Settings, q: Queue, e: Event): Queue {
    match e
    case Announce(alert, transition, routes, now) => Enqueued(s, q, alert, transition, routes, now)
    case Dispatch(now, limit, fates) => Dispatched(s, q, now, limit, fates)
  }

  function Run(s: Settings, q: Queue, events: seq<Event>): Queue {
    if |events| == 0 then q else Happened(s, Run(s, q, events[..|events| - 1]), events[|events| - 1])
  }

  /** What one event may do to a row already queued: nothing, or one counted try if it was not final. */
  ghost predicate Moves(before: Notification, after: Notification) {
    Same(before, after) && after.maxAttempts == before.maxAttempts &&
    (after == before || (!before.status.Final() && after.attempts == before.attempts + 1 && !after.status.Pending?))
  }

  ghost predicate AllMove(q: Queue, r: Queue) {
    |q| <= |r| && forall i :: 0 <= i < |q| ==> Moves(q[i], r[i])
  }

  lemma EventMoves(s: Settings, q: Queue, e: Event)
    requires AllSane(q)
    ensures AllSane(Happened(s, q, e)) && AllMove(q, Happened(s, q, e))
  {
    match e
    case Announce(alert, transition, routes, now) =>
      EnqueueOnce(s, q, alert, transition, routes, now);
      hide Enqueued;
    case Dispatch(now, limit, fates) =>
      ChosenAreDue(q, now, limit);
      EachTriedOnce(s, q, Chosen(q, now, limit), fates, now);
      hide Chosen, TriedEach;
      var r := Dispatched(s, q, now, limit, fates);
      forall i | 0 <= i < |q| ensures Sane(r[i]) && Moves(q[i], r[i]) {
        TryIsSane(s, q[i], fates(i), now);
      }
  }

  lemma TryIsSane(s: Settings, n: Notification, fate: Fate, now: real)
    requires Sane(n)
    ensures !n.status.Final() ==> Sane(Tried(s, n, fate, now)) && Moves(n, Tried(s, n, fate, now))
  {
  }

  /** Over any run from an empty queue: each (alert, transition, channel, target) is queued once, no
      notification is tried more than `maxAttempts` times, and by then it is sent or parked. */
  lemma {:induction false} QueueStaysSane(s: Settings, events: seq<Event>)
    ensures AllSane(Run(s, [], events))
  {
    if |events| > 0 {
      QueueStaysSane(s, events[..|events| - 1]);
      EventMoves(s, Run(s, [], events[..|events| - 1]), events[|events| - 1]);
    }
  }

  /** Once sent or parked, a notification never changes again. */
  lemma {:induction false} FinalStays(s: Settings, q: Queue, events: seq<Event>, i: nat)
    requires AllSane(q) && i < |q| && q[i].status.Final()
    ensures var r := Run(s, q, events); AllSane(r) && i < |r| && r[i] == q[i]
  {
    hide AllSane, Happened;
    if |events| > 0 {
      FinalStays(s, q, events[..|events| - 1], i);
      EventMoves(s, Run(s, q, events[..|events| - 1]), events[|events| - 1]);
    }
  }

  // ------------------------------------------------------------- it gets done

  function TriesLeft(n: Notification): int { if n.status.Final() then 0 else n.maxAttempts - n.attempts }

  function AllTriesLeft(q: Queue): int {
    if |q| == 0 then 0 else AllTriesLeft(q[..|q| - 1]) + TriesLeft(q[|q| - 1])
  }

  lemma {:induction false} TriesLeftReplaced(q: Queue, i: nat, n: Notification)
    requires i < |q|
    ensures AllTriesLeft(q[i := n]) == AllTriesLeft(q) - TriesLeft(q[i]) + TriesLeft(n)
  {
    var init := q[..|q| - 1];
    if i < |q| - 1 {
      TriesLeftReplaced(init, i, n);
      assert q[i := n][..|q| - 1] == init[i := n];
    } else {
      assert q[i := n][..|q| - 1] == init;
    }
  }

  /** Every due row taken spends at least one of the tries left. */
  lemma {:induction false} TriesSpend(s: Settings, q: Queue, due: seq<nat>, fates: Fates, now: real)
    requires AllSane(q) && forall i :: i in due ==> i < |q| && !q[i].status.Final()
    requires forall j, k :: 0 <= j < k < |due| ==> due[j] != due[k]
    ensures AllTriesLeft(TriedEach(s, q, due, fates, now)) <= AllTriesLeft(q) - |due|
  {
    hide Tried;
    if |due| > 0 {
      var init, last := due[..|due| - 1], due[|due| - 1];
      assert forall i :: i in init ==> i in due;
      TriesSpend(s, q, init, fates, now);
      EachTriedOnce(s, q, init, fates, now);
      assert last !in init && last in due;
      var before := TriedEach(s, q, init, fates, now);
      TriesLeftReplaced(before, last, Tried(s, q[last], fates(last), now));
      TrySpends(s, q[last], fates(last), now);
    }
  }

  lemma TrySpends(s: Settings, n: Notification, fate: Fate, now: real)
    requires Sane(n) && !n.status.Final()
    ensures TriesLeft(Tried(s, n, fate, now)) < TriesLeft(n)
  {
  }

  /** Every open row is due by then. */
  ghost predicate AllDueBy(q: Queue, t: real) {
    forall i :: 0 <= i < |q| && !q[i].status.Final() ==> IsDue(q[i], t)
  }

  ghost predicate Jittered(fates: Fates) {
    forall i: nat :: fates(i).Error? ==> 0.0 <= fates(i).jitter <= 1.0
  }

  lemma TryIsDueSoon(s: Settings, n: Notification, fate: Fate, now: real, later: real)
    requires s.Valid() && later >= now + s.retryMax
    requires fate.Error? ==> 0.0 <= fate.jitter <= 1.0
    ensures var t := Tried(s, n, fate, now); t.status.Final() || IsDue(t, later)
  {
    if fate.Error? {
      BackoffIsBounded(s, n.attempts + 1, fate.jitter);
    }
  }

  /** After a dispatch everything still open is due again within the longest backoff. */
  lemma DueAgain(s: Settings, q: Queue, now: real, limit: nat, fates: Fates, later: real)
    requires AllSane(q) && s.Valid() && AllDueBy(q, now) && Jittered(fates) && later >= now + s.retryMax
    ensures AllDueBy(Dispatched(s, q, now, limit, fates), later)
  {
    ChosenAreDue(q, now, limit);
    EachTriedOnce(s, q, Chosen(q, now, limit), fates, now);
    var r := Dispatched(s, q, now, limit, fates);
    hide Chosen, TriedEach, Tried, AllSane, Dispatched;
    forall i | 0 <= i < |r| && !r[i].status.Final() ensures IsDue(r[i], later) {
      TryIsDueSoon(s, q[i], fates(i), now, later);
    }
  }

  lemma {:induction false} OpenHasTries(q: Queue)
    requires AllSane(q)
    ensures AllTriesLeft(q) >= 0
    ensures forall i :: 0 <= i < |q| && !q[i].status.Final() ==> AllTriesLeft(q) > 0
  {
    if |q| > 0 {
      OpenHasTries(q[..|q| - 1]);
    }
  }

  /** Dispatches far enough apart that every backoff has run out in between. */
  ghost predicate Spaced(s: Settings, ticks: seq<Event>) {
    && (forall i :: 0 <= i < |ticks| ==> ticks[i].Dispatch? && ticks[i].limit >= 1 && Jittered(ticks[i].fates))
    && (forall i :: 0 < i < |ticks| ==> ticks[i].now >= ticks[i - 1].now + s.retryMax)
  }

  lemma DispatchSpends(s: Settings, q: Queue, now: real, limit: nat, fates: Fates)
    requires AllSane(q) && AllDueBy(q, now) && limit >= 1
    ensures AllTriesLeft(Dispatched(s, q, now, limit, fates)) <= AllTriesLeft(q)
    ensures AllTriesLeft(q) > 0 ==> AllTriesLeft(Dispatched(s, q, now, limit, fates)) < AllTriesLeft(q)
  {
    ChosenAreDue(q, now, limit);
    TriesSpend(s, q, Chosen(q, now, limit), fates, now);
    hide Chosen, TriedEach;
    if AllTriesLeft(q) > 0 {
      var i := SomeOpen(q);
      DueHasAll(q, now, i);
    }
  }

  lemma {:induction false} SomeOpen(q: Queue) returns (i: nat)
    requires AllTriesLeft(q) > 0
    ensures i < |q| && !q[i].status.Final()
  {
    if AllTriesLeft(q[..|q| - 1]) > 0 {
      i := SomeOpen(q[..|q| - 1]);
    } else {
      i := |q| - 1;
    }
  }

  /** Whatever the notifiers do, after as many spaced dispatches as there are tries left every
      notification is sent or parked, even when a dispatch takes only one row. */
  lemma {:induction false} EverythingSettles(s: Settings, q: Queue, ticks: seq<Event>)
    requires AllSane(q) && s.Valid() && Spaced(s, ticks) && (|ticks| > 0 ==> AllDueBy(q, ticks[0].now))
    ensures var r := Run(s, q, ticks);
            && AllSane(r) && (AllTriesLeft(r) <= 0 || AllTriesLeft(r) <= AllTriesLeft(q) - |ticks|)
            && (|ticks| > 0 ==> forall later: real :: later >= ticks[|ticks| - 1].now + s.retryMax ==> AllDueBy(r, later))
            && (|ticks| >= AllTriesLeft(q) ==> forall i :: 0 <= i < |r| ==> r[i].status.Final())
  {
    hide AllSane, Dispatched, AllDueBy, Jittered;
    if |ticks| > 0 {
      var init, last := ticks[..|ticks| - 1], ticks[|ticks| - 1];
      EverythingSettles(s, q, init);
      var m := Run(s, q, init);
      if |init| > 0 {
        assert last.now >= init[|init| - 1].now + s.retryMax;
      }
      EventMoves(s, m, last);
      DispatchSpends(s, m, last.now, last.limit, last.fates);
      forall later: real | later >= last.now + s.retryMax ensures AllDueBy(Run(s, q, ticks), later) {
        DueAgain(s, m, last.now, last.limit, last.fates, later);
      }
    }
    OpenHasTries(Run(s, q, ticks));
  }

  // ------------------------------------------------------------ the dispatcher

  datatype Stats = Stats(sent: nat, failed: nat, deadLetter: nat)

  class Dispatcher {
    const settings: Settings
    var queue: Queue

    constructor (settings: Settings)
      ensures this.settings == settings && queue == []
    {
      this.settings, queue := settings, [];
    }

    /** Insert one row inside its own savepoint; the unique constraint refuses a second one. */
    method Insert(n: Notification) returns (ok: bool)
      modifies this
      ensures ok == !Queued(old(queue), n)
      ensures queue == if ok then old(queue) + [n] else old(queue)
    {
      ok := !Queued(queue, n);
      if ok {
        queue := queue + [n];
      }
    }

    /** Queue a transition on every route; what is returned is what was added. */
    method Enqueue(alert: nat, transition: Transition, routes: seq<Route>, now: real) returns (created: seq<Notification>)
      modifies this
      ensures queue == Enqueued(settings, old(queue), alert, transition, routes, now)
      ensures queue == old(queue) + created
    {
      created := [];
      if transition == Resolving && !settings.sendRecovery {
        return;
      }
      ghost var start := queue;
      for i := 0 to |routes|
        invariant queue == Enqueued(settings, start, alert, transition, routes[..i], now) == start + created
      {
        assert routes[..i + 1][..i] == routes[..i];
        var n := Fresh(settings, alert, transition, routes[i], now);
        var ok := Insert(n);
        if !ok {
          continue;
        }
        created := created + [n];
      }
      assert routes[..|routes|] == routes;
    }

    /** Try every due row, the earliest first, up to the limit. */
    method DispatchDue(now: real, limit: nat, fates: Fates) returns (stats: Stats)
      modifies this
      ensures queue == Dispatched(settings, old(queue), now, limit, fates)
      ensures stats.sent + stats.failed + stats.deadLetter == |Chosen(old(queue), now, limit)|
    {
      hide Chosen, Tried;
      ChosenAreDue(queue, now, limit);
      var due := Chosen(queue, now, limit);
      ghost var start := queue;
      stats := Stats(0, 0, 0);
      for k := 0 to |due|
        invariant |queue| == |start| && queue == TriedEach(settings, start, due[..k], fates, now)
        invariant stats.sent + stats.failed + stats.deadLetter == k
      {
        assert due[..k + 1][..k] == due[..k];
        assert due[k] in due;
        var i := due[k];
        stats := Attempt(i, fates(i), now, stats);
      }
      assert due[..|due|] == due;
    }

    method Attempt(i: nat, fate: Fate, now: real, stats: Stats) returns (r: Stats)
      requires i < |queue|
      modifies this
      ensures queue == old(queue)[i := Tried(settings, old(queue)[i], fate, now)]
      ensures r == match queue[i].status
                   case Sent => stats.(sent := stats.sent + 1)
                   case Failed => stats.(failed := stats.failed + 1)
                   case _ => stats.(deadLetter := stats.deadLetter + 1)
    {
      var n := queue[i];
      n := n.(attempts := n.attempts + 1);
      match fate
      case NoNotifier =>
        queue := queue[i := n.(status := DeadLetter)];
        return stats.(deadLetter := stats.deadLetter + 1);
      case Error(permanent, jitter) =>
        var (handled, after) := HandleFailure(n, permanent, jitter, now, stats);
        queue := queue[i := handled];
        return after;
      case Delivered =>
        queue := queue[i := n.(status := Sent, sentAt := Some(now))];
        return stats.(sent := stats.sent + 1);
    }

    function HandleFailure(n: Notification, permanent: bool, jitter: real, now: real, stats: Stats): (Notification, Stats)
      requires n.attempts >= 1
    {
      if permanent || n.attempts >= n.maxAttempts
      then (n.(status := DeadLetter, nextAt := None), stats.(deadLetter := stats.deadLetter + 1))
      else (n.(status := Failed, nextAt := Some(now + Backoff(settings, n.attempts, jitter))),
            stats.(failed := stats.failed + 1))
    }
  }
}
