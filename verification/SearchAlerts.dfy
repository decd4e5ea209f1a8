/** Alerts raised by scheduled searches (backend/app/alerts/search_alerts.py, with the failure counter
    that backend/app/services/search_scheduler.py keeps beside them): one for a crossed threshold and
    one for a search that keeps failing. */
module SearchAlerts {
  import opened Wrappers
  import opened Alerts
  import opened AlertStore

  /** A search, the identities of its two conditions and the settings of its failure alert. */
  datatype Search = Search(id: nat, name: string, severity: Severity, thresholdId: string, failureId: string, alertAfter: nat) {
    predicate Valid() { thresholdId != failureId && alertAfter >= 1 }
  }

  /** A finished execution; `hasThreshold` is the search's configuration when it is evaluated. */
  datatype Execution = Execution(completed: bool, hasThreshold: bool, breached: bool, truncated: bool, evidence: Evidence)

  /** The alert table and the search's count of consecutive failures. */
  datatype Watch = Watch(table: Table, failures: nat)

  function Finding(s: Search, e: Execution): Input {
    Input(s.thresholdId, s.name + " crossed its threshold", s.severity, "scheduled_search", Some(s.id), None,
          Some(e.evidence), None, Some(map["search" := s.name]))
  }

  function Failing(s: Search, e: Execution): Input {
    Input(s.failureId, s.name + " is failing to run", High, "scheduled_search", Some(s.id), None,
          Some(e.evidence), None, Some(map["search" := s.name]))
  }

  function BackWithin(s: Search): Resolution { Resolution(s.thresholdId, "search-scheduler", Some("result back within threshold")) }

  function RanAgain(s: Search): Resolution { Resolution(s.failureId, "search-scheduler", Some("search executed successfully")) }

  /** What the threshold condition asks of the alert store. */
  function ThresholdCall(s: Search, e: Execution): Option<Call> {
    if !e.completed || !e.hasThreshold then None
    else if !e.breached then if e.truncated then None else Some(ResolveBy(BackWithin(s)))
    else Some(Assert(Finding(s, e)))
  }

  /** What the failure condition asks, `failures` counting this execution. */
  function FailureCall(s: Search, e: Execution, failures: nat): Option<Call> {
    if e.completed then Some(ResolveBy(RanAgain(s)))
    else if failures < s.alertAfter then None
    else Some(Assert(Failing(s, e)))
  }

  function Done(t: Table, c: Option<Call>, now: int): Table { if c.None? then t else Called(t, c.value, now).0 }

  function Answer(t: Table, c: Option<Call>, now: int): Option<AlertResult> {
    if c.None? then None
    else match Called(t, c.value, now).1
      case Ok(r) => r
      case Err(_) => None
  }

  function Listed<T>(o: Option<T>): seq<T> { if o.Some? then [o.value] else [] }

  /** Record one execution: count it, then apply both conditions. */
  function Recorded(s: Search, w: Watch, e: Execution, now: int): Watch {
    var failures := if e.completed then 0 else w.failures + 1;
    Watch(Done(Done(w.table, ThresholdCall(s, e), now), FailureCall(s, e, failures), now), failures)
  }

  /** What can happen around the search: its executions, acknowledgements of any alert, and calls about
      other conditions. */
  datatype Event = Ran(execution: Execution, now: int) | Seen(id: nat, actor: string, now: int) | Elsewhere(call: Call, now: int)

  predicate IsElsewhere(s: Search, c: Call) {
    match c
    case Assert(d) => d.fingerprint != s.thresholdId && d.fingerprint != s.failureId
    case Race(d) => d.fingerprint != s.thresholdId && d.fingerprint != s.failureId
    case ResolveBy(r) => r.fingerprint != s.thresholdId && r.fingerprint != s.failureId
    case _ => false
  }

  ghost predicate Around(s: Search, events: seq<Event>) {
    forall i :: 0 <= i < |events| && events[i].Elsewhere? ==> IsElsewhere(s, events[i].call)
  }

  function Happened(s: Search, w: Watch, e: Event): Watch {
    match e
    case Ran(execution, now) => Recorded(s, w, execution, now)
    case Seen(id, actor, now) => w.(table := Called(w.table, Acknowledge(id, actor), now).0)
    case Elsewhere(call, now) => w.(table := Called(w.table, call, now).0)
  }

  function RunEvents(s: Search, w: Watch, events: seq<Event>): Watch {
    if |events| == 0 then w else Happened(s, RunEvents(s, w, events[..|events| - 1]), events[|events| - 1])
  }

  // ----------------------------------------------------- what the events mean

  /** An execution that says something about the threshold: a completed one, breached or not truncated. */
  predicate Conclusive(e: Event) {
    e.Ran? && e.execution.completed && e.execution.hasThreshold && (e.execution.breached || !e.execution.truncated)
  }

  /** Conclusive breaches since the last conclusive execution within the threshold. */
  ghost function Breaches(events: seq<Event>): nat {
    if |events| == 0 then 0
    else
      var before, last := Breaches(events[..|events| - 1]), events[|events| - 1];
      if !Conclusive(last) then before else if last.execution.breached then before + 1 else 0
  }

  /** Failed executions since the last completed one. */
  ghost function Failures(events: seq<Event>): nat {
    if |events| == 0 then 0
    else
      var before, last := Failures(events[..|events| - 1]), events[|events| - 1];
      if !last.Ran? then before else if last.execution.completed then 0 else before + 1
  }

  /** The last conclusive execution breached. */
  ghost predicate LastBreached(events: seq<Event>) {
    exists i :: 0 <= i < |events| && Conclusive(events[i]) && events[i].execution.breached
                && forall j :: i < j < |events| ==> !Conclusive(events[j])
  }

  lemma {:induction false} BreachesSayLast(events: seq<Event>)
    ensures Breaches(events) > 0 <==> LastBreached(events)
  {
    if |events| > 0 {
      var init, last := events[..|events| - 1], events[|events| - 1];
      BreachesSayLast(init);
      if Conclusive(last) {
        if last.execution.breached {
          assert events[|events| - 1] == last;
        }
      } else if LastBreached(init) {
        var i :| 0 <= i < |init| && Conclusive(init[i]) && init[i].execution.breached
                 && forall j :: i < j < |init| ==> !Conclusive(init[j]);
        assert events[i] == init[i];
        assert forall j :: i < j < |events| ==> !Conclusive(events[j]);
      }
    }
  }

  function Occurrences(s: Standing): nat { if s.Quiet? then 0 else s.occurrences }

  /** How often the condition's active alert has been asserted; 0 when there is none. */
  ghost function TimesAsserted(t: Table, fingerprint: string): nat { Occurrences(Stands(t, fingerprint)) }

  ghost predicate Counts(t: Table) {
    OneActive(t) && forall i :: 0 <= i < |t| ==> t[i].occurrences >= 1
  }

  lemma CallKeepsCounts(t: Table, c: Call, now: int)
    requires Counts(t)
    ensures Counts(Called(t, c, now).0)
  {
    CallKeepsOneActive(t, c, now);
    hide OneActive, SortedUnion;
  }

  lemma CallCounts(t: Table, c: Call, now: int, fingerprint: string)
    requires Counts(t)
    ensures var n := TimesAsserted(Called(t, c, now).0, fingerprint);
            match c
            case Assert(d) => n == TimesAsserted(t, fingerprint) + (if d.fingerprint == fingerprint then 1 else 0)
            case ResolveBy(r) => n == if r.fingerprint == fingerprint then 0 else TimesAsserted(t, fingerprint)
            case Acknowledge(_, _) => n == TimesAsserted(t, fingerprint)
            case Race(d) => d.fingerprint != fingerprint ==> n == TimesAsserted(t, fingerprint)
            case Resolve(_, _, _) => true
  {
    CallFollows(t, c, now, fingerprint);
    hide Refreshed, SortedUnion, OneActive;
  }

  lemma ActiveIffAsserted(t: Table, fingerprint: string)
    requires Counts(t)
    ensures Find(t, fingerprint).Some? <==> TimesAsserted(t, fingerprint) > 0
  {
  }

  lemma DoneCounts(s: Search, t: Table, c: Option<Call>, now: int)
    requires Counts(t)
    ensures Counts(Done(t, c, now))
  {
    hide Called, Counts;
    if c.Some? {
      CallKeepsCounts(t, c.value, now);
    }
  }

  lemma RecordedCounts(s: Search, w: Watch, e: Execution, now: int)
    requires Counts(w.table) && s.Valid()
    ensures var r := Recorded(s, w, e, now);
            && Counts(r.table)
            && r.failures == (if e.completed then 0 else w.failures + 1)
            && TimesAsserted(r.table, s.thresholdId) ==
                 (if !Conclusive(Ran(e, now)) then TimesAsserted(w.table, s.thresholdId)
                  else if e.breached then TimesAsserted(w.table, s.thresholdId) + 1 else 0)
            && TimesAsserted(r.table, s.failureId) ==
                 (if e.completed then 0
                  else if r.failures < s.alertAfter then TimesAsserted(w.table, s.failureId)
                  else TimesAsserted(w.table, s.failureId) + 1)
  {
    hide Called, Counts, TimesAsserted;
    var t1 := Done(w.table, ThresholdCall(s, e), now);
    var c1, c2 := ThresholdCall(s, e), FailureCall(s, e, if e.completed then 0 else w.failures + 1);
    DoneCounts(s, w.table, c1, now);
    if c1.Some? {
      CallCounts(w.table, c1.value, now, s.thresholdId);
      CallCounts(w.table, c1.value, now, s.failureId);
    }
    DoneCounts(s, t1, c2, now);
    if c2.Some? {
      CallCounts(t1, c2.value, now, s.thresholdId);
      CallCounts(t1, c2.value, now, s.failureId);
    }
  }

  /** How often the failure alert is due after `n` failures in a row. */
  function Due(s: Search, n: nat): nat { if n < s.alertAfter then 0 else n - s.alertAfter + 1 }

  ghost predicate Agrees(s: Search, w: Watch, events: seq<Event>) {
    && Counts(w.table) && w.failures == Failures(events)
    && TimesAsserted(w.table, s.thresholdId) == Breaches(events)
    && TimesAsserted(w.table, s.failureId) == Due(s, Failures(events))
  }

  lemma {:induction false} EventsAgree(s: Search, events: seq<Event>)
    requires s.Valid() && Around(s, events)
    ensures Agrees(s, RunEvents(s, Watch([], 0), events), events)
  {
    if |events| > 0 {
      var init, last := events[..|events| - 1], events[|events| - 1];
      EventsAgree(s, init);
      var w := RunEvents(s, Watch([], 0), init);
      hide Recorded, Counts, TimesAsserted, Called;
      match last
      case Ran(e, now) => RecordedCounts(s, w, e, now);
      case Seen(id, actor, now) =>
        CallKeepsCounts(w.table, Acknowledge(id, actor), now);
        CallCounts(w.table, Acknowledge(id, actor), now, s.thresholdId);
        CallCounts(w.table, Acknowledge(id, actor), now, s.failureId);
      case Elsewhere(call, now) =>
        CallKeepsCounts(w.table, call, now);
        CallCounts(w.table, call, now, s.thresholdId);
        CallCounts(w.table, call, now, s.failureId);
    }
  }

  /** After any executions, acknowledged or not and whatever else the store is used for: the threshold
      alert is active exactly when the last conclusive execution breached, and its occurrences are the
      breaches since it opened; the failure alert is active exactly when the last `alertAfter`
      executions all failed, and its occurrences are the failures from the one that opened it. */
  lemma AlertsFollowExecutions(s: Search, events: seq<Event>)
    requires s.Valid() && Around(s, events)
    ensures var t := RunEvents(s, Watch([], 0), events).table;
            && (Find(t, s.thresholdId).Some? <==> LastBreached(events))
            && (Find(t, s.thresholdId).Some? ==> t[Find(t, s.thresholdId).value].occurrences == Breaches(events))
            && (Find(t, s.failureId).Some? <==> Failures(events) >= s.alertAfter)
            && (Find(t, s.failureId).Some? ==>
                  t[Find(t, s.failureId).value].occurrences == Failures(events) - s.alertAfter + 1)
  {
    EventsAgree(s, events);
    var t := RunEvents(s, Watch([], 0), events).table;
    BreachesSayLast(events);
    ActiveIffAsserted(t, s.thresholdId);
    ActiveIffAsserted(t, s.failureId);
    hide RunEvents, LastBreached, Counts;
  }

  /** The evaluator working on the store. */
  class Evaluator {
    const search: Search
    const service: AlertService
    var failures: nat

    constructor (search: Search, service: AlertService)
      ensures this.search == search && this.service == service && failures == 0
    {
      this.search, this.service, failures := search, service, 0;
    }

    /** Count the execution, then apply both conditions to it. */
    method Record(e: Execution, now: int) returns (results: seq<AlertResult>)
      modifies this, service
      ensures Watch(service.table, failures) == Recorded(search, Watch(old(service.table), old(failures)), e, now)
      ensures var t := Done(old(service.table), ThresholdCall(search, e), now);
              results == Listed(Answer(old(service.table), ThresholdCall(search, e), now))
                         + Listed(Answer(t, FailureCall(search, e, failures), now))
    {
      hide Called;
      failures := if e.completed then 0 else failures + 1;
      var threshold := EvaluateThreshold(e, now);
      var failure := EvaluateFailure(e, now);
      results := Listed(threshold) + Listed(failure);
    }

    method EvaluateThreshold(e: Execution, now: int) returns (r: Option<AlertResult>)
      modifies service
      ensures service.table == Done(old(service.table), ThresholdCall(search, e), now)
      ensures r == Answer(old(service.table), ThresholdCall(search, e), now)
    {
      if !e.completed || !e.hasThreshold {
        return None;
      }
      if !e.breached {
        if e.truncated {
          return None;
        }
        r := service.ResolveByFingerprint(BackWithin(search), now);
        return;
      }
      var result := service.OpenOrUpdate(Finding(search, e), now, None);
      return Some(result.value);
    }

    method EvaluateFailure(e: Execution, now: int) returns (r: Option<AlertResult>)
      modifies service
      ensures service.table == Done(old(service.table), FailureCall(search, e, failures), now)
      ensures r == Answer(old(service.table), FailureCall(search, e, failures), now)
    {
      if e.completed {
        r := service.ResolveByFingerprint(RanAgain(search), now);
        return;
      }
      if failures < search.alertAfter {
        return None;
      }
      var result := service.OpenOrUpdate(Failing(search, e), now, None);
      return Some(result.value);
    }
  }
}
