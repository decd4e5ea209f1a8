/** The alert service working on its table in place (backend/app/alerts/service.py). Each method does to
    the table what `Alerts` says of its value; `ApplyBulk` looks every condition up once and then works
    from that dictionary, yet leaves what one call at a time would. */
module AlertStore {
  import opened Wrappers
  import opened Alerts

  /** What the dictionary of active alerts must say while the bulk call works. */
  ghost predicate Indexes(active: map<string, nat>, t: Table, fingerprints: set<string>) {
    forall f :: f in fingerprints ==> (if f in active then Some(active[f]) else None) == Find(t, f)
  }

  lemma IndexesSame(active: map<string, nat>, t: Table, u: Table, fingerprints: set<string>)
    requires Indexes(active, t, fingerprints) && SameShape(u, t)
    ensures Indexes(active, u, fingerprints)
  {
    forall f | f in fingerprints ensures Find(u, f) == Find(t, f) {
      ShapeDecides(u, t, f);
    }
  }

  lemma IndexesAppended(active: map<string, nat>, t: Table, a: Alert, fingerprints: set<string>)
    requires Indexes(active, t, fingerprints) && a.Active()
    ensures Indexes(active[a.fingerprint := |t|], t + [a], fingerprints)
  {
    assert (t + [a])[..|t + [a]| - 1] == t;
  }

  lemma IndexesResolved(active: map<string, nat>, t: Table, a: Alert, fingerprints: set<string>, f: string)
    requires Indexes(active, t, fingerprints) && OneActive(t) && Find(t, f).Some?
    requires a.fingerprint == f && !a.Active()
    ensures OneActive(t[Find(t, f).value := a])
    ensures Indexes(active - {f}, t[Find(t, f).value := a], fingerprints)
  {
    var i := Find(t, f).value;
    var u := t[i := a];
    forall g | g in fingerprints
      ensures (if g in active - {f} then Some((active - {f})[g]) else None) == Find(u, g)
    {
      if g != f && Find(t, g).Some? {
        assert u[Find(t, g).value] == t[Find(t, g).value];
        FindIsThe(u, Find(t, g).value);
      }
    }
  }

  /** The alerts named by the call that are active when it starts. */
  function Snapshot(t: Table, fingerprints: set<string>): (active: map<string, nat>)
    ensures Indexes(active, t, fingerprints)
  {
    map f | f in fingerprints && Find(t, f).Some? :: Find(t, f).value
  }

  function Named(opens: seq<Arrival>, resolutions: seq<Resolution>): set<string> {
    (set d | d in opens :: d.fingerprint) + (set r | r in resolutions :: r.fingerprint)
  }

  /** The row as far as the partial unique index lets it in. */
  function Landed(t: Table, a: Alert): seq<Alert> { if a.Active() && Find(t, a.fingerprint).Some? then [] else [a] }

  /** A row that is not active for the condition leaves the lookup as it was. */
  lemma NotLive(t: Table, a: Alert, fingerprint: string)
    ensures !Live(a, fingerprint) ==> Find(t + [a], fingerprint) == Find(t, fingerprint)
  {
    assert (t + [a])[..|t|] == t;
  }

  class AlertService {
    var table: Table

    constructor ()
      ensures table == []
    {
      table := [];
    }

    /** Insert one row; the partial unique index refuses a second active alert of a condition. */
    method Insert(a: Alert) returns (ok: bool)
      modifies this
      ensures ok == !(a.Active() && Find(old(table), a.fingerprint).Some?)
      ensures table == if ok then old(table) + [a] else old(table)
    {
      ok := !(a.Active() && Find(table, a.fingerprint).Some?);
      if ok {
        table := table + [a];
      }
    }

    /** Look the condition up, then refresh or insert. `rival` is a row that another worker commits in
        between. */
    method OpenOrUpdate(d: Input, now: int, rival: Option<Alert>) returns (r: Result<AlertResult, AlertError>)
      modifies this
      ensures var found := Find(old(table), d.fingerprint);
              if found.Some? || rival.None? then
                table == Asserted(old(table), d, now) && r == Ok(AssertResult(old(table), d))
              else if Live(rival.value, d.fingerprint) then
                table == Called(old(table) + [rival.value], Race(d), now).0
                && r == Ok(AlertResult(|old(table)|, false, true, None))
              else
                table == old(table) + Landed(old(table), rival.value) + [NewAlert(d, now)]
                && r == Ok(AlertResult(|table| - 1, true, false, Some(Opening)))
    {
      hide Refreshed, Bumped;
      var existing := Find(table, d.fingerprint);
      if existing.Some? {
        var id := existing.value;
        table := table[id := Refreshed(table[id], d, now)];
        return Ok(AlertResult(id, false, true, None));
      }
      if rival.Some? {
        var landed := Insert(rival.value);
        if rival.value.Active() { LastIsLive(old(table), rival.value); }
        NotLive(old(table), rival.value, d.fingerprint);
      }
      r := InsertOrBump(d, now);
    }

    /** Insert the new alert; when the index refuses it, reload the winner and count on it. */
    method InsertOrBump(d: Input, now: int) returns (r: Result<AlertResult, AlertError>)
      modifies this
      ensures table == (if Find(old(table), d.fingerprint).Some? then Called(old(table), Race(d), now).0
                        else old(table) + [NewAlert(d, now)])
      ensures r == Ok(if Find(old(table), d.fingerprint).Some?
                      then AlertResult(Find(old(table), d.fingerprint).value, false, true, None)
                      else AlertResult(|old(table)|, true, false, Some(Opening)))
    {
      var ok := Insert(NewAlert(d, now));
      if !ok {
        var winner := Find(table, d.fingerprint);
        if winner.None? {
          return Err(Conflict);
        }
        table := table[winner.value := Bumped(table[winner.value], now)];
        return Ok(AlertResult(winner.value, false, true, None));
      }
      return Ok(AlertResult(|table| - 1, true, false, Some(Opening)));
    }

    method AcknowledgeAlert(id: nat, actor: string, now: int) returns (r: Result<AlertResult, AlertError>)
      modifies this
      ensures var (t, expected) := Called(old(table), Acknowledge(id, actor), now);
              table == t && (if r.Ok? then expected == Ok(Some(r.value)) else expected == Err(r.error))
    {
      if id >= |table| {
        return Err(NotFound);
      }
      if table[id].status != Open {
        return Ok(AlertResult(id, false, false, None));
      }
      table := table[id := table[id].(status := Acknowledged, acknowledged := Some((now, actor)))];
      return Ok(AlertResult(id, false, true, Some(Acknowledging)));
    }

    method ResolveAlert(id: nat, actor: string, reason: Option<string>, now: int) returns (r: Result<AlertResult, AlertError>)
      modifies this
      ensures var (t, expected) := Called(old(table), Resolve(id, actor, reason), now);
              table == t && (if r.Ok? then expected == Ok(Some(r.value)) else expected == Err(r.error))
    {
      if id >= |table| {
        return Err(NotFound);
      }
      if table[id].status == Resolved {
        return Ok(AlertResult(id, false, false, None));
      }
      table := table[id := table[id].(status := Resolved, resolved := Some((now, actor, reason)))];
      return Ok(AlertResult(id, false, true, Some(Resolving)));
    }

    method ResolveByFingerprint(item: Resolution, now: int) returns (r: Option<AlertResult>)
      modifies this
      ensures (table, r) == ResolvedBy(old(table), item, now)
    {
      var alert := Find(table, item.fingerprint);
      if alert.None? {
        return None;
      }
      var result := ResolveAlert(alert.value, item.actor, item.reason, now);
      return Some(result.value);
    }

    /** All of a bucket's alerts with a single lookup at the start: the same table and the same results, in order, as
        `OpenOrUpdate` over the opens and then `ResolveByFingerprint` over the resolutions. */
    method ApplyBulk(opens: seq<Arrival>, resolutions: seq<Resolution>, now: int)
      returns (asserted: seq<AlertResult>, withdrawn: seq<Option<AlertResult>>)
      requires OneActive(table)
      modifies this
      ensures asserted == EnterResults(old(table), opens, now)
      ensures (table, withdrawn) == ResolveAll(EnterAll(old(table), opens, now), resolutions, now)
      ensures OneActive(table)
    {
      hide Indexes, EnterAll, EnterResults, Part, OneActive, ResolveAll, FirstResults, AllResults;
      ghost var start := table;
      var fingerprints := Named(opens, resolutions);
      var active := Snapshot(table, fingerprints);
      var results := RefreshKnown(opens, active, now, fingerprints);
      active, asserted := OpenTheRest(opens, active, results, now, start, fingerprints);
      EnterAllKeepsOneActive(start, opens, now);
      withdrawn := ResolveEach(resolutions, active, now, fingerprints);
    }

    /** First pass: only the inputs whose condition the snapshot knows. */
    method RefreshKnown(opens: seq<Arrival>, active: map<string, nat>, now: int, ghost fingerprints: set<string>)
      returns (results: map<nat, AlertResult>)
      requires Indexes(active, table, fingerprints) && forall d :: d in opens ==> d.fingerprint in fingerprints
      modifies this
      ensures table == EnterAll(old(table), Part(old(table), opens, true), now)
      ensures Indexes(active, table, fingerprints) && FirstResults(results, old(table), opens, |opens|, now)
    {
      hide EnterAll, Refreshed, Part, Indexes, FirstResults;
      ghost var start := table;
      results := map[];
      NoResultsYet(start, opens, now);
      for index := 0 to |opens|
        invariant table == EnterAll(start, Part(start, opens[..index], true), now)
        invariant Indexes(active, table, fingerprints)
        invariant FirstResults(results, start, opens, index, now)
      {
        var d := opens[index];
        FirstPassStep(start, opens, index, active, results, now, table, fingerprints);
        if d.fingerprint in active {
          var id := active[d.fingerprint];
          table := table[id := Refreshed(table[id], d.input, now)];
          results := results[index := AlertResult(id, false, true, None)];
        }
      }
      assert opens[..|opens|] == opens;
    }

    /** Second pass, in input order: create what was not open, refresh what this call created. */
    method OpenTheRest(opens: seq<Arrival>, snapshot: map<string, nat>, first: map<nat, AlertResult>, now: int,
                       ghost start: Table, ghost fingerprints: set<string>)
      returns (active: map<string, nat>, asserted: seq<AlertResult>)
      requires table == EnterAll(start, Part(start, opens, true), now)
      requires Indexes(snapshot, table, fingerprints) && forall d :: d in opens ==> d.fingerprint in fingerprints
      requires FirstResults(first, start, opens, |opens|, now)
      modifies this
      ensures table == EnterAll(start, opens, now) && Indexes(active, table, fingerprints)
      ensures asserted == EnterResults(start, opens, now)
    {
      hide EnterAll, Refreshed, Part, Indexes, FirstResults, AllResults;
      ghost var mid := table;
      active := snapshot;
      var results: map<nat, AlertResult> := first;
      SecondPassStarts(first, start, opens, now);
      for index := 0 to |opens|
        invariant table == EnterAll(mid, Part(start, opens[..index], false), now)
        invariant Indexes(active, table, fingerprints)
        invariant AllResults(results, start, opens, index, now)
      {
        var d := opens[index];
        SecondPassStep(start, mid, opens, index, active, results, now, table, fingerprints);
        if index !in results {
          if d.fingerprint in active {
            var id := active[d.fingerprint];
            table := table[id := Refreshed(table[id], d.input, now)];
            results := results[index := AlertResult(id, false, true, None)];
          } else {
            var result := OpenNew(d, now);
            active := active[d.fingerprint := result.id];
            results := results[index := result];
          }
        }
      }
      assert opens[..|opens|] == opens;
      TwoPassesAreOne(start, opens, now);
      EveryResult(results, start, opens, now);
      asserted := seq(|opens|, (i: nat) requires i < |opens| && i in results => results[i]);
    }

    /** Insert a new alert inside its own savepoint; when a rival's is there first, reload it and count on it. */
    method OpenNew(e: Arrival, now: int) returns (r: AlertResult)
      requires Find(table, e.fingerprint).None?
      modifies this
      ensures table == old(table) + [RowFor(e, now)] && r == NewResult(e, |old(table)|)
    {
      ghost var before := table;
      if e.rival.Some? {
        var landed := Insert(RivalRow(e));
        LastIsLive(before, RivalRow(e));
      }
      var result := InsertOrBump(e.input, now);
      r := result.value;
    }

    method ResolveEach(resolutions: seq<Resolution>, index: map<string, nat>, now: int, ghost fingerprints: set<string>)
      returns (withdrawn: seq<Option<AlertResult>>)
      requires OneActive(table) && Indexes(index, table, fingerprints)
      requires forall r :: r in resolutions ==> r.fingerprint in fingerprints
      modifies this
      ensures (table, withdrawn) == ResolveAll(old(table), resolutions, now) && OneActive(table)
    {
      hide OneActive, Indexes;
      ghost var start := table;
      var active := index;
      withdrawn := [];
      for i := 0 to |resolutions|
        invariant (table, withdrawn) == ResolveAll(start, resolutions[..i], now)
        invariant OneActive(table) && Indexes(active, table, fingerprints)
      {
        var item := resolutions[i];
        ResolveStep(start, resolutions, i, active, table, fingerprints, now);
        if item.fingerprint !in active {
          withdrawn := withdrawn + [None];
          continue;
        }
        var id := active[item.fingerprint];
        table := table[id := table[id].(status := Resolved, resolved := Some((now, item.actor, item.reason)))];
        active := active - {item.fingerprint};
        withdrawn := withdrawn + [Some(AlertResult(id, false, true, Some(Resolving)))];
      }
      assert resolutions[..|resolutions|] == resolutions;
    }
  }

  // ------------------------------------------------------- the steps of the bulk

  ghost function ResultAt(start: Table, opens: seq<Arrival>, k: nat, now: int): AlertResult
    requires k < |opens|
  {
    EnteredResult(EnterAll(start, opens[..k], now), opens[k])
  }

  ghost predicate KnownAt(start: Table, opens: seq<Arrival>, k: nat)
    requires k < |opens|
  {
    Find(start, opens[k].fingerprint).Some?
  }

  /** The first `n` inputs have been through the first pass. */
  ghost predicate FirstResults(results: map<nat, AlertResult>, start: Table, opens: seq<Arrival>, n: nat, now: int) {
    && (forall k: nat :: k in results <==> k < |opens| && k < n && KnownAt(start, opens, k))
    && (forall k: nat :: k in results ==> k < |opens| && results[k] == ResultAt(start, opens, k, now))
  }

  /** The first `n` have been through the second as well. */
  ghost predicate AllResults(results: map<nat, AlertResult>, start: Table, opens: seq<Arrival>, n: nat, now: int) {
    && (forall k: nat :: k in results <==> k < |opens| && (k < n || KnownAt(start, opens, k)))
    && (forall k: nat :: k in results ==> k < |opens| && results[k] == ResultAt(start, opens, k, now))
  }

  /** The result of an arrival that found no active alert. */
  function NewResult(e: Arrival, id: nat): AlertResult {
    if e.rival.Some? then AlertResult(id, false, true, None) else AlertResult(id, true, false, Some(Opening))
  }

  lemma NoResultsYet(start: Table, opens: seq<Arrival>, now: int)
    ensures FirstResults(map[], start, opens, 0, now)
    ensures EnterAll(start, Part(start, opens[..0], true), now) == start
  {
  }

  lemma SecondPassStarts(first: map<nat, AlertResult>, start: Table, opens: seq<Arrival>, now: int)
    requires FirstResults(first, start, opens, |opens|, now)
    ensures AllResults(first, start, opens, 0, now)
    ensures forall t: Table :: EnterAll(t, Part(start, opens[..0], false), now) == t
  {
  }

  lemma EveryResult(results: map<nat, AlertResult>, start: Table, opens: seq<Arrival>, now: int)
    requires AllResults(results, start, opens, |opens|, now)
    ensures forall k: nat :: k < |opens| ==> k in results && results[k] == EnterResults(start, opens, now)[k]
  {
  }

  /** A lookup in the dictionary finds the alert to refresh; `table'` is the table refreshed. */
  lemma FirstPassStep(start: Table, opens: seq<Arrival>, index: nat, active: map<string, nat>, results: map<nat, AlertResult>,
                      now: int, table: Table, fingerprints: set<string>)
    requires index < |opens| && opens[index].fingerprint in fingerprints && Indexes(active, table, fingerprints)
    requires table == EnterAll(start, Part(start, opens[..index], true), now)
    requires FirstResults(results, start, opens, index, now)
    ensures var (d, next) := (opens[index], EnterAll(start, Part(start, opens[..index + 1], true), now));
            if d.fingerprint in active then
              && active[d.fingerprint] < |table|
              && next == table[active[d.fingerprint] := Refreshed(table[active[d.fingerprint]], d.input, now)]
              && Indexes(active, next, fingerprints)
              && FirstResults(results[index := AlertResult(active[d.fingerprint], false, true, None)], start, opens, index + 1, now)
            else next == table && FirstResults(results, start, opens, index + 1, now)
  {
    hide Refreshed, SameShape, EnterAll, EnteredResult;
    var d := opens[index];
    assert opens[..index + 1][..index] == opens[..index];
    KnownKeepShape(start, opens[..index], now);
    ShapeDecides(table, start, d.fingerprint);
    if d.fingerprint in active {
      var part := Part(start, opens[..index], true);
      assert (part + [d])[..|part + [d]| - 1] == part;
      AppendAssert(start, part, d, now);
      AssertKeepsShape(table, table, d, now) by { SameItself(table); }
      IndexesSame(active, table, Entered(table, d, now), fingerprints);
      KnownKeepFound(start, opens[..index], d.fingerprint, now);
      FoundResult(EnterAll(start, opens[..index], now), d);
    } else {
      assert Part(start, opens[..index + 1], true) == Part(start, opens[..index], true);
    }
  }

  lemma FoundResult(t: Table, d: Arrival)
    requires Find(t, d.fingerprint).Some?
    ensures EnteredResult(t, d) == AlertResult(Find(t, d.fingerprint).value, false, true, None)
  {
  }

  lemma SameItself(t: Table)
    ensures SameShape(t, t)
  {
  }

  lemma AppendAssert(t: Table, part: seq<Arrival>, d: Arrival, now: int)
    ensures EnterAll(t, part + [d], now) == Entered(EnterAll(t, part, now), d, now)
  {
    assert (part + [d])[..|part + [d]| - 1] == part;
  }

  lemma SecondPassStep(start: Table, mid: Table, opens: seq<Arrival>, index: nat, active: map<string, nat>,
                       results: map<nat, AlertResult>, now: int, table: Table, fingerprints: set<string>)
    requires index < |opens| && opens[index].fingerprint in fingerprints && Indexes(active, table, fingerprints)
    requires mid == EnterAll(start, Part(start, opens, true), now)
    requires table == EnterAll(mid, Part(start, opens[..index], false), now)
    requires AllResults(results, start, opens, index, now)
    ensures var (d, next) := (opens[index], EnterAll(mid, Part(start, opens[..index + 1], false), now));
            if index in results then next == table && AllResults(results, start, opens, index + 1, now)
            else if d.fingerprint in active then
              && active[d.fingerprint] < |table|
              && next == table[active[d.fingerprint] := Refreshed(table[active[d.fingerprint]], d.input, now)]
              && Indexes(active, next, fingerprints)
              && AllResults(results[index := AlertResult(active[d.fingerprint], false, true, None)], start, opens, index + 1, now)
            else
              && Find(table, d.fingerprint).None?
              && next == table + [RowFor(d, now)] && Indexes(active[d.fingerprint := |table|], next, fingerprints)
              && AllResults(results[index := NewResult(d, |table|)], start, opens, index + 1, now)
  {
    hide Refreshed, SameShape, EnterAll, AllResults, Indexes, EnteredResult;
    var d := opens[index];
    assert opens[..index + 1][..index] == opens[..index];
    NextResult(results, start, opens, index, now);
    if index in results {
      InResults(results, start, opens, index, now);
      assert Part(start, opens[..index + 1], false) == Part(start, opens[..index], false);
    } else {
      InResults(results, start, opens, index, now);
      var part := Part(start, opens[..index], false);
      assert Part(start, opens[..index + 1], false) == part + [d];
      AppendAssert(mid, part, d, now);
      SecondPassSeesTheSame(start, opens, index, now);
      AssertKeepsShape(table, EnterAll(start, opens[..index], now), d, now);
      assert ResultAt(start, opens, index, now) == EnteredResult(table, d);
      Looked(active, table, fingerprints, d, now);
    }
  }

  lemma InResults(results: map<nat, AlertResult>, start: Table, opens: seq<Arrival>, index: nat, now: int)
    requires index < |opens| && AllResults(results, start, opens, index, now)
    ensures index in results <==> KnownAt(start, opens, index)
  {
  }

  lemma NextResult(results: map<nat, AlertResult>, start: Table, opens: seq<Arrival>, index: nat, now: int)
    requires index < |opens| && AllResults(results, start, opens, index, now)
    ensures index in results ==> AllResults(results, start, opens, index + 1, now)
    ensures AllResults(results[index := ResultAt(start, opens, index, now)], start, opens, index + 1, now)
  {
    hide ResultAt, KnownAt;
  }

  /** Work from the dictionary does to the table what a lookup would, and keeps the dictionary true. */
  lemma Looked(active: map<string, nat>, table: Table, fingerprints: set<string>, d: Arrival, now: int)
    requires Indexes(active, table, fingerprints) && d.fingerprint in fingerprints
    ensures var next := Entered(table, d, now);
            if d.fingerprint in active then
              && active[d.fingerprint] < |table|
              && next == table[active[d.fingerprint] := Refreshed(table[active[d.fingerprint]], d.input, now)]
              && Indexes(active, next, fingerprints)
              && EnteredResult(table, d) == AlertResult(active[d.fingerprint], false, true, None)
            else
              && Find(table, d.fingerprint).None?
              && next == table + [RowFor(d, now)] && Indexes(active[d.fingerprint := |table|], next, fingerprints)
              && EnteredResult(table, d) == NewResult(d, |table|)
  {
    hide Refreshed, SameShape;
    if d.fingerprint in active {
      AssertKeepsShape(table, table, d, now) by { SameItself(table); }
      IndexesSame(active, table, Entered(table, d, now), fingerprints);
    } else {
      IndexesAppended(active, table, RowFor(d, now), fingerprints);
    }
  }

  lemma ResolveStep(start: Table, resolutions: seq<Resolution>, i: nat, active: map<string, nat>, table: Table,
                    fingerprints: set<string>, now: int)
    requires i < |resolutions| && resolutions[i].fingerprint in fingerprints
    requires OneActive(table) && Indexes(active, table, fingerprints)
    requires table == ResolveAll(start, resolutions[..i], now).0
    ensures var (r, before, after) := (resolutions[i], ResolveAll(start, resolutions[..i], now), ResolveAll(start, resolutions[..i + 1], now));
            if r.fingerprint !in active then after == (table, before.1 + [None])
            else
              var id := active[r.fingerprint];
              && id < |table|
              && after == (table[id := table[id].(status := Resolved, resolved := Some((now, r.actor, r.reason)))],
                           before.1 + [Some(AlertResult(id, false, true, Some(Resolving)))])
              && OneActive(after.0) && Indexes(active - {r.fingerprint}, after.0, fingerprints)
  {
    var r := resolutions[i];
    assert resolutions[..i + 1][..i] == resolutions[..i];
    if r.fingerprint in active {
      var id := active[r.fingerprint];
      IndexesResolved(active, table, table[id].(status := Resolved, resolved := Some((now, r.actor, r.reason))), fingerprints, r.fingerprint);
    }
  }

  lemma EnteredKeepsOneActive(t: Table, e: Arrival, now: int)
    requires OneActive(t)
    ensures OneActive(Entered(t, e, now))
  {
    hide Refreshed, RowFor;
    var found := Find(t, e.fingerprint);
    if found.Some? {
      RefreshKeepsCondition(t[found.value], e.input, now);
    }
  }

  lemma RefreshKeepsCondition(a: Alert, d: Input, now: int)
    ensures Refreshed(a, d, now).fingerprint == a.fingerprint && Refreshed(a, d, now).status == a.status
  {
  }

  lemma {:induction false} EnterAllKeepsOneActive(t: Table, opens: seq<Arrival>, now: int)
    requires OneActive(t)
    ensures OneActive(EnterAll(t, opens, now))
  {
    hide OneActive, Entered;
    if |opens| > 0 {
      EnterAllKeepsOneActive(t, opens[..|opens| - 1], now);
      EnteredKeepsOneActive(EnterAll(t, opens[..|opens| - 1], now), opens[|opens| - 1], now);
    }
  }

  // ------------------------------------------------------- the bulk as a run

  /** The calls an arrival stands for: the rival's own and the lost race after it, or just this worker's. */
  ghost function CallsOf(t: Table, e: Arrival, now: int): seq<Timed> {
    if Find(t, e.fingerprint).None? && e.rival.Some? then
      [Timed(Assert(e.rival.value.0.(fingerprint := e.fingerprint)), e.rival.value.1), Timed(Race(e.input), now)]
    else [Timed(Assert(e.input), now)]
  }

  lemma RunSnoc(t: Table, calls: seq<Timed>, c: Timed)
    ensures Run(t, calls + [c]) == Called(Run(t, calls), c.call, c.now).0
  {
    assert (calls + [c])[..|calls + [c]| - 1] == calls;
  }

  lemma RacedIsEntered(t: Table, e: Arrival, now: int)
    requires Find(t, e.fingerprint).None? && e.rival.Some?
    ensures var first := Assert(e.rival.value.0.(fingerprint := e.fingerprint));
            Called(Called(t, first, e.rival.value.1).0, Race(e.input), now).0 == Entered(t, e, now)
  {
    var row := RivalRow(e);
    assert (t + [row])[..|t|] == t;
    assert Find(t + [row], e.fingerprint) == Some(|t|);
    assert (t + [row])[|t| := Bumped(row, now)] == t + [Bumped(row, now)];
  }

  lemma ArrivalIsARun(t: Table, calls: seq<Timed>, e: Arrival, now: int)
    ensures Run(t, calls + CallsOf(Run(t, calls), e, now)) == Entered(Run(t, calls), e, now)
  {
    var u := Run(t, calls);
    hide Run;
    if Find(u, e.fingerprint).None? && e.rival.Some? {
      var first, second := Timed(Assert(e.rival.value.0.(fingerprint := e.fingerprint)), e.rival.value.1), Timed(Race(e.input), now);
      RunSnoc(t, calls, first);
      RunSnoc(t, calls + [first], second);
      assert calls + [first, second] == (calls + [first]) + [second];
      RacedIsEntered(u, e, now);
    } else {
      RunSnoc(t, calls, Timed(Assert(e.input), now));
    }
  }

  /** The calls a bulk operation stands for. */
  ghost function Enters(t: Table, opens: seq<Arrival>, now: int): seq<Timed> {
    if |opens| == 0 then []
    else Enters(t, opens[..|opens| - 1], now) + CallsOf(EnterAll(t, opens[..|opens| - 1], now), opens[|opens| - 1], now)
  }

  ghost function Resolves(resolutions: seq<Resolution>, now: int): seq<Timed> {
    if |resolutions| == 0 then []
    else Resolves(resolutions[..|resolutions| - 1], now) + [Timed(ResolveBy(resolutions[|resolutions| - 1]), now)]
  }

  lemma {:induction false} EnterAllIsARun(t: Table, opens: seq<Arrival>, now: int)
    ensures EnterAll(t, opens, now) == Run(t, Enters(t, opens, now))
  {
    hide Entered, CallsOf, Run;
    if |opens| == 0 {
      NoCalls(t);
    } else {
      EnterAllIsARun(t, opens[..|opens| - 1], now);
      ArrivalIsARun(t, Enters(t, opens[..|opens| - 1], now), opens[|opens| - 1], now);
    }
  }

  lemma NoCalls(t: Table)
    ensures Run(t, []) == t
  {
  }

  lemma ResolveCall(t: Table, r: Resolution, now: int)
    ensures Called(t, ResolveBy(r), now).0 == ResolvedBy(t, r, now).0
  {
  }

  /** A bulk operation is a run of single calls, so what holds of runs holds of it. */
  lemma {:induction false} BulkIsARun(t: Table, opens: seq<Arrival>, resolutions: seq<Resolution>, now: int)
    ensures ResolveAll(EnterAll(t, opens, now), resolutions, now).0
         == Run(t, Enters(t, opens, now) + Resolves(resolutions, now))
  {
    hide ResolvedBy, Called, Run, Enters, EnterAll;
    var calls := Enters(t, opens, now);
    if |resolutions| == 0 {
      EnterAllIsARun(t, opens, now);
      assert calls + [] == calls;
    } else {
      var init, last := resolutions[..|resolutions| - 1], resolutions[|resolutions| - 1];
      BulkIsARun(t, opens, init, now);
      RunSnoc(t, calls + Resolves(init, now), Timed(ResolveBy(last), now));
      ResolveCall(Run(t, calls + Resolves(init, now)), last, now);
      assert calls + Resolves(resolutions, now) == (calls + Resolves(init, now)) + [Timed(ResolveBy(last), now)];
    }
  }
}
