/** What whole runs of the incident machine keep: buckets without a verdict change nothing that
    matters, and every anomalous bucket stays inside the span its incident excludes from the baseline. */
module IncidentRuns {
  import opened Wrappers
  import opened Lifecycle
  import opened IncidentEngine

  lemma {:induction false} RunJoin(m: Machine, a: seq<Bucket>, b: seq<Bucket>)
    ensures Run(m, a + b) == Run(Run(m, a), b)
  {
    if |b| == 0 {
      assert a + b == a;
    } else {
      assert (a + b)[..|a + b| - 1] == a + b[..|b| - 1];
      RunJoin(m, a, b[..|b| - 1]);
    }
  }

  // ------------------------------------------- buckets without a verdict

  predicate Idle(s: AnomalyState) { s.Normal? || s.InsufficientData? }

  predicate SameState(s: AnomalyState, t: AnomalyState) { s == t || (Idle(s) && Idle(t)) }

  ghost predicate SameAudit(a: seq<Audit>, b: seq<Audit>) {
    |a| == |b| && forall k :: 0 <= k < |a| ==> b[k] == a[k].(from := b[k].from) && SameState(a[k].from, b[k].from)
  }

  /** The calls that open or withdraw an alert: all but the refreshes of one that stands. */
  function Announced(calls: seq<AlertCall>): seq<AlertCall> {
    if |calls| == 0 then []
    else
      var last := calls[|calls| - 1];
      Announced(calls[..|calls| - 1]) + if last == Assert(false) then [] else [last]
  }

  /** Equal but for NORMAL against INSUFFICIENT_DATA, the bucket mark and the refreshes of alerts. */
  ghost predicate Alike(m: Machine, n: Machine) {
    && SameState(m.state, n.state) && SameAudit(m.audit, n.audit) && Announced(m.calls) == Announced(n.calls)
    && m.anomalous == n.anomalous && m.healthy == n.healthy && m.isOpen == n.isOpen
    && m.openId == n.openId && m.activeId == n.activeId && m.incidents == n.incidents
  }

  /** The two have folded the same last bucket, or nothing later than `t`. */
  ghost predicate SameMark(m: Machine, n: Machine, t: int) {
    m.last == n.last || ((m.last.None? || m.last.value <= t) && (n.last.None? || n.last.value <= t))
  }

  lemma TargetsAlike(m: Machine, n: Machine, b: Bucket)
    requires Alike(m, n)
    ensures SameState(Target(m, b), Target(n, b))
    ensures Target(m, b) == Target(n, b) || (Idle(m.state) && Idle(n.state))
  {
  }

  lemma MovesAlike(m: Machine, n: Machine, b: Bucket, s: AnomalyState, t: AnomalyState)
    requires OneActive(m) && OneActive(n) && OpenFlag(m) && OpenFlag(n) && Alike(m, n)
    requires SameState(s, t) && (s == t || (Idle(m.state) && Idle(n.state)))
    ensures Alike(Moved(m, b, s), Moved(n, b, t))
  {
    if Idle(m.state) && Idle(n.state) {
      IdleMovesAlike(m, n, b, s, t);
    } else {
      SameMovesAlike(m, n, b, s);
    }
  }

  /** The row a move adds to the audit trail. */
  function RowOf(m: Machine, b: Bucket, target: AnomalyState): seq<Audit> {
    if target == m.state then []
    else if target.Candidate? || (target.Open? && !Attached(m)) then [Audit(|m.incidents|, m.state, target, b.start)]
    else if Attached(m) then [Audit(m.activeId.value, m.state, target, b.start)]
    else []
  }

  lemma MoveAudits(m: Machine, b: Bucket, target: AnomalyState)
    ensures Moved(m, b, target).audit == m.audit + RowOf(m, b, target)
  {
  }

  lemma AuditsAlike(m: Machine, n: Machine, b: Bucket, s: AnomalyState, t: AnomalyState)
    requires SameAudit(m.audit, n.audit) && SameAudit(RowOf(m, b, s), RowOf(n, b, t))
    ensures SameAudit(Moved(m, b, s).audit, Moved(n, b, t).audit)
  {
    hide Moved, RowOf;
    MoveAudits(m, b, s);
    MoveAudits(n, b, t);
  }

  /** The calls a move makes. */
  function Adds(m: Machine, b: Bucket, target: AnomalyState): seq<AlertCall> {
    if target.Open? then (if b.maintenance || b.recordOnly then [] else [Assert(target != m.state)])
    else if target.Resolved? && target != m.state then [Withdraw]
    else []
  }

  lemma MoveCalls(m: Machine, b: Bucket, target: AnomalyState)
    ensures Moved(m, b, target).calls == m.calls + Adds(m, b, target)
  {
    hide Touched;
  }

  lemma AnnouncedGrows(calls: seq<AlertCall>, more: seq<AlertCall>)
    requires |more| <= 1
    ensures Announced(calls + more) == Announced(calls) + Announced(more)
  {
    if more == [] {
      assert calls + more == calls;
    } else {
      assert (calls + more)[..|calls + more| - 1] == calls && more[..0] == [];
    }
  }

  lemma CallsAlike(m: Machine, n: Machine, b: Bucket, s: AnomalyState, t: AnomalyState)
    requires Announced(m.calls) == Announced(n.calls) && Announced(Adds(m, b, s)) == Announced(Adds(n, b, t))
    ensures Announced(Moved(m, b, s).calls) == Announced(Moved(n, b, t).calls)
  {
    hide Moved, Announced;
    MoveCalls(m, b, s);
    MoveCalls(n, b, t);
    AnnouncedGrows(m.calls, Adds(m, b, s));
    AnnouncedGrows(n.calls, Adds(n, b, t));
  }

  /** All of `Alike` but the audit trail and the calls. */
  ghost predicate AlikeBesides(m: Machine, n: Machine) {
    && SameState(m.state, n.state)
    && m.anomalous == n.anomalous && m.healthy == n.healthy && m.isOpen == n.isOpen
    && m.openId == n.openId && m.activeId == n.activeId && m.incidents == n.incidents
  }

  /** A machine without its trail, its calls and its bucket mark. */
  function Bare(m: Machine): Machine { m.(audit := [], calls := [], last := None) }

  lemma MovesBare(m: Machine, b: Bucket, s: AnomalyState)
    ensures Bare(Moved(m, b, s)) == Bare(Moved(Bare(m), b, s))
  {
    if s != m.state && s.Open? {
      OpensBare(m.(state := Open), b);
    } else if s.Candidate? || s.Recovering? || s.Suppressed? {
      LiveBare(m, b, s);
    } else if s != m.state {
      ClosesBare(m, b, s);
    }
  }

  lemma LiveBare(m: Machine, b: Bucket, s: AnomalyState)
    requires s.Candidate? || s.Recovering? || s.Suppressed?
    ensures Bare(Moved(m, b, s)) == Bare(Moved(Bare(m), b, s))
  {
    match s
    case Candidate =>
    case Recovering =>
    case Suppressed =>
  }

  lemma ClosesBare(m: Machine, b: Bucket, s: AnomalyState)
    requires s != m.state && (s.Resolved? || Idle(s))
    ensures Bare(Moved(m, b, s)) == Bare(Moved(Bare(m), b, s))
  {
    match s
    case Resolved =>
    case Normal =>
    case InsufficientData =>
  }

  lemma OpensBare(n: Machine, b: Bucket)
    ensures var k := if Attached(n) then n else Created(n, b);
            var l := if Attached(Bare(n)) then Bare(n) else Created(Bare(n), b);
            Bare(Promoted(k, b)) == Bare(Promoted(l, b)) && Attached(Promoted(k, b)) && Attached(Promoted(l, b))
  {
    hide Touched;
  }

  lemma SameBesides(m: Machine, n: Machine, b: Bucket, s: AnomalyState)
    requires AlikeBesides(m, n) && m.state == n.state
    ensures AlikeBesides(Moved(m, b, s), Moved(n, b, s))
  {
    MovesBare(m, b, s);
    MovesBare(n, b, s);
    hide Moved;
    assert Bare(m) == Bare(n);
    var (x, y) := (Moved(m, b, s), Moved(n, b, s));
    assert Bare(x) == Bare(y);
  }

  lemma SameMovesAlike(m: Machine, n: Machine, b: Bucket, s: AnomalyState)
    requires Alike(m, n) && m.state == n.state
    ensures Alike(Moved(m, b, s), Moved(n, b, s))
  {
    hide Moved;
    SameBesides(m, n, b, s);
    AuditsAlike(m, n, b, s, s);
    CallsAlike(m, n, b, s, s);
  }

  lemma IdleBesides(m: Machine, n: Machine, b: Bucket, s: AnomalyState, t: AnomalyState)
    requires AlikeBesides(m, n) && m.activeId.None? && !m.isOpen && m.openId.None?
    requires SameState(s, t) && Idle(m.state)
    ensures AlikeBesides(Moved(m, b, s), Moved(n, b, t))
  {
  }

  lemma IdleMovesAlike(m: Machine, n: Machine, b: Bucket, s: AnomalyState, t: AnomalyState)
    requires OneActive(m) && OpenFlag(m) && Alike(m, n)
    requires SameState(s, t) && Idle(m.state) && Idle(n.state)
    ensures Alike(Moved(m, b, s), Moved(n, b, t))
  {
    hide Moved;
    IdleBesides(m, n, b, s, t);
    AuditsAlike(m, n, b, s, t);
    CallsAlike(m, n, b, s, t);
  }

  lemma StepsAlike(m: Machine, n: Machine, b: Bucket, t: int)
    requires OneActive(m) && OneActive(n) && OpenFlag(m) && OpenFlag(n)
    requires Alike(m, n) && SameMark(m, n, t) && t < b.start
    ensures Alike(Step(m, b), Step(n, b)) && SameMark(Step(m, b), Step(n, b), t)
  {
    if IsNew(m, b) {
      var c, d := Counted(m, b), Counted(n, b);
      TargetsAlike(c, d, b);
      MoveTakesTarget(c, b, Target(c, b));
      MoveTakesTarget(d, b, Target(d, b));
      hide Moved, Target;
      MovesAlike(c, d, b, Target(c, b), Target(d, b));
    }
  }

  /** An open incident has counted at least the current run of anomalous buckets. */
  ghost predicate CountsRun(m: Machine) {
    m.state.Open? && Attached(m) ==> m.anomalous <= m.incidents[m.activeId.value].buckets
  }

  lemma StepCountsRun(m: Machine, b: Bucket)
    requires OneActive(m) && CountsRun(m)
    ensures CountsRun(Step(m, b))
  {
    TargetIsLegal(Counted(m, b), b);
  }

  lemma {:induction false} RunCountsRun(buckets: seq<Bucket>)
    ensures CountsRun(Run(Initial, buckets))
  {
    hide Step;
    if |buckets| > 0 {
      RunCountsRun(buckets[..|buckets| - 1]);
      RunIsSound(buckets[..|buckets| - 1]);
      StepCountsRun(Run(Initial, buckets[..|buckets| - 1]), buckets[|buckets| - 1]);
    }
  }

  lemma UnknownStep(m: Machine, u: Bucket)
    requires OneActive(m) && OpenFlag(m) && CountsRun(m) && !m.state.Suppressed?
    requires !u.maintenance && (u.verdict.Unsure? || u.verdict.NoData?)
    ensures Alike(Step(m, u), m) && SameMark(Step(m, u), m, u.start)
    ensures Step(m, u).calls ==
            m.calls + if IsNew(m, u) && m.state.Open? && !u.recordOnly then [Assert(false)] else []
  {
    if IsNew(m, u) {
      var c := Counted(m, u);
      MoveCalls(c, u, Target(c, u));
      AnnouncedGrows(m.calls, Adds(c, u, Target(c, u)));
      MoveTakesTarget(c, u, Target(c, u));
      assert Target(c, u) == m.state || (Idle(m.state) && Idle(Target(c, u)));
      if m.activeId.Some? {
        var i := m.incidents[m.activeId.value];
        assert m.state.Open? ==> Touched(i, u, m.anomalous) == i;
        assert m.incidents[m.activeId.value := i] == m.incidents;
      }
    }
  }

  lemma {:induction false} RunsAlike(m: Machine, n: Machine, buckets: seq<Bucket>, t: int)
    requires OneActive(m) && OneActive(n) && OpenFlag(m) && OpenFlag(n)
    requires Alike(m, n) && SameMark(m, n, t)
    requires forall i :: 0 <= i < |buckets| ==> t < buckets[i].start
    ensures var (m', n') := (Run(m, buckets), Run(n, buckets));
            && OneActive(m') && OneActive(n') && OpenFlag(m') && OpenFlag(n')
            && Alike(m', n') && SameMark(m', n', t)
  {
    hide Step, OneActive, OpenFlag, Alike, SameMark;
    if |buckets| > 0 {
      var init, b := buckets[..|buckets| - 1], buckets[|buckets| - 1];
      RunsAlike(m, n, init, t);
      StepsAlike(Run(m, init), Run(n, init), b, t);
      StepKeepsOneActive(Run(m, init), b);
      StepKeepsOneActive(Run(n, init), b);
      StepKeepsOpenFlag(Run(m, init), b);
      StepKeepsOpenFlag(Run(n, init), b);
    }
  }

  /** Missing data is not recovery: a bucket without a verdict, put anywhere outside suppression, changes
      no state, counter, incident, audit row, announcement or withdrawal of the run, up to NORMAL against
      INSUFFICIENT_DATA. What it does is refresh the standing alert of an open incident once. */
  lemma UnknownBucketsChangeNothing(before: seq<Bucket>, u: Bucket, after: seq<Bucket>)
    requires !Run(Initial, before).state.Suppressed? && !u.maintenance && (u.verdict.Unsure? || u.verdict.NoData?)
    requires forall i :: 0 <= i < |after| ==> u.start < after[i].start
    ensures Alike(Run(Initial, before + [u] + after), Run(Initial, before + after))
    ensures var m := Run(Initial, before);
            Run(Initial, before + [u]).calls ==
            m.calls + if IsNew(m, u) && m.state.Open? && !u.recordOnly then [Assert(false)] else []
  {
    var m := Run(Initial, before);
    RunIsSound(before);
    RunCountsRun(before);
    UnknownStep(m, u);
    StepKeepsOneActive(m, u);
    StepKeepsOpenFlag(m, u);
    RunJoin(Initial, before, [u]);
    RunJoin(Initial, before + [u], after);
    RunJoin(Initial, before, after);
    assert [u][..0] == [] && Run(m, [u]) == Step(Run(m, []), u);
    hide Step, OneActive, OpenFlag, Alike, SameMark;
    RunsAlike(Step(m, u), m, after, u.start);
  }

  // --------------------------------------------------------- exclusion spans

  /** The span an incident removes from the baseline, seen from a rebuild that ends at `windowEnd`
      (backend/app/anomaly/seasonal.py). */
  function ExclusionEnd(i: Incident, windowEnd: int): int {
    if i.resolvedAt.Some? then i.resolvedAt.value else if i.end.Some? then i.end.value else windowEnd
  }

  /** `at` lies in the incident's span at every rebuild that can see it. */
  ghost predicate AlwaysExcluded(i: Incident, at: int) {
    i.detectedAt <= at && forall windowEnd: int :: at < windowEnd ==> at <= ExclusionEnd(i, windowEnd)
  }

  /** The bucket counts as anomalous and leaves an incident attached. */
  predicate Charged(m: Machine, b: Bucket) {
    IsNew(m, b) && b.Effective().Anomalous? && Step(m, b).activeId.Some?
  }

  /** The anomalous buckets of a run, each with the incident it is charged to. */
  ghost function Charges(m: Machine, buckets: seq<Bucket>): seq<(nat, int)> {
    if |buckets| == 0 then []
    else
      var init, b := buckets[..|buckets| - 1], buckets[|buckets| - 1];
      Charges(m, init) + if Charged(Run(m, init), b) then [(Step(Run(m, init), b).activeId.value, b.start)] else []
  }

  /** The bounds of the attached incident against the last bucket folded in. */
  ghost predicate Bounded(m: Machine) {
    m.activeId.Some? && Attached(m) ==>
      && m.last.Some? && m.incidents[m.activeId.value].detectedAt <= m.last.value
      && (m.state.Candidate? ==> m.incidents[m.activeId.value].end.None?)
  }

  ghost predicate Covered(m: Machine, charge: (nat, int)) {
    && charge.0 < |m.incidents| && m.last.Some? && charge.1 <= m.last.value
    && AlwaysExcluded(m.incidents[charge.0], charge.1)
  }

  /** How a step may change the incident it is about: its start stays, and its span reaches the bucket. */
  ghost predicate SpanGrows(before: Incident, after: Incident, b: Bucket) {
    && after.detectedAt == before.detectedAt
    && ((after.resolvedAt == before.resolvedAt && after.end == before.end)
        || (forall windowEnd: int :: b.start < windowEnd ==> b.start <= ExclusionEnd(after, windowEnd)))
  }

  lemma StepBounds(m: Machine, b: Bucket)
    requires OneActive(m) && Bounded(m)
    ensures Bounded(Step(m, b))
  {
    TargetIsLegal(Counted(m, b), b);
  }

  lemma StepGrowsSpan(m: Machine, b: Bucket)
    requires OneActive(m) && m.activeId.Some? && b.start <= b.now
    ensures m.activeId.value < |Step(m, b).incidents|
    ensures SpanGrows(m.incidents[m.activeId.value], Step(m, b).incidents[m.activeId.value], b)
  {
    TargetIsLegal(Counted(m, b), b);
  }

  lemma ChargeIsCovered(m: Machine, b: Bucket)
    requires OneActive(m) && Bounded(m) && Charged(m, b)
    ensures Covered(Step(m, b), (Step(m, b).activeId.value, b.start))
  {
    TargetIsLegal(Counted(m, b), b);
    StepKeepsOneActive(m, b);
  }

  lemma CoverageStays(m: Machine, b: Bucket, charge: (nat, int))
    requires OneActive(m) && Covered(m, charge) && b.start <= b.now
    ensures Covered(Step(m, b), charge)
  {
    StepKeepsOneActive(m, b);
    StepCounts(m, b);
    if m.activeId == Some(charge.0) {
      StepGrowsSpan(m, b);
    }
    hide Step;
    if IsNew(m, b) && m.activeId == Some(charge.0) {
      var before, after := m.incidents[charge.0], Step(m, b).incidents[charge.0];
      forall windowEnd: int | charge.1 < windowEnd ensures charge.1 <= ExclusionEnd(after, windowEnd) {
        if windowEnd > b.start && !(after.resolvedAt == before.resolvedAt && after.end == before.end) {
          assert b.start <= ExclusionEnd(after, windowEnd);
        } else {
          assert charge.1 <= ExclusionEnd(before, windowEnd);
        }
      }
    }
  }

  /** No anomalous bucket trains its own baseline: whatever happens after it, every anomalous bucket
      charged to an incident lies in that incident's excluded span at every later rebuild. */
  lemma {:induction false} ChargesStayCovered(buckets: seq<Bucket>)
    requires forall i :: 0 <= i < |buckets| ==> buckets[i].start <= buckets[i].now
    ensures var m := Run(Initial, buckets);
            Bounded(m) && forall k :: 0 <= k < |Charges(Initial, buckets)| ==> Covered(m, Charges(Initial, buckets)[k])
  {
    hide Step, Covered, OneActive;
    if |buckets| > 0 {
      var init, b := buckets[..|buckets| - 1], buckets[|buckets| - 1];
      var m := Run(Initial, init);
      ChargesStayCovered(init);
      RunIsSound(init);
      StepBounds(m, b);
      forall k | 0 <= k < |Charges(Initial, buckets)| ensures Covered(Step(m, b), Charges(Initial, buckets)[k]) {
        if k < |Charges(Initial, init)| {
          CoverageStays(m, b, Charges(Initial, init)[k]);
        } else {
          ChargeIsCovered(m, b);
        }
      }
    }
  }

  /** Exactly which anomalous buckets are charged: all but the one that lifts a suppression. */
  lemma ChargedUnlessSuppressed(buckets: seq<Bucket>, b: Bucket)
    requires IsNew(Run(Initial, buckets), b) && b.Effective().Anomalous?
    ensures Charged(Run(Initial, buckets), b) <==> !Run(Initial, buckets).state.Suppressed?
  {
    var m := Run(Initial, buckets);
    RunIsSound(buckets);
    StepKeepsOneActive(m, b);
    StepCounts(m, b);
    hide Step;
  }

  /** A step never moves the start of an incident, and one it creates starts at the bucket. */
  lemma StepKeepsStarts(m: Machine, b: Bucket)
    requires OneActive(m)
    ensures var n := Step(m, b);
            && |m.incidents| <= |n.incidents|
            && (forall i :: 0 <= i < |m.incidents| ==> n.incidents[i].detectedAt == m.incidents[i].detectedAt)
            && (forall i :: |m.incidents| <= i < |n.incidents| ==> IsNew(m, b) && n.incidents[i].detectedAt == b.start)
  {
    TargetIsLegal(Counted(m, b), b);
    hide Target;
  }

  /** What a run does to the incidents there were when none was attached: nothing; all it adds starts
      after the last bucket then. */
  ghost predicate OnlyLater(incidents: seq<Incident>, t: int, r: Machine) {
    && |incidents| <= |r.incidents| && r.incidents[..|incidents|] == incidents
    && (r.activeId.Some? ==> r.activeId.value >= |incidents|)
    && r.last.Some? && t <= r.last.value
    && (forall i :: |incidents| <= i < |r.incidents| ==> r.incidents[i].detectedAt > t)
  }

  lemma StepOnlyLater(incidents: seq<Incident>, t: int, m: Machine, b: Bucket)
    requires OneActive(m) && OnlyLater(incidents, t, m)
    ensures OnlyLater(incidents, t, Step(m, b))
  {
    StepKeepsOneActive(m, b);
    StepKeepsStarts(m, b);
    StepCounts(m, b);
    hide Step;
    var n := Step(m, b);
    assert forall i: nat :: i < |incidents| ==> n.incidents[i] == m.incidents[i];
  }

  lemma {:induction false} RunOnlyLater(m: Machine, buckets: seq<Bucket>)
    requires OneActive(m) && m.activeId.None? && m.last.Some?
    ensures OneActive(Run(m, buckets)) && OnlyLater(m.incidents, m.last.value, Run(m, buckets))
  {
    hide Step, OneActive, OnlyLater;
    if |buckets| == 0 {
      assert OnlyLater(m.incidents, m.last.value, m) by { NothingLater(m); }
    } else {
      var n, b := Run(m, buckets[..|buckets| - 1]), buckets[|buckets| - 1];
      RunOnlyLater(m, buckets[..|buckets| - 1]);
      StepKeepsOneActive(n, b);
      StepOnlyLater(m.incidents, m.last.value, n, b);
    }
  }

  lemma NothingLater(m: Machine)
    requires m.activeId.None? && m.last.Some?
    ensures OnlyLater(m.incidents, m.last.value, m)
  {
  }

  /** Some incident's span holds `at` at every rebuild that can see it. */
  ghost predicate Excluded(incidents: seq<Incident>, at: int) {
    exists i :: 0 <= i < |incidents| && AlwaysExcluded(incidents[i], at)
  }

  /** A span holds a bucket at every rebuild that can see it or at none. */
  lemma SpanIsSettled(i: Incident, at: int, windowEnd: int)
    requires at < windowEnd
    ensures i.detectedAt <= at <= ExclusionEnd(i, windowEnd) <==> AlwaysExcluded(i, at)
  {
  }

  lemma LiftingStep(m: Machine, b: Bucket)
    requires OneActive(m) && m.state.Suppressed? && IsNew(m, b) && b.Effective().Anomalous?
    ensures var n := Step(m, b); n.state.Normal? && n.activeId.None? && n.incidents == m.incidents && n.last == Some(b.start)
  {
  }

  /** The machine after `before`, then `b`, then `after`. */
  ghost function Later(before: seq<Bucket>, b: Bucket, after: seq<Bucket>): Machine {
    Run(Step(Run(Initial, before), b), after)
  }

  lemma RunSnoc(m: Machine, buckets: seq<Bucket>, b: Bucket)
    ensures Run(m, buckets + [b]) == Step(Run(m, buckets), b)
  {
    assert (buckets + [b])[..|buckets + [b]| - 1] == buckets;
  }

  lemma LaterIsARun(before: seq<Bucket>, b: Bucket, after: seq<Bucket>)
    ensures Later(before, b, after) == Run(Initial, before + [b] + after)
  {
    hide Step;
    RunJoin(Initial, before + [b], after);
    RunSnoc(Initial, before, b);
  }

  /** The bucket that lifts a suppression is excluded by the incidents that were there before it, or by
      none that any later run leaves. */
  lemma LiftedOnlyByEarlier(before: seq<Bucket>, b: Bucket, after: seq<Bucket>)
    requires Run(Initial, before).state.Suppressed? && IsNew(Run(Initial, before), b) && b.Effective().Anomalous?
    ensures Excluded(Later(before, b, after).incidents, b.start) <==> Excluded(Run(Initial, before).incidents, b.start)
  {
    hide Run, Step, OneActive, AlwaysExcluded;
    var m := Run(Initial, before);
    RunIsSound(before);
    LiftingStep(m, b);
    StepKeepsOneActive(m, b);
    RunOnlyLater(Step(m, b), after);
    var r := Later(before, b, after);
    if i :| 0 <= i < |r.incidents| && AlwaysExcluded(r.incidents[i], b.start) {
      assert i < |m.incidents| by { StartsByThen(r.incidents[i], b.start); }
      assert r.incidents[..|m.incidents|][i] == m.incidents[i];
    }
    if i :| 0 <= i < |m.incidents| && AlwaysExcluded(m.incidents[i], b.start) {
      assert r.incidents[..|m.incidents|][i] == m.incidents[i];
    }
  }

  lemma StartsByThen(i: Incident, at: int)
    requires AlwaysExcluded(i, at)
    ensures i.detectedAt <= at
  {
  }

  ghost predicate OnTime(buckets: seq<Bucket>) {
    forall i :: 0 <= i < |buckets| ==> buckets[i].start <= buckets[i].now
  }

  lemma {:induction false} CoverageLasts(m: Machine, buckets: seq<Bucket>, charge: (nat, int))
    requires OneActive(m) && Covered(m, charge) && OnTime(buckets)
    ensures OneActive(Run(m, buckets)) && Covered(Run(m, buckets), charge)
  {
    hide Step, OneActive, Covered;
    if |buckets| > 0 {
      var n, b := Run(m, buckets[..|buckets| - 1]), buckets[|buckets| - 1];
      CoverageLasts(m, buckets[..|buckets| - 1], charge);
      StepKeepsOneActive(n, b);
      CoverageStays(n, b, charge);
    }
  }

  lemma CoveredIsExcluded(m: Machine, charge: (nat, int))
    requires Covered(m, charge)
    ensures Excluded(m.incidents, charge.1)
  {
  }

  lemma {:induction false} RunIsBounded(buckets: seq<Bucket>)
    ensures Bounded(Run(Initial, buckets))
  {
    hide Step;
    if |buckets| > 0 {
      RunIsBounded(buckets[..|buckets| - 1]);
      RunIsSound(buckets[..|buckets| - 1]);
      StepBounds(Run(Initial, buckets[..|buckets| - 1]), buckets[|buckets| - 1]);
    }
  }

  lemma OpenedStaysExcluded(before: seq<Bucket>, b: Bucket, after: seq<Bucket>)
    requires !Run(Initial, before).state.Suppressed? && IsNew(Run(Initial, before), b) && b.Effective().Anomalous?
    requires OnTime(after)
    ensures Excluded(Later(before, b, after).incidents, b.start)
  {
    hide Run, Step, OneActive, Covered, Bounded, Excluded;
    var m := Run(Initial, before);
    RunIsSound(before);
    RunIsBounded(before);
    ChargedUnlessSuppressed(before, b);
    ChargeIsCovered(m, b);
    StepKeepsOneActive(m, b);
    CoverageLasts(Step(m, b), after, (Step(m, b).activeId.value, b.start));
    CoveredIsExcluded(Later(before, b, after), (Step(m, b).activeId.value, b.start));
  }

  /** Exactly which anomalous buckets stay out of every later baseline: all those that find the detector
      unsuppressed, and those that lift a suppression inside the span of an earlier incident. */
  lemma AnomalousIsExcludedIff(before: seq<Bucket>, b: Bucket, after: seq<Bucket>)
    requires IsNew(Run(Initial, before), b) && b.Effective().Anomalous? && OnTime(after)
    ensures Excluded(Later(before, b, after).incidents, b.start) <==>
            !Run(Initial, before).state.Suppressed? || Excluded(Run(Initial, before).incidents, b.start)
    ensures Later(before, b, after) == Run(Initial, before + [b] + after)
  {
    LaterIsARun(before, b, after);
    hide Run, Later;
    if Run(Initial, before).state.Suppressed? {
      LiftedOnlyByEarlier(before, b, after);
    } else {
      OpenedStaysExcluded(before, b, after);
    }
  }

  /** A bucket in maintenance, then an anomalous one that lifts the suppression. */
  const Maintained := Bucket(0, 300, Good, true, 2, 3, 300, false)
  const Lifting := Bucket(300, 300, Bad, false, 2, 3, 600, false)

  /** Such a bucket that nothing excludes: it is counted, and no incident was there before it. */
  lemma LiftingBucketIsNotExcluded(after: seq<Bucket>)
    requires OnTime(after)
    ensures Step(Run(Initial, [Maintained]), Lifting).anomalous == 1
    ensures !Excluded(Later([Maintained], Lifting, after).incidents, Lifting.start)
  {
    var m := Run(Initial, [Maintained]);
    RunSnoc(Initial, [], Maintained);
    assert [] + [Maintained] == [Maintained];
    assert m == Step(Initial, Maintained) && m.state.Suppressed? && m.incidents == [];
    AnomalousIsExcludedIff([Maintained], Lifting, after);
  }

  /** A backlog judged at one moment: an incident that opens at once, then two buckets in maintenance, of
      which the first resolves it and the second suppresses the detector. */
  const Opening := Bucket(0, 300, Bad, false, 1, 1, 300, false)
  const Resolving := Bucket(300, 300, Good, true, 1, 1, 5000, false)
  const Suppressing := Bucket(600, 300, Good, true, 1, 1, 5000, false)
  const LiftingLate := Bucket(900, 300, Bad, false, 1, 1, 5000, false)

  lemma ThreeSteps(a: Bucket, b: Bucket, c: Bucket)
    ensures Run(Initial, [a, b, c]) == Step(Step(Step(Initial, a), b), c)
  {
    hide Step;
    RunSnoc(Initial, [], a);
    RunSnoc(Initial, [a], b);
    RunSnoc(Initial, [a, b], c);
    assert [] + [a] == [a] && [a] + [b] == [a, b] && [a, b] + [c] == [a, b, c];
  }

  lemma OpeningStep()
    ensures var m := Step(Initial, Opening);
            && m.state.Open? && m.activeId == Some(0) && |m.incidents| == 1 && m.last == Some(0) && m.healthy == 0
            && m.incidents[0].detectedAt == 0 && m.incidents[0].resolvedAt.None?
  {
  }

  lemma ResolvingStep(m: Machine)
    requires m.state.Open? && m.activeId == Some(0) && |m.incidents| == 1 && m.last == Some(0) && m.healthy == 0
    requires m.incidents[0].detectedAt == 0 && m.incidents[0].resolvedAt.None?
    ensures var n := Step(m, Resolving);
            && n.state.Resolved? && n.activeId.None? && |n.incidents| == 1 && n.last == Some(300)
            && n.incidents[0].detectedAt == 0 && n.incidents[0].resolvedAt == Some(5000)
  {
  }

  lemma SuppressingStep(m: Machine)
    requires m.state.Resolved? && m.activeId.None? && m.last == Some(300)
    ensures Step(m, Suppressing).state.Suppressed? && Step(m, Suppressing).incidents == m.incidents
  {
  }

  /** A lifting bucket that an earlier incident excludes: judged late, that incident was resolved at a
      moment after the bucket started. */
  lemma LateResolutionExcludes()
    ensures var before := [Opening, Resolving, Suppressing];
            && Run(Initial, before).state.Suppressed?
            && Excluded(Run(Initial, before).incidents, LiftingLate.start)
  {
    ThreeSteps(Opening, Resolving, Suppressing);
    OpeningStep();
    ResolvingStep(Step(Initial, Opening));
    SuppressingStep(Step(Step(Initial, Opening), Resolving));
    hide Run, Step;
    assert AlwaysExcluded(Run(Initial, [Opening, Resolving, Suppressing]).incidents[0], LiftingLate.start);
  }

  // ----------------------------------------------------- spans of recoveries

  /** The start of the bucket that began the recovery under way after a run. */
  ghost function RecoveryStart(buckets: seq<Bucket>): Option<int> {
    if |buckets| == 0 then None
    else
      var init, b := buckets[..|buckets| - 1], buckets[|buckets| - 1];
      if !Run(Initial, buckets).state.Recovering? then None
      else if Run(Initial, init).state.Recovering? then RecoveryStart(init)
      else Some(b.start)
  }

  /** A recovering incident ends at `start`, a bucket folded in after it was detected. */
  ghost predicate EndsAt(m: Machine, start: Option<int>) {
    m.state.Recovering? && Attached(m) ==>
      var i := m.incidents[m.activeId.value];
      && i.end == start && start.Some? && m.last.Some?
      && i.detectedAt <= start.value <= m.last.value
  }

  lemma RecoveryEnds(m: Machine, b: Bucket, start: Option<int>)
    requires OneActive(m) && Bounded(m) && EndsAt(m, start) && Step(m, b).state.Recovering?
    ensures EndsAt(Step(m, b), if m.state.Recovering? then start else Some(b.start))
    ensures IsNew(m, b) && m.state.Recovering? ==> Step(m, b).incidents == m.incidents && Step(m, b).activeId == m.activeId
  {
    TargetIsLegal(Counted(m, b), b);
  }

  lemma {:induction false} RunEndsAt(buckets: seq<Bucket>)
    ensures EndsAt(Run(Initial, buckets), RecoveryStart(buckets))
  {
    hide Step, OneActive, Bounded;
    if |buckets| > 0 {
      var init, b := buckets[..|buckets| - 1], buckets[|buckets| - 1];
      RunEndsAt(init);
      RunIsSound(init);
      RunIsBounded(init);
      if Step(Run(Initial, init), b).state.Recovering? {
        RecoveryEnds(Run(Initial, init), b, RecoveryStart(init));
      }
    }
  }

  /** While it recovers an incident excludes everything from its detection up to the bucket that began the
      recovery, that bucket included, and nothing after it. */
  lemma RecoverySpan(buckets: seq<Bucket>, at: int)
    requires Run(Initial, buckets).state.Recovering?
    ensures var m := Run(Initial, buckets);
            && Attached(m) && RecoveryStart(buckets).Some?
            && (AlwaysExcluded(m.incidents[m.activeId.value], at) <==>
                m.incidents[m.activeId.value].detectedAt <= at <= RecoveryStart(buckets).value)
  {
    var m := Run(Initial, buckets);
    RunIsSound(buckets);
    RunEndsAt(buckets);
    hide Run, RecoveryStart;
    SpanIsSettled(m.incidents[m.activeId.value], at, at + 1);
  }

  /** Which buckets of a recovery its incident excludes: the normal bucket that begins it, and no other. */
  lemma OnlyFirstRecoveryIsExcluded(before: seq<Bucket>, b: Bucket)
    requires IsNew(Run(Initial, before), b) && Step(Run(Initial, before), b).state.Recovering?
    ensures var n := Step(Run(Initial, before), b);
            && Attached(n)
            && (AlwaysExcluded(n.incidents[n.activeId.value], b.start) <==> !Run(Initial, before).state.Recovering?)
  {
    var m, n := Run(Initial, before), Step(Run(Initial, before), b);
    RunSnoc(Initial, before, b);
    assert (before + [b])[..|before + [b]| - 1] == before;
    RunIsSound(before);
    RunEndsAt(before);
    RunEndsAt(before + [b]);
    RecoverySpan(before + [b], b.start);
    hide Step, Run, AlwaysExcluded, OneActive;
    if m.state.Recovering? {
      assert EndsAt(m, RecoveryStart(before)) && Attached(m) by { ActiveIsAttached(m); }
    }
  }

  lemma ActiveIsAttached(m: Machine)
    requires OneActive(m) && m.state.Active()
    ensures Attached(m)
  {
  }

  /** An incident that opens at once, then a normal bucket that begins a recovery of three. */
  const Relieving := Bucket(300, 300, Good, false, 1, 3, 600, false)

  /** A normal bucket on which a recovery is judged and that the recovering incident excludes. */
  lemma FirstRecoveryIsExcluded()
    ensures var n := Step(Run(Initial, [Opening]), Relieving);
            && n.state.Recovering? && n.healthy == 1
            && Excluded(n.incidents, Relieving.start)
  {
    RunSnoc(Initial, [], Opening);
    assert [] + [Opening] == [Opening];
    OpeningStep();
    RelievingStep(Step(Initial, Opening));
    OnlyFirstRecoveryIsExcluded([Opening], Relieving);
  }

  lemma RelievingStep(m: Machine)
    requires m.state.Open? && m.last == Some(0) && m.healthy == 0
    ensures Step(m, Relieving).state.Recovering? && Step(m, Relieving).healthy == 1
  {
  }
}
