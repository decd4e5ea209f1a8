/** The incident machine of one (log source, anomaly type) pair (backend/app/anomaly/engine.py):
    the detector row, the incident rows and the audit trail, one bucket after another. */
module IncidentEngine {
  import opened Wrappers
  import opened Lifecycle

  /** A detector's verdict; `Unsure` and `NoData` are both unknown, the latter for lack of data. */
  datatype Verdict = Good | Bad | Unsure | NoData {
    function Signal(): Signal {
      match this
      case Good => Healthy
      case Bad => Anomalous
      case _ => Unknown
    }
  }

  /** One bucket as the machine sees it. `recordOnly` is the outage policy that withholds alerts. */
  datatype Bucket = Bucket(start: int, seconds: nat, verdict: Verdict, maintenance: bool,
                           openAfter: int, resolveAfter: int, now: int, recordOnly: bool) {
    /** In maintenance an anomalous verdict is not counted. */
    function Effective(): Signal {
      if maintenance && verdict.Bad? then Unknown else verdict.Signal()
    }
  }

  datatype Incident = Incident(
    state: AnomalyState, detectedAt: int, openedAt: Option<int>, end: Option<int>, resolvedAt: Option<int>,
    buckets: nat, suppressed: bool)

  datatype Audit = Audit(incident: nat, from: AnomalyState, to: AnomalyState, bucket: int)

  /** A call on the alert service: assert the condition (announcing it or not), or withdraw it. */
  datatype AlertCall = Assert(notify: bool) | Withdraw

  /** The detector row, its incidents (numbered in the order they were created), the audit trail and
      the alert calls made. */
  datatype Machine = Machine(
    state: AnomalyState, anomalous: nat, healthy: nat, isOpen: bool, last: Option<int>,
    openId: Option<nat>, activeId: Option<nat>,
    incidents: seq<Incident>, audit: seq<Audit>, calls: seq<AlertCall>)

  const Initial := Machine(Normal, 0, 0, false, None, None, None, [], [], [])

  // ------------------------------------------------- the effect of one bucket

  /** The bucket has not been folded in yet. */
  predicate IsNew(m: Machine, b: Bucket) { m.last.None? || m.last.value < b.start }

  function NewIncident(b: Bucket): Incident {
    Incident(Candidate, b.start, None, None, None, 1, b.maintenance)
  }

  function MaxNat(a: nat, b: nat): nat { if a < b then b else a }

  /** The incident's length and end after a bucket that found it open or opened it. */
  function Touched(i: Incident, b: Bucket, anomalous: nat): Incident {
    i.(buckets := MaxNat(i.buckets, anomalous), end := if b.verdict.Bad? then Some(b.start + b.seconds) else i.end)
  }

  predicate Attached(m: Machine) { m.activeId.Some? && m.activeId.value < |m.incidents| }

  function WithActive(m: Machine, i: Incident): Machine
    requires Attached(m)
  {
    m.(incidents := m.incidents[m.activeId.value := i])
  }

  /** Append an audit row for the attached incident, if there is one. */
  function Audited(m: Machine, from: AnomalyState, to: AnomalyState, b: Bucket): Machine {
    if Attached(m) then m.(audit := m.audit + [Audit(m.activeId.value, from, to, b.start)]) else m
  }

  function Created(m: Machine, b: Bucket): Machine {
    m.(incidents := m.incidents + [NewIncident(b)], activeId := Some(|m.incidents|))
  }

  function Alerted(m: Machine, b: Bucket, call: AlertCall): Machine {
    if b.maintenance || b.recordOnly then m else m.(calls := m.calls + [call])
  }

  function Promoted(m: Machine, b: Bucket): Machine
    requires Attached(m)
  {
    var i := m.incidents[m.activeId.value].(state := Open, openedAt := Some(b.now), end := None);
    Alerted(WithActive(m, Touched(i, b, m.anomalous)).(isOpen := true, openId := m.activeId), b, Assert(true))
  }

  /** The counters and the bucket mark, before the state moves. */
  function Counted(m: Machine, b: Bucket): Machine {
    var (a, h) := AdvanceCounters(b.Effective(), m.anomalous, m.healthy);
    m.(anomalous := a, healthy := h, last := Some(b.start))
  }

  function Target(m: Machine, b: Bucket): AnomalyState {
    NextState(LifecycleInput(m.state, b.Effective(), m.anomalous, m.healthy, b.openAfter, b.resolveAfter,
                             b.verdict.NoData?, b.maintenance && !m.state.Active()))
  }

  /** The machine after it takes the decided state. */
  function Moved(m: Machine, b: Bucket, target: AnomalyState): Machine {
    if target == m.state then
      if target.Open? then
        var refreshed := Alerted(m, b, Assert(false));
        if Attached(m) then WithActive(refreshed, Touched(m.incidents[m.activeId.value], b, m.anomalous)) else refreshed
      else m
    else
      var n := m.(state := target);
      match target
      case Candidate => Audited(Created(n, b), m.state, target, b)
      case Open => Audited(Promoted(if Attached(n) then n else Created(n, b), b), m.state, target, b)
      case Recovering =>
        var a := Audited(n, m.state, target, b);
        if Attached(a) then WithActive(a, a.incidents[a.activeId.value].(state := Recovering, end := Some(b.start))) else a
      case Resolved =>
        var a := Audited(n, m.state, target, b);
        var r := if Attached(a) && a.incidents[a.activeId.value].resolvedAt.None?
                 then WithActive(a, a.incidents[a.activeId.value].(state := Resolved, resolvedAt := Some(b.now))) else a;
        r.(isOpen := false, openId := None, activeId := None, calls := r.calls + [Withdraw])
      case Suppressed =>
        var a := Audited(n, m.state, target, b);
        (if Attached(a) then WithActive(a, a.incidents[a.activeId.value].(state := Suppressed, suppressed := true)) else a)
        .(isOpen := false)
      case _ =>
        var a := Audited(n, m.state, target, b);
        (if Attached(a) && m.state.Candidate?
         then WithActive(a, a.incidents[a.activeId.value].(state := target, end := Some(b.start))) else a)
        .(isOpen := false, activeId := None)
  }

  function Step(m: Machine, b: Bucket): Machine {
    if IsNew(m, b) then Moved(Counted(m, b), b, Target(Counted(m, b), b)) else m
  }

  function Run(m: Machine, buckets: seq<Bucket>): Machine {
    if |buckets| == 0 then m else Step(Run(m, buckets[..|buckets| - 1]), buckets[|buckets| - 1])
  }

  // ------------------------------------------------------- what always holds

  ghost predicate OneActive(m: Machine) {
    && (m.activeId.Some? <==> m.state.Active())
    && (m.activeId.Some? ==> Attached(m) && m.incidents[m.activeId.value].state == m.state
                             && m.incidents[m.activeId.value].resolvedAt.None?)
    && (forall i: nat :: i < |m.incidents| && m.activeId != Some(i) ==> !m.incidents[i].state.Active())
  }

  ghost predicate OpenFlag(m: Machine) {
    && (m.isOpen <==> m.state.Open? || m.state.Recovering?)
    && m.openId == (if m.isOpen then m.activeId else None)
  }

  /** The audit rows of incident `id`, oldest first. */
  ghost function AuditOf(audit: seq<Audit>, id: nat): seq<Audit> {
    if |audit| == 0 then []
    else
      var last := audit[|audit| - 1];
      AuditOf(audit[..|audit| - 1], id) + if last.incident == id then [last] else []
  }

  ghost predicate Chained(rows: seq<Audit>) {
    forall k :: 0 < k < |rows| ==> rows[k].from == rows[k - 1].to
  }

  /** The incident's own rows chain, start outside the live states and end in its state. */
  ghost predicate AuditTells(m: Machine, id: nat)
    requires id < |m.incidents|
  {
    var rows := AuditOf(m.audit, id);
    rows != [] && Chained(rows) && !rows[0].from.Active() && rows[|rows| - 1].to == m.incidents[id].state
  }

  ghost predicate AuditComplete(m: Machine) {
    && (forall id: nat :: id < |m.incidents| ==> AuditTells(m, id))
    && (forall k :: 0 <= k < |m.audit| ==> m.audit[k].incident < |m.incidents|)
  }

  /** What the calls so far leave asserted. */
  ghost function Asserted(calls: seq<AlertCall>): bool {
    |calls| > 0 && calls[|calls| - 1].Assert?
  }

  ghost predicate Sound(m: Machine) {
    OneActive(m) && OpenFlag(m) && AuditComplete(m) && (Asserted(m.calls) ==> m.isOpen)
  }

  lemma {:induction false} AuditGrows(audit: seq<Audit>, row: Audit, id: nat)
    ensures AuditOf(audit + [row], id) == AuditOf(audit, id) + if row.incident == id then [row] else []
  {
    assert (audit + [row])[..|audit + [row]| - 1] == audit;
  }

  lemma TargetIsLegal(m: Machine, b: Bucket)
    ensures Legal(m.state, Target(m, b))
    ensures b.maintenance ==> Target(m, b) != Candidate || m.state == Candidate
    ensures b.maintenance && Target(m, b).Open? ==> m.state.Open?
  {
    NextStateIsLegal(LifecycleInput(m.state, b.Effective(), m.anomalous, m.healthy, b.openAfter, b.resolveAfter,
                                    b.verdict.NoData?, b.maintenance && !m.state.Active()));
  }

  /** The effect of a move on the attached incident: the one there was, a fresh one, or none; every
      other incident stays as it is. */
  ghost predicate Tracks(m: Machine, n: Machine) {
    && |m.incidents| <= |n.incidents| <= |m.incidents| + 1
    && (m.activeId.Some? && n.activeId.Some? ==> n.activeId == m.activeId && |n.incidents| == |m.incidents|)
    && (m.activeId.None? && n.activeId.Some? ==> n.activeId == Some(|m.incidents|) && |n.incidents| == |m.incidents| + 1)
    && (n.activeId.None? ==> |n.incidents| == |m.incidents|)
    && (forall i: nat :: i < |m.incidents| && m.activeId != Some(i) ==> n.incidents[i] == m.incidents[i])
  }

  lemma MoveTracks(m: Machine, b: Bucket, target: AnomalyState)
    requires OneActive(m) && Legal(m.state, target)
    ensures Tracks(m, Moved(m, b, target))
  {
  }

  lemma MoveKeepsOneActive(m: Machine, b: Bucket, target: AnomalyState)
    requires OneActive(m) && Legal(m.state, target)
    ensures OneActive(Moved(m, b, target))
  {
    var n := Moved(m, b, target);
    MoveTracks(m, b, target);
    assert n.activeId.Some? <==> n.state.Active();
    assert n.activeId.Some? ==> n.incidents[n.activeId.value].state == n.state && n.incidents[n.activeId.value].resolvedAt.None?;
    assert n.activeId.None? && m.activeId.Some? ==> !n.incidents[m.activeId.value].state.Active();
  }

  /** At most one incident is live, it is the attached one, and it is in the detector's state. */
  lemma StepKeepsOneActive(m: Machine, b: Bucket)
    requires OneActive(m)
    ensures OneActive(Step(m, b)) && Tracks(m, Step(m, b))
  {
    if IsNew(m, b) {
      var c := Counted(m, b);
      TargetIsLegal(c, b);
      MoveTracks(c, b, Target(c, b));
      MoveKeepsOneActive(c, b, Target(c, b));
    }
  }

  lemma StepKeepsOpenFlag(m: Machine, b: Bucket)
    requires OneActive(m) && OpenFlag(m)
    ensures OpenFlag(Step(m, b))
  {
    TargetIsLegal(Counted(m, b), b);
    hide Target;
  }

  lemma StepKeepsCalls(m: Machine, b: Bucket)
    requires OneActive(m) && OpenFlag(m) && (Asserted(m.calls) ==> m.isOpen)
    ensures Asserted(Step(m, b).calls) ==> Step(m, b).isOpen
    ensures !b.recordOnly && (m.isOpen ==> Asserted(m.calls)) ==> (Step(m, b).isOpen ==> Asserted(Step(m, b).calls))
  {
    TargetIsLegal(Counted(m, b), b);
    hide Target;
  }

  /** The incident a move is about. */
  function Subject(m: Machine): nat { if m.activeId.Some? then m.activeId.value else |m.incidents| }

  predicate Records(m: Machine, target: AnomalyState) {
    target != m.state && (m.activeId.Some? || target.Candidate? || target.Open?)
  }

  /** A real move is recorded once, for the incident it is about, which takes the new state. */
  ghost predicate Recorded(m: Machine, n: Machine, b: Bucket, target: AnomalyState) {
    if Records(m, target) then
      && n.audit == m.audit + [Audit(Subject(m), m.state, target, b.start)]
      && Subject(m) < |n.incidents| && n.incidents[Subject(m)].state == target
    else
      && n.audit == m.audit && |n.incidents| == |m.incidents|
      && (m.activeId.Some? && m.activeId.value < |m.incidents| ==>
            n.incidents[m.activeId.value].state == m.incidents[m.activeId.value].state)
  }

  lemma MoveRecords(m: Machine, b: Bucket, target: AnomalyState)
    requires OneActive(m) && Legal(m.state, target)
    ensures Recorded(m, Moved(m, b, target), b, target)
  {
  }

  lemma AuditStaysComplete(m: Machine, n: Machine, b: Bucket, target: AnomalyState)
    requires OneActive(m) && Legal(m.state, target) && AuditComplete(m) && Tracks(m, n) && Recorded(m, n, b, target)
    ensures AuditComplete(n)
  {
    forall id: nat | id < |n.incidents| ensures AuditTells(n, id) {
      if Records(m, target) {
        AuditGrows(m.audit, Audit(Subject(m), m.state, target, b.start), id);
        if id == |m.incidents| {
          NoAuditYet(m.audit, id);
        } else {
          assert AuditTells(m, id);
        }
      } else {
        assert AuditTells(m, id);
      }
    }
  }

  lemma {:induction false} NoAuditYet(audit: seq<Audit>, id: nat)
    requires forall k :: 0 <= k < |audit| ==> audit[k].incident < id
    ensures AuditOf(audit, id) == []
  {
    if |audit| > 0 {
      NoAuditYet(audit[..|audit| - 1], id);
    }
  }

  lemma StepKeepsAudit(m: Machine, b: Bucket)
    requires OneActive(m) && AuditComplete(m)
    ensures AuditComplete(Step(m, b))
  {
    if IsNew(m, b) {
      var c := Counted(m, b);
      assert forall id: nat :: id < |m.incidents| ==> AuditTells(m, id) ==> AuditTells(c, id);
      TargetIsLegal(c, b);
      MoveTracks(c, b, Target(c, b));
      MoveRecords(c, b, Target(c, b));
      hide Moved, Target;
      AuditStaysComplete(c, Moved(c, b, Target(c, b)), b, Target(c, b));
    }
  }

  /** Over any sequence of buckets: at most one live incident, the attached one, in the detector's
      state; the open flag says OPEN or RECOVERING; every incident's audit trail chains and ends in
      its state; an alert is asserted only while the incident is open. */
  lemma {:induction false} RunIsSound(buckets: seq<Bucket>)
    ensures Sound(Run(Initial, buckets))
  {
    hide Step, OneActive, OpenFlag, AuditComplete;
    if |buckets| == 0 {
      InitialIsSound();
    } else {
      var m, b := Run(Initial, buckets[..|buckets| - 1]), buckets[|buckets| - 1];
      RunIsSound(buckets[..|buckets| - 1]);
      StepKeepsOneActive(m, b);
      StepKeepsOpenFlag(m, b);
      StepKeepsAudit(m, b);
      StepKeepsCalls(m, b);
    }
  }

  lemma InitialIsSound()
    ensures Sound(Initial)
  {
  }

  /** While no policy withholds alerts, an alert is asserted exactly while the incident is open. */
  lemma {:induction false} AlertFollowsIncident(buckets: seq<Bucket>)
    requires forall i :: 0 <= i < |buckets| ==> !buckets[i].recordOnly
    ensures Asserted(Run(Initial, buckets).calls) <==> Run(Initial, buckets).isOpen
  {
    if |buckets| > 0 {
      var m := Run(Initial, buckets[..|buckets| - 1]);
      AlertFollowsIncident(buckets[..|buckets| - 1]);
      RunIsSound(buckets[..|buckets| - 1]);
      hide Step;
      StepKeepsCalls(m, buckets[|buckets| - 1]);
    }
  }

  /** A relapse reopens the same incident; after a resolution the next incident is a new one; a
      maintenance bucket neither creates nor opens one. */
  lemma IncidentIdentity(buckets: seq<Bucket>, b: Bucket)
    ensures var (m, n) := (Run(Initial, buckets), Step(Run(Initial, buckets), b));
            && (m.state.Recovering? && n.state.Open? ==> n.activeId == m.activeId && |n.incidents| == |m.incidents|)
            && (!m.state.Active() && n.state.Active() ==>
                  n.activeId == Some(|m.incidents|) && |n.incidents| == |m.incidents| + 1)
            && (b.maintenance ==> |n.incidents| == |m.incidents| && (n.isOpen ==> m.isOpen))
  {
    var m := Run(Initial, buckets);
    RunIsSound(buckets);
    StepKeepsOneActive(m, b);
    StepKeepsOpenFlag(m, b);
    TargetIsLegal(Counted(m, b), b);
    hide Target;
  }

  // --------------------------------------------------------------- hysteresis

  /** The effective verdicts of the buckets that were folded in. */
  ghost function Trace(m: Machine, buckets: seq<Bucket>): seq<Signal> {
    if |buckets| == 0 then []
    else
      var init, b := buckets[..|buckets| - 1], buckets[|buckets| - 1];
      Trace(m, init) + if IsNew(Run(m, init), b) then [b.Effective()] else []
  }

  lemma MoveTakesTarget(m: Machine, b: Bucket, target: AnomalyState)
    ensures var n := Moved(m, b, target);
            n.state == target && n.anomalous == m.anomalous && n.healthy == m.healthy && n.last == m.last
  {
  }

  lemma StepCounts(m: Machine, b: Bucket)
    ensures IsNew(m, b) ==> (Step(m, b).anomalous, Step(m, b).healthy) == AdvanceCounters(b.Effective(), m.anomalous, m.healthy)
    ensures IsNew(m, b) ==> Step(m, b).last == Some(b.start) && Step(m, b).state == Target(Counted(m, b), b)
    ensures !IsNew(m, b) ==> Step(m, b) == m
  {
    MoveTakesTarget(Counted(m, b), b, Target(Counted(m, b), b));
    hide Target, Moved;
  }

  /** The counters are always the trailing runs of the verdicts, the unknown ones left out. */
  lemma {:induction false} CountersFollowTrace(buckets: seq<Bucket>)
    ensures var m := Run(Initial, buckets); CountsTrailingRuns(Trace(Initial, buckets), m.anomalous, m.healthy)
  {
    if |buckets| == 0 {
      assert Known([]) == [];
    } else {
      var init, b := buckets[..|buckets| - 1], buckets[|buckets| - 1];
      var m := Run(Initial, init);
      CountersFollowTrace(init);
      StepCounts(m, b);
      hide Step;
      if IsNew(m, b) {
        CountersAreTrailingRuns(Trace(Initial, init), b.Effective(), m.anomalous, m.healthy);
      } else {
        assert Trace(Initial, buckets) == Trace(Initial, init);
      }
    }
  }

  /** Hysteresis: an incident opens, other than by relapse, only after `openAfter` anomalous verdicts
      in a row, and resolves only after `resolveAfter` healthy ones, unknown verdicts left out. */
  lemma HysteresisHolds(buckets: seq<Bucket>)
    requires |buckets| > 0
    ensures var (init, b) := (buckets[..|buckets| - 1], buckets[|buckets| - 1]);
            var (m, n, known) := (Run(Initial, init), Run(Initial, buckets), Known(Trace(Initial, buckets)));
            && (n.state.Open? && !m.state.Open? && !m.state.Recovering? ==> TrailingRun(known, Anomalous) >= b.openAfter)
            && (n.state.Resolved? && !m.state.Resolved? ==> TrailingRun(known, Healthy) >= b.resolveAfter)
  {
    var m, b := Run(Initial, buckets[..|buckets| - 1]), buckets[|buckets| - 1];
    CountersFollowTrace(buckets);
    hide Trace, Known, TrailingRun;
    assert Run(Initial, buckets) == Step(m, b);
    OpensAndResolves(m, b);
  }

  lemma OpensAndResolves(m: Machine, b: Bucket)
    ensures var n := Step(m, b);
            && (n.state.Open? && !m.state.Open? && !m.state.Recovering? ==> n.anomalous >= b.openAfter)
            && (n.state.Resolved? && !m.state.Resolved? ==> n.healthy >= b.resolveAfter)
  {
    StepCounts(m, b);
    hide Step;
  }
}
