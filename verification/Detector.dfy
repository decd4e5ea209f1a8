/** The detector row with its incident table and audit trail, updated in place one bucket at a time
    (`_apply_hysteresis` and the methods under it in backend/app/anomaly/engine.py). Each method does
    to the row what `IncidentEngine` says of its value. */
module Detector {
  import opened Wrappers
  import opened Lifecycle
  import opened IncidentEngine

  class DetectorRow {
    var state: AnomalyState
    var anomalous: nat
    var healthy: nat
    var isOpen: bool
    var last: Option<int>
    var openId: Option<nat>
    var activeId: Option<nat>
    var incidents: seq<Incident>
    var audit: seq<Audit>
    var calls: seq<AlertCall>

    ghost function View(): Machine
      reads this
    {
      Machine(state, anomalous, healthy, isOpen, last, openId, activeId, incidents, audit, calls)
    }

    constructor ()
      ensures View() == Initial
    {
      state, anomalous, healthy, isOpen, last := Normal, 0, 0, false, None;
      openId, activeId, incidents, audit, calls := None, None, [], [], [];
    }

    /** Fold one bucket into the counters and the lifecycle; a bucket seen before changes nothing. */
    method ApplyHysteresis(b: Bucket)
      modifies this
      ensures View() == Step(old(View()), b)
      ensures old(Sound(View())) ==> Sound(View())
    {
      if last.Some? && last.value >= b.start {
        return;
      }
      ghost var before := View();
      var signal := if b.maintenance && b.verdict.Bad? then Unknown else b.verdict.Signal();
      var counters := AdvanceCounters(signal, anomalous, healthy);
      anomalous, healthy := counters.0, counters.1;
      last := Some(b.start);
      var target := NextState(LifecycleInput(state, signal, anomalous, healthy, b.openAfter, b.resolveAfter,
                                             b.verdict.NoData?, b.maintenance && !state.Active()));
      assert View() == Counted(before, b) && target == Target(View(), b);
      ApplyTransition(b, target);
      StepStaysSound(before, b);
    }

    /** Take the state that was decided, by the method for it. */
    method ApplyTransition(b: Bucket, target: AnomalyState)
      modifies this
      ensures View() == Moved(old(View()), b, target)
    {
      hide Moved;
      var previous := state;
      if target == previous {
        StayPut(b);
        return;
      }
      ghost var before := View();
      state := target;
      assert View().(state := previous) == before;
      match target
      case Candidate =>
        EnterCandidate(b, previous);
      case Open =>
        EnterOpen(b, previous);
      case Recovering =>
        EnterRecovering(b, previous);
      case Resolved =>
        EnterResolved(b, previous);
      case Suppressed =>
        EnterSuppressed(b, previous);
      case _ =>
        EnterIdle(b, previous);
    }

    method StayPut(b: Bucket)
      modifies this
      ensures View() == Moved(old(View()), b, old(state))
    {
      if state.Open? {
        Refresh(b);
        Touch(b);
      }
    }

    method EnterCandidate(b: Bucket, previous: AnomalyState)
      requires state.Candidate? && previous != state
      modifies this
      ensures View() == Moved(old(View()).(state := previous), b, Candidate)
    {
      CreateIncident(b);
      RecordTransition(previous, Candidate, b);
    }

    method EnterOpen(b: Bucket, previous: AnomalyState)
      requires state.Open? && previous != state
      modifies this
      ensures View() == Moved(old(View()).(state := previous), b, Open)
    {
      if activeId.None? || activeId.value >= |incidents| {
        CreateIncident(b);
      }
      PromoteToOpen(b);
      RecordTransition(previous, Open, b);
    }

    method EnterRecovering(b: Bucket, previous: AnomalyState)
      requires state.Recovering? && previous != state
      modifies this
      ensures View() == Moved(old(View()).(state := previous), b, Recovering)
    {
      if activeId.Some? && activeId.value < |incidents| {
        RecordTransition(previous, Recovering, b);
        incidents := incidents[activeId.value := incidents[activeId.value].(state := Recovering, end := Some(b.start))];
      }
    }

    method EnterResolved(b: Bucket, previous: AnomalyState)
      requires state.Resolved? && previous != state
      modifies this
      ensures View() == Moved(old(View()).(state := previous), b, Resolved)
    {
      if activeId.Some? && activeId.value < |incidents| {
        RecordTransition(previous, Resolved, b);
      }
      Resolve(b);
    }

    method EnterSuppressed(b: Bucket, previous: AnomalyState)
      requires state.Suppressed? && previous != state
      modifies this
      ensures View() == Moved(old(View()).(state := previous), b, Suppressed)
    {
      if activeId.Some? && activeId.value < |incidents| {
        RecordTransition(previous, Suppressed, b);
        incidents := incidents[activeId.value := incidents[activeId.value].(state := Suppressed, suppressed := true)];
      }
      isOpen := false;
    }

    /** NORMAL or INSUFFICIENT_DATA: a candidate that never opened simply ends. */
    method EnterIdle(b: Bucket, previous: AnomalyState)
      requires (state.Normal? || state.InsufficientData?) && previous != state
      modifies this
      ensures View() == Moved(old(View()).(state := previous), b, old(state))
    {
      if activeId.Some? && activeId.value < |incidents| {
        RecordTransition(previous, state, b);
        if previous.Candidate? {
          incidents := incidents[activeId.value := incidents[activeId.value].(state := state, end := Some(b.start))];
        }
      }
      activeId := None;
      isOpen := false;
    }

    /** Append an incident that starts at the bucket and attach it. */
    method CreateIncident(b: Bucket)
      modifies this`incidents, this`activeId
      ensures View() == Created(old(View()), b)
    {
      incidents := incidents + [Incident(Candidate, b.start, None, None, None, 1, b.maintenance)];
      activeId := Some(|incidents| - 1);
    }

    method PromoteToOpen(b: Bucket)
      requires activeId.Some? && activeId.value < |incidents|
      modifies this
      ensures View() == Promoted(old(View()), b)
    {
      var id := activeId.value;
      incidents := incidents[id := incidents[id].(state := Open, openedAt := Some(b.now), end := None)];
      Touch(b);
      isOpen := true;
      openId := Some(id);
      activeId := Some(id);
      if b.maintenance {
        return;
      }
      if b.recordOnly {
        return;
      }
      calls := calls + [Assert(true)];
    }

    /** Update the span and length of the attached incident, if there is one. */
    method Touch(b: Bucket)
      modifies this`incidents
      ensures incidents == if activeId.Some? && activeId.value < |old(incidents)|
                           then old(incidents)[activeId.value := Touched(old(incidents)[activeId.value], b, anomalous)]
                           else old(incidents)
    {
      if activeId.Some? && activeId.value < |incidents| {
        var incident := incidents[activeId.value];
        incident := incident.(buckets := MaxNat(incident.buckets, anomalous));
        if b.verdict.Bad? {
          incident := incident.(end := Some(b.start + b.seconds));
        }
        incidents := incidents[activeId.value := incident];
      }
    }

    /** A still-open condition: re-assert the alert without announcing it. */
    method Refresh(b: Bucket)
      modifies this`calls
      ensures View() == Alerted(old(View()), b, Assert(false))
    {
      if !b.maintenance && !b.recordOnly {
        calls := calls + [Assert(false)];
      }
    }

    method RecordTransition(from: AnomalyState, to: AnomalyState, b: Bucket)
      requires activeId.Some? && activeId.value < |incidents|
      modifies this`audit
      ensures View() == Audited(old(View()), from, to, b)
    {
      audit := audit + [Audit(activeId.value, from, to, b.start)];
    }

    /** Close the incident and detach it, so that a recurrence opens a new one. */
    method Resolve(b: Bucket)
      modifies this
      ensures var m := old(View());
              View() == (if Attached(m) && m.incidents[m.activeId.value].resolvedAt.None?
                         then WithActive(m, m.incidents[m.activeId.value].(state := Resolved, resolvedAt := Some(b.now))) else m)
                        .(isOpen := false, openId := None, activeId := None, calls := m.calls + [Withdraw])
    {
      if activeId.Some? && activeId.value < |incidents| && incidents[activeId.value].resolvedAt.None? {
        incidents := incidents[activeId.value :=
          incidents[activeId.value].(state := Resolved, resolvedAt := Some(b.now))];
      }
      isOpen := false;
      openId := None;
      activeId := None;
      calls := calls + [Withdraw];
    }
  }

  lemma StepStaysSound(m: Machine, b: Bucket)
    ensures Sound(m) ==> Sound(Step(m, b))
  {
    hide Step, OneActive, OpenFlag, AuditComplete;
    if Sound(m) {
      StepKeepsOneActive(m, b);
      StepKeepsOpenFlag(m, b);
      StepKeepsAudit(m, b);
      StepKeepsCalls(m, b);
    }
  }
}
