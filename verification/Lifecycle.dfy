/** The anomaly lifecycle (backend/app/anomaly/lifecycle.py): hysteresis counters and the next state
    of one (log source, anomaly type) pair, decided from one bucket's verdict. */
module Lifecycle {

  datatype AnomalyState = InsufficientData | Normal | Candidate | Open | Recovering | Resolved | Suppressed {
    /** States in which an incident is live (backend/app/models/enums.py). */
    predicate Active() { Candidate? || Open? || Recovering? }
  }

  datatype Signal = Healthy | Anomalous | Unknown

  datatype LifecycleInput = LifecycleInput(
    state: AnomalyState, signal: Signal, anomalous: nat, healthy: nat,
    openAfter: int, resolveAfter: int, insufficient: bool, suppressed: bool)

  function AdvanceCounters(signal: Signal, anomalous: nat, healthy: nat): (nat, nat) {
    match signal
    case Anomalous => (anomalous + 1, 0)
    case Healthy => (0, healthy + 1)
    case Unknown => (anomalous, healthy)
  }

  function NextState(i: LifecycleInput): AnomalyState {
    if i.suppressed then Suppressed
    else if i.state.Suppressed? then Normal
    else if i.insufficient then
      if i.state.Normal? || i.state.InsufficientData? then InsufficientData else i.state
    else match i.signal
      case Unknown => i.state
      case Anomalous => OnAnomalous(i)
      case Healthy => OnHealthy(i)
  }

  function OnAnomalous(i: LifecycleInput): AnomalyState {
    match i.state
    case Normal => if i.anomalous >= i.openAfter then Open else Candidate
    case InsufficientData => if i.anomalous >= i.openAfter then Open else Candidate
    case Resolved => if i.anomalous >= i.openAfter then Open else Candidate
    case Candidate => if i.anomalous >= i.openAfter then Open else Candidate
    case Recovering => Open
    case _ => i.state
  }

  function OnHealthy(i: LifecycleInput): AnomalyState {
    match i.state
    case Candidate => Normal
    case Open => if i.resolveAfter <= 1 then Resolved else Recovering
    case Recovering => if i.healthy >= i.resolveAfter then Resolved else Recovering
    case _ => Normal
  }

  /** The moves of the lifecycle diagram; staying put is always allowed. */
  predicate Legal(from: AnomalyState, to: AnomalyState) {
    from == to ||
    match to
    case Candidate => from.Normal? || from.InsufficientData? || from.Resolved?
    case Open => !from.Suppressed?
    case Recovering => from.Open?
    case Resolved => from.Open? || from.Recovering?
    case Suppressed => !from.Active()
    case Normal => !from.Open? && !from.Recovering?
    case InsufficientData => from.Normal?
  }

  /** Every decision is a move of the diagram, provided live incidents are never suppressed. */
  lemma NextStateIsLegal(i: LifecycleInput)
    requires i.suppressed ==> !i.state.Active()
    ensures Legal(i.state, NextState(i))
  {
  }

  /** A bucket without a verdict never opens, closes or recovers anything. */
  lemma UnknownHolds(i: LifecycleInput)
    requires i.signal.Unknown? && !i.suppressed && !i.state.Suppressed?
    ensures NextState(i) == i.state || (i.state.Normal? && NextState(i).InsufficientData?)
  {
  }

  // ---------------------------------------------------------------- traces

  /** The verdicts without the unknown ones. */
  ghost function Known(trace: seq<Signal>): seq<Signal> {
    if |trace| == 0 then []
    else
      var last := trace[|trace| - 1];
      Known(trace[..|trace| - 1]) + if last.Unknown? then [] else [last]
  }

  /** How many verdicts in a row, up to the last, are `signal`. */
  ghost function TrailingRun(trace: seq<Signal>, signal: Signal): nat {
    if |trace| == 0 || trace[|trace| - 1] != signal then 0
    else 1 + TrailingRun(trace[..|trace| - 1], signal)
  }

  ghost predicate CountsTrailingRuns(trace: seq<Signal>, anomalous: nat, healthy: nat) {
    anomalous == TrailingRun(Known(trace), Anomalous) && healthy == TrailingRun(Known(trace), Healthy)
  }

  lemma KnownSnoc(trace: seq<Signal>, signal: Signal)
    ensures Known(trace + [signal]) == if signal.Unknown? then Known(trace) else Known(trace) + [signal]
  {
    assert (trace + [signal])[..|trace + [signal]| - 1] == trace;
  }

  lemma RunSnoc(trace: seq<Signal>, last: Signal, signal: Signal)
    ensures TrailingRun(trace + [last], signal) == if last == signal then TrailingRun(trace, signal) + 1 else 0
  {
    assert (trace + [last])[..|trace + [last]| - 1] == trace;
  }

  /** One more verdict: the counters stay the trailing runs of the verdicts that were known. */
  lemma CountersAreTrailingRuns(trace: seq<Signal>, signal: Signal, anomalous: nat, healthy: nat)
    requires CountsTrailingRuns(trace, anomalous, healthy)
    ensures var (a, h) := AdvanceCounters(signal, anomalous, healthy); CountsTrailingRuns(trace + [signal], a, h)
  {
    hide Known, TrailingRun;
    KnownSnoc(trace, signal);
    RunSnoc(Known(trace), signal, Anomalous);
    RunSnoc(Known(trace), signal, Healthy);
  }
}
