/** The worst observation an incident has on record (`_create_incident`, `_promote_to_open`, `_touch_anomaly`
    and `_is_worse` in backend/app/anomaly/engine.py), beside the incident machine that drives it. */
module Readings {
  import opened Wrappers
  import opened Lifecycle
  import opened IncidentEngine

  /** What a detector observed in a bucket; it may have no number to give. */
  type Reading = Option<real>

  /** Which way is worse: up for a spike, down for every other anomaly. */
  datatype Direction = Up | Down

  predicate IsWorse(recorded: Reading, value: real, d: Direction) {
    recorded.None? || if d.Up? then value > recorded.value else value < recorded.value
  }

  function Worse(recorded: Reading, value: Reading, d: Direction): Reading {
    if value.Some? && IsWorse(recorded, value.value, d) then value else recorded
  }

  /** The machine and the observation on record for each of its incidents. */
  datatype Book = Book(machine: Machine, records: seq<Reading>)

  function Noted(book: Book, b: Bucket, value: Reading, d: Direction): Book {
    var n := Step(book.machine, b);
    Book(n, Records(book.records, book.machine, n, b, value, d))
  }

  /** A new incident is created with the bucket's observation; one that is open after an anomalous bucket
      is compared with it. */
  function Records(records: seq<Reading>, m: Machine, n: Machine, b: Bucket, value: Reading, d: Direction): seq<Reading> {
    var created := records + if |n.incidents| > |m.incidents| then [value] else [];
    if IsNew(m, b) && b.verdict.Bad? && n.state.Open? && n.activeId.Some? && n.activeId.value < |created|
    then created[n.activeId.value := Worse(created[n.activeId.value], value, d)] else created
  }

  function NotedAll(buckets: seq<Bucket>, values: seq<Reading>, d: Direction): Book
    requires |values| == |buckets|
  {
    var n := |buckets|;
    if n == 0 then Book(Initial, []) else Noted(NotedAll(buckets[..n - 1], values[..n - 1], d), buckets[n - 1], values[n - 1], d)
  }

  // -------------------------------------------------------- which ones count

  /** The machine before the k-th bucket. */
  ghost function Before(buckets: seq<Bucket>, k: nat): Machine
    requires k <= |buckets|
  {
    Run(Initial, buckets[..k])
  }

  /** The k-th bucket was anomalous and left incident `id` attached. */
  ghost predicate Hits(buckets: seq<Bucket>, k: nat, id: nat)
    requires k < |buckets|
  {
    var (m, b) := (Before(buckets, k), buckets[k]);
    IsNew(m, b) && b.verdict.Bad? && Step(m, b).activeId == Some(id)
  }

  /** It found an incident and did not leave it open, so it is not compared with what is on record. */
  ghost predicate Missed(buckets: seq<Bucket>, k: nat)
    requires k < |buckets|
  {
    Before(buckets, k).activeId.Some? && !Step(Before(buckets, k), buckets[k]).state.Open?
  }

  ghost predicate Counts(buckets: seq<Bucket>, k: nat, id: nat)
    requires k < |buckets|
  {
    Hits(buckets, k, id) && !Missed(buckets, k)
  }

  /** `r` is the worst of the values that count up to `n`: one of them, and none is worse. */
  ghost predicate WorstCounted(buckets: seq<Bucket>, values: seq<Reading>, n: nat, id: nat, d: Direction, r: Reading)
    requires n <= |buckets| == |values|
  {
    && (r.Some? ==> exists k :: 0 <= k < n && Counts(buckets, k, id) && values[k] == r)
    && (forall k :: 0 <= k < n && Counts(buckets, k, id) && values[k].Some? ==> !IsWorse(r, values[k].value, d))
  }

  /** The worst of all the incident's anomalous buckets. */
  ghost predicate WorstOfAll(buckets: seq<Bucket>, values: seq<Reading>, id: nat, d: Direction, r: Reading)
    requires |buckets| == |values|
  {
    && (r.Some? ==> exists k :: 0 <= k < |buckets| && Hits(buckets, k, id) && values[k] == r)
    && (forall k :: 0 <= k < |buckets| && Hits(buckets, k, id) && values[k].Some? ==> !IsWorse(r, values[k].value, d))
  }

  // --------------------------------------------------------------- one bucket

  /** What a step may do to the incidents, as far as the records care. */
  ghost predicate Adds(m: Machine, n: Machine, b: Bucket) {
    && |m.incidents| <= |n.incidents| <= |m.incidents| + 1 && (n.activeId.Some? ==> n.activeId.value < |n.incidents|)
    && (|n.incidents| > |m.incidents| <==> m.activeId.None? && n.activeId.Some?)
    && (|n.incidents| > |m.incidents| ==> n.activeId == Some(|m.incidents|) && IsNew(m, b) && b.verdict.Bad?)
    && (m.activeId.Some? && n.activeId.Some? ==> n.activeId == m.activeId)
    && (n.state.Open? ==> n.activeId.Some?)
    && (m.activeId.Some? ==> m.activeId.value < |m.incidents|)
  }

  lemma StepAdds(m: Machine, b: Bucket)
    requires Sound(m)
    ensures Adds(m, Step(m, b), b)
  {
    StepKeepsOneActive(m, b);
    StepCounts(m, b);
    NewIsAnomalous(m, b);
    hide Step;
  }

  lemma NewIsAnomalous(m: Machine, b: Bucket)
    ensures !m.state.Active() && Target(Counted(m, b), b).Active() ==> b.verdict.Bad?
  {
  }

  /** The anomalous buckets that are missed: those that leave a candidate one, and those in maintenance
      while an incident recovers. */
  lemma MissedIs(m: Machine, b: Bucket)
    requires Sound(m) && IsNew(m, b) && b.verdict.Bad? && m.activeId.Some? && Step(m, b).activeId.Some?
    ensures !Step(m, b).state.Open? <==>
            (m.state.Candidate? && Step(m, b).state.Candidate?) || (m.state.Recovering? && b.maintenance)
  {
    StepKeepsOneActive(m, b);
    StepCounts(m, b);
    hide Step;
  }

  /** What one bucket does to the record of one incident. */
  lemma RecordStep(records: seq<Reading>, m: Machine, n: Machine, b: Bucket, value: Reading, d: Direction, id: nat)
    requires Adds(m, n, b) && |records| == |m.incidents| && id < |n.incidents|
    ensures var r := Records(records, m, n, b, value, d);
            var hits := IsNew(m, b) && b.verdict.Bad? && n.activeId == Some(id);
            && |r| == |n.incidents|
            && r[id] == (if id == |m.incidents| then value
                         else if hits && n.state.Open? then Worse(records[id], value, d) else records[id])
            && (id == |m.incidents| ==> hits && m.activeId.None?)
            && (id < |m.incidents| && hits ==> m.activeId.Some?)
  {
  }

  // ------------------------------------------------------------- what is kept

  lemma {:induction false} BookFollows(buckets: seq<Bucket>, values: seq<Reading>, d: Direction)
    requires |values| == |buckets|
    ensures var book := NotedAll(buckets, values, d);
            book.machine == Run(Initial, buckets) && |book.records| == |book.machine.incidents|
  {
    hide Step, Sound, Adds, Records;
    var n := |buckets|;
    if n > 0 {
      BookFollows(buckets[..n - 1], values[..n - 1], d);
      RunIsSound(buckets[..n - 1]);
      var m := Run(Initial, buckets[..n - 1]);
      StepAdds(m, buckets[n - 1]);
      RecordsLength(NotedAll(buckets[..n - 1], values[..n - 1], d).records, m, Step(m, buckets[n - 1]), buckets[n - 1], values[n - 1], d);
    }
  }

  lemma RecordsLength(records: seq<Reading>, m: Machine, n: Machine, b: Bucket, value: Reading, d: Direction)
    requires Adds(m, n, b) && |records| == |m.incidents|
    ensures |Records(records, m, n, b, value, d)| == |n.incidents|
  {
  }

  lemma {:induction false} HitsAreKnown(buckets: seq<Bucket>, k: nat, id: nat)
    requires k < |buckets| && Hits(buckets, k, id)
    ensures id < |Run(Initial, buckets).incidents|
  {
    hide Step, Sound, Adds, Run;
    var n := |buckets|;
    var m := Before(buckets, n - 1);
    RunIsSound(buckets[..n - 1]);
    StepAdds(m, buckets[n - 1]);
    RunsOn(buckets);
    if k < n - 1 {
      SameBefore(buckets, k);
      HitsAreKnown(buckets[..n - 1], k, id);
      AddsOnly(m, Step(m, buckets[n - 1]), buckets[n - 1]);
    } else {
      AddsOnly(m, Step(m, buckets[n - 1]), buckets[n - 1]);
    }
  }

  lemma RunsOn(buckets: seq<Bucket>)
    requires |buckets| > 0
    ensures Run(Initial, buckets) == Step(Before(buckets, |buckets| - 1), buckets[|buckets| - 1])
  {
  }

  lemma AddsOnly(m: Machine, n: Machine, b: Bucket)
    requires Adds(m, n, b)
    ensures |m.incidents| <= |n.incidents| && (n.activeId.Some? ==> n.activeId.value < |n.incidents|)
  {
  }

  lemma SameBefore(buckets: seq<Bucket>, k: nat)
    requires k < |buckets| - 1
    ensures Before(buckets[..|buckets| - 1], k) == Before(buckets, k)
  {
    assert buckets[..|buckets| - 1][..k] == buckets[..k];
  }

  lemma SameCounts(buckets: seq<Bucket>, k: nat, id: nat)
    requires k < |buckets| - 1
    ensures Counts(buckets[..|buckets| - 1], k, id) <==> Counts(buckets, k, id)
  {
    SameBefore(buckets, k);
    hide Before, Step;
  }

  lemma WorstOfPrefix(buckets: seq<Bucket>, values: seq<Reading>, id: nat, d: Direction, r: Reading)
    requires |buckets| == |values| > 0
    requires WorstCounted(buckets[..|buckets| - 1], values[..|buckets| - 1], |buckets| - 1, id, d, r)
    ensures WorstCounted(buckets, values, |buckets| - 1, id, d, r)
  {
    hide Counts;
    var n := |buckets| - 1;
    forall k | 0 <= k < n ensures Counts(buckets[..n], k, id) <==> Counts(buckets, k, id) {
      SameCounts(buckets, k, id);
    }
    if r.Some? {
      var k :| 0 <= k < n && Counts(buckets[..n], k, id) && values[..n][k] == r;
      assert Counts(buckets, k, id) && values[k] == r;
    }
    forall k | 0 <= k < n && Counts(buckets, k, id) && values[k].Some? ensures !IsWorse(r, values[k].value, d) {
      assert Counts(buckets[..n], k, id) && values[..n][k] == values[k];
    }
  }

  lemma WorstOfMore(buckets: seq<Bucket>, values: seq<Reading>, n: nat, id: nat, d: Direction, r: Reading)
    requires n < |buckets| == |values| && WorstCounted(buckets, values, n, id, d, r)
    ensures WorstCounted(buckets, values, n + 1, id, d, if Counts(buckets, n, id) then Worse(r, values[n], d) else r)
  {
    hide Counts;
    if Counts(buckets, n, id) && r == Worse(r, values[n], d) && r.Some? {
      var k :| 0 <= k < n && Counts(buckets, k, id) && values[k] == r;
    }
  }

  lemma NotedNext(buckets: seq<Bucket>, values: seq<Reading>, d: Direction)
    requires |values| == |buckets| > 0
    ensures var (n, m) := (|buckets| - 1, Run(Initial, buckets[..|buckets| - 1]));
            var before := NotedAll(buckets[..n], values[..n], d);
            && |before.records| == |m.incidents| && Before(buckets, n) == m
            && NotedAll(buckets, values, d).records == Records(before.records, m, Step(m, buckets[n]), buckets[n], values[n], d)
  {
    BookFollows(buckets[..|buckets| - 1], values[..|buckets| - 1], d);
    hide Step, Records, Run;
  }

  /** Whether the last bucket counts, told from the machine before it. */
  lemma LastCounts(buckets: seq<Bucket>, id: nat)
    requires |buckets| > 0
    ensures var (m, b) := (Before(buckets, |buckets| - 1), buckets[|buckets| - 1]);
            Counts(buckets, |buckets| - 1, id) <==>
              IsNew(m, b) && b.verdict.Bad? && Step(m, b).activeId == Some(id) && (m.activeId.None? || Step(m, b).state.Open?)
  {
    hide Step, Run;
  }

  /** The record of every incident is the worst of the observations that count: the one it was created
      with and those of the anomalous buckets that opened it or found it open. */
  lemma {:induction false} RecordIsWorstCounted(buckets: seq<Bucket>, values: seq<Reading>, d: Direction, id: nat)
    requires |values| == |buckets| && id < |NotedAll(buckets, values, d).records|
    ensures WorstCounted(buckets, values, |buckets|, id, d, NotedAll(buckets, values, d).records[id])
  {
    var n := |buckets|;
    if n > 0 {
      hide Step, Records, WorstCounted, Adds, Sound, Run, NotedAll, Counts;
      var init, vals := buckets[..n - 1], values[..n - 1];
      var records := NotedAll(init, vals, d).records;
      var (m, b) := (Run(Initial, init), buckets[n - 1]);
      NotedNext(buckets, values, d);
      RunIsSound(init);
      StepAdds(m, b);
      RecordsLength(records, m, Step(m, b), b, values[n - 1], d);
      RecordStep(records, m, Step(m, b), b, values[n - 1], d, id);
      LastCounts(buckets, id);
      if id < |m.incidents| {
        RecordIsWorstCounted(init, vals, d, id);
        WorstOfPrefix(buckets, values, id, d, records[id]);
        WorstOfMore(buckets, values, n - 1, id, d, records[id]);
      } else {
        NothingBefore(buckets, values, id, d);
        WorstOfMore(buckets, values, n - 1, id, d, None);
      }
    }
  }

  lemma NothingBefore(buckets: seq<Bucket>, values: seq<Reading>, id: nat, d: Direction)
    requires |buckets| == |values| > 0 && id >= |Run(Initial, buckets[..|buckets| - 1]).incidents|
    ensures WorstCounted(buckets, values, |buckets| - 1, id, d, None)
  {
    hide Run, Step;
    var n := |buckets| - 1;
    forall k | 0 <= k < n ensures !Counts(buckets, k, id) {
      SameCounts(buckets, k, id);
      if Counts(buckets[..n], k, id) {
        HitsAreKnown(buckets[..n], k, id);
      }
    }
  }

  // ------------------------------------------------ the worst of all, or not

  ghost predicate NoneMissed(buckets: seq<Bucket>, id: nat) {
    forall k :: 0 <= k < |buckets| && Hits(buckets, k, id) ==> !Missed(buckets, k)
  }

  ghost predicate AlwaysWorst(buckets: seq<Bucket>, id: nat, d: Direction)
    requires id < |Run(Initial, buckets).incidents|
  {
    forall values: seq<Reading> | |values| == |buckets| :: RecordsWorst(buckets, values, id, d)
  }

  ghost predicate RecordsWorst(buckets: seq<Bucket>, values: seq<Reading>, id: nat, d: Direction)
    requires id < |Run(Initial, buckets).incidents| && |values| == |buckets|
  {
    BookFollows(buckets, values, d);
    WorstOfAll(buckets, values, id, d, NotedAll(buckets, values, d).records[id])
  }

  /** All zero but for one, which is worse. */
  function OneWorse(n: nat, k: nat, d: Direction): seq<Reading> {
    seq(n, (i: nat) => if i == k then if d.Up? then Some(1.0) else Some(-1.0) else Some(0.0))
  }

  lemma MissedIsNotRecorded(buckets: seq<Bucket>, id: nat, d: Direction, k: nat)
    requires id < |Run(Initial, buckets).incidents| && k < |buckets| && Hits(buckets, k, id) && Missed(buckets, k)
    ensures !RecordsWorst(buckets, OneWorse(|buckets|, k, d), id, d)
  {
    var values := OneWorse(|buckets|, k, d);
    BookFollows(buckets, values, d);
    RecordIsWorstCounted(buckets, values, d, id);
    hide NotedAll, Run, Hits, Missed;
    var r := NotedAll(buckets, values, d).records[id];
    if r.Some? {
      var j :| 0 <= j < |buckets| && Counts(buckets, j, id) && values[j] == r;
      assert j != k;
    }
    assert IsWorse(r, values[k].value, d);
  }

  /** Exactly when an incident's record is the worst of all its anomalous buckets, whatever was observed:
      when none of them left it a candidate or came in maintenance while it recovered. */
  lemma RecordsWorstIff(buckets: seq<Bucket>, id: nat, d: Direction)
    requires id < |Run(Initial, buckets).incidents|
    ensures AlwaysWorst(buckets, id, d) <==> NoneMissed(buckets, id)
  {
    hide Run, Hits, Missed, RecordsWorst;
    if NoneMissed(buckets, id) {
      forall values: seq<Reading> | |values| == |buckets| ensures RecordsWorst(buckets, values, id, d) {
        CountedIsAll(buckets, values, id, d);
      }
    } else {
      var k :| 0 <= k < |buckets| && Hits(buckets, k, id) && Missed(buckets, k);
      MissedIsNotRecorded(buckets, id, d, k);
      assert |OneWorse(|buckets|, k, d)| == |buckets|;
    }
  }

  lemma CountedIsAll(buckets: seq<Bucket>, values: seq<Reading>, id: nat, d: Direction)
    requires id < |Run(Initial, buckets).incidents| && |values| == |buckets| && NoneMissed(buckets, id)
    ensures RecordsWorst(buckets, values, id, d)
  {
    BookFollows(buckets, values, d);
    RecordIsWorstCounted(buckets, values, d, id);
    hide NotedAll, Run, Hits, Missed;
    var r := NotedAll(buckets, values, d).records[id];
    forall k | 0 <= k < |buckets| ensures Counts(buckets, k, id) <==> Hits(buckets, k, id) {
    }
    if r.Some? {
      var k :| 0 <= k < |buckets| && Counts(buckets, k, id) && values[k] == r;
      assert Hits(buckets, k, id);
    }
  }

  /** Three anomalous buckets where three are needed to confirm, as for a source of low criticality. */
  function Slow(): seq<Bucket> {
    [Bucket(0, 300, Bad, false, 3, 4, 300, false), Bucket(300, 300, Bad, false, 3, 4, 600, false),
     Bucket(600, 300, Bad, false, 3, 4, 900, false)]
  }

  lemma SlowStarts()
    ensures Before(Slow(), 1) == Step(Initial, Slow()[0])
  {
    var s := Slow()[..1];
    assert s[..0] == [] && s[0] == Slow()[0];
  }

  /** The exception is reached: the second bucket may be the worst and is never on record. */
  lemma SlowOpeningMisses(d: Direction)
    ensures 0 < |Run(Initial, Slow()).incidents|
    ensures Missed(Slow(), 1) && !AlwaysWorst(Slow(), 0, d)
  {
    SlowStarts();
    var m, b := Before(Slow(), 1), Slow()[1];
    assert m.state.Candidate? && m.activeId == Some(0) && m.anomalous == 1 && m.last == Some(0);
    StepCounts(m, b);
    assert Step(m, b).state.Candidate? && Step(m, b).activeId == Some(0);
    assert Hits(Slow(), 1, 0);
    hide Step, Run;
    HitsAreKnown(Slow(), 1, 0);
    RecordsWorstIff(Slow(), 0, d);
  }

  lemma {:induction false} CandidateHasRun(buckets: seq<Bucket>)
    ensures var m := Run(Initial, buckets); m.state.Candidate? ==> m.anomalous >= 1
  {
    if |buckets| > 0 {
      CandidateHasRun(buckets[..|buckets| - 1]);
      StepCounts(Run(Initial, buckets[..|buckets| - 1]), buckets[|buckets| - 1]);
      hide Step;
    }
  }

  /** With a confirmation of at most two buckets and no maintenance nothing is missed. */
  lemma QuickOpeningMissesNothing(buckets: seq<Bucket>, id: nat)
    requires forall i :: 0 <= i < |buckets| ==> buckets[i].openAfter <= 2 && !buckets[i].maintenance
    ensures NoneMissed(buckets, id)
  {
    forall k | 0 <= k < |buckets| && Hits(buckets, k, id) ensures !Missed(buckets, k) {
      var m, b := Before(buckets, k), buckets[k];
      RunIsSound(buckets[..k]);
      CandidateHasRun(buckets[..k]);
      StepCounts(m, b);
      if m.activeId.Some? {
        MissedIs(m, b);
      }
      hide Step, Run;
    }
  }

  // ---------------------------------------------------------------- the program

  class RecordBook {
    var machine: Machine
    var records: seq<Reading>

    constructor ()
      ensures Book(machine, records) == Book(Initial, [])
    {
      machine, records := Initial, [];
    }

    /** Fold one bucket, then set or compare the record of the incident it is about. */
    method Observe(b: Bucket, value: Reading, d: Direction)
      modifies this
      ensures Book(machine, records) == Noted(Book(old(machine), old(records)), b, value, d)
    {
      hide Step;
      var before := machine;
      machine := Step(machine, b);
      if |machine.incidents| > |before.incidents| {
        records := records + [value];
      }
      if IsNew(before, b) && b.verdict.Bad? && machine.state.Open? && machine.activeId.Some? {
        Touch(value, d);
      }
    }

    /** Track the worst observation of the attached incident. */
    method Touch(value: Reading, d: Direction)
      requires machine.activeId.Some?
      modifies this`records
      ensures records == if machine.activeId.value < |old(records)|
                         then old(records)[machine.activeId.value := Worse(old(records)[machine.activeId.value], value, d)]
                         else old(records)
    {
      var id := machine.activeId.value;
      if id < |records| && value.Some? && IsWorse(records[id], value.value, d) {
        records := records[id := value];
      }
    }
  }
}
