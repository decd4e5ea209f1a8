/** The search run as the collectors execute it: nested calls that share one budget object and fill
    one dictionary of buckets. It leaves exactly what `KeyedSearch.Bisect` describes. */
module KeyedRun {
  import opened Wrappers
  import opened KeyedSearch
  import opened Sorting

  /** A tick's search budget (backend/app/ips/keyed_search.py). */
  class SearchBudget {
    const maxSearches: nat
    var used: nat

    constructor (maxSearches: nat)
      ensures this.maxSearches == maxSearches && used == 0
    {
      this.maxSearches := maxSearches;
      used := 0;
    }

    method TryTake() returns (taken: bool)
      modifies this
      ensures taken == (old(used) < maxSearches)
      ensures used == old(used) + if taken then 1 else 0
    {
      if used >= maxSearches {
        return false;
      }
      used := used + 1;
      return true;
    }
  }

  function Leaves(p: Plan, ask: Provider, limit: nat, used: nat, first: nat, count: nat, depth: nat): (seq<Leaf>, nat)
    requires count >= 1
  {
    TellerIsSane(p, ask);
    Bisect(TellerOf(p, ask), limit, used, first, count, depth)
  }

  /** The dictionary entries of consecutive buckets from `first`, keyed by bucket index. */
  function Entries(first: nat, cells: seq<Outcome>): map<nat, Outcome> {
    if |cells| == 0 then map[]
    else Entries(first, cells[..|cells| - 1])[first + |cells| - 1 := cells[|cells| - 1]]
  }

  lemma {:induction false} EntriesJoin(first: nat, a: seq<Outcome>, b: seq<Outcome>)
    ensures Entries(first, a + b) == Entries(first, a) + Entries(first + |a|, b)
  {
    if |b| == 0 {
      assert a + b == a;
    } else {
      assert (a + b)[..|a + b| - 1] == a + b[..|b| - 1];
      EntriesJoin(first, a, b[..|b| - 1]);
    }
  }

  lemma EntriesGrow(before: map<nat, Outcome>, first: nat, cells: seq<Outcome>, i: nat)
    requires i < |cells|
    ensures before + Entries(first, cells[..i + 1]) == (before + Entries(first, cells[..i]))[first + i := cells[i]]
  {
    assert cells[..i + 1][..i] == cells[..i];
  }

  lemma {:induction false} EntryAt(first: nat, cells: seq<Outcome>, i: nat)
    requires i < |cells|
    ensures first + i in Entries(first, cells) && Entries(first, cells)[first + i] == cells[i]
  {
    if i < |cells| - 1 {
      EntryAt(first, cells[..|cells| - 1], i);
    }
  }

  /** The rows of an answer, grouped by bucket in the order they came. */
  method GroupRows(rows: seq<Row>) returns (byBucket: map<int, seq<Row>>)
    ensures forall at :: RowsOf(rows, at) == if at in byBucket then byBucket[at] else []
  {
    byBucket := map[];
    for n := 0 to |rows|
      invariant forall at :: RowsOf(rows[..n], at) == if at in byBucket then byBucket[at] else []
    {
      var row := rows[n];
      assert rows[..n + 1][..n] == rows[..n];
      byBucket := byBucket[row.bucketStart :=
        (if row.bucketStart in byBucket then byBucket[row.bucketStart] else []) + [row]];
    }
    assert rows[..|rows|] == rows;
  }

  class Run {
    const plan: Plan
    const ask: Provider
    const budget: SearchBudget
    var buckets: map<nat, Outcome>
    var splits: nat

    constructor (plan: Plan, ask: Provider, budget: SearchBudget)
      ensures this.plan == plan && this.ask == ask && this.budget == budget
      ensures buckets == map[] && splits == 0
    {
      this.plan, this.ask, this.budget := plan, ask, budget;
      buckets, splits := map[], 0;
    }

    /** Give every bucket of a decided window its outcome. */
    method Emit(leaf: Leaf)
      modifies this`buckets
      ensures buckets == old(buckets) + Entries(leaf.first, LeafCells(plan, leaf))
    {
      var byBucket := GroupRows(leaf.rows);
      ghost var cells := LeafCells(plan, leaf);
      assert Entries(leaf.first, cells[..0]) == map[];
      hide Entries, RowsOf;
      for i := 0 to leaf.count
        invariant buckets == old(buckets) + Entries(leaf.first, cells[..i])
      {
        var at := plan.At(leaf.first + i);
        var rows := if at in byBucket then byBucket[at] else [];
        EntriesGrow(old(buckets), leaf.first, cells, i);
        assert cells[i] == Cell(plan, leaf, leaf.first + i);
        buckets := buckets[leaf.first + i := Outcome(at, leaf.state, rows, Provenances(plan, leaf))];
      }
      assert cells[..leaf.count] == cells;
    }

    method Search(first: nat, count: nat, depth: nat)
      requires count >= 1
      modifies this`buckets, this`splits, budget
      ensures var (leaves, after) := Leaves(plan, ask, budget.maxSearches, old(budget.used), first, count, depth);
              && budget.used == after
              && splits == old(splits) + |leaves| - 1
              && buckets == old(buckets) + Entries(first, Cells(plan, leaves))
      decreases count
    {
      hide Leaves, Cells, Entries;
      ghost var limit, used := budget.maxSearches, budget.used;
      var state, rows := NotCollected, [];
      var taken := budget.TryTake();
      if taken {
        var reply := ask(budget.used - 1, plan.At(first), plan.At(first + count));
        if reply.SearchRejected? {
          state := Rejected;
        } else if reply.SearchFailed? || !Contained(plan, reply.rows, first, count) {
          state := Failed;
        } else if !reply.truncated {
          state, rows := Complete, reply.rows;
        } else if count > 1 {
          splits := splits + 1;
          var left := count / 2;
          Search(first, left, depth + 1);
          Search(first + left, count - left, depth + 1);
          DividedLeaves(plan, ask, limit, used, first, count, depth, old(buckets));
          return;
        } else {
          state, rows := LowerBound, reply.rows;
        }
      }
      Emit(Leaf(first, count, depth, state, rows));
      SettledLeaf(plan, ask, limit, used, first, count, depth);
    }
  }

  lemma OneLeaf(p: Plan, leaf: Leaf)
    ensures Cells(p, [leaf]) == LeafCells(p, leaf)
  {
    assert [leaf][1..] == [] && Cells(p, []) == [];
  }

  lemma SettledLeaf(p: Plan, ask: Provider, limit: nat, used: nat, first: nat, count: nat, depth: nat)
    requires count >= 1
    ensures var v := Judge(p, ask(used, p.At(first), p.At(first + count)), first, count);
            var (leaves, after) := Leaves(p, ask, limit, used, first, count, depth);
            && (used >= limit || v.Settled? ==> |leaves| == 1)
            && (used >= limit ==>
                  (Cells(p, leaves), after) == (LeafCells(p, Leaf(first, count, depth, NotCollected, [])), used))
            && (used < limit && v.Settled? ==>
                  (Cells(p, leaves), after) == (LeafCells(p, Leaf(first, count, depth, v.state, v.rows)), used + 1))
  {
    TellerIsSane(p, ask);
    var tell := TellerOf(p, ask);
    var v := Judge(p, ask(used, p.At(first), p.At(first + count)), first, count);
    assert tell(used, first, count) == v;
    OneLeaf(p, Leaf(first, count, depth, NotCollected, []));
    if v.Settled? {
      OneLeaf(p, Leaf(first, count, depth, v.state, v.rows));
    }
  }

  lemma TiledEntries(p: Plan, a: seq<Leaf>, b: seq<Leaf>, lo: nat, mid: nat)
    requires Tiles(a, lo, mid)
    ensures Entries(lo, Cells(p, a + b)) == Entries(lo, Cells(p, a)) + Entries(mid, Cells(p, b))
  {
    CellsOfTiles(p, a, lo, mid);
    CellsJoin(p, a, b);
    EntriesJoin(lo, Cells(p, a), Cells(p, b));
  }

  lemma DividedLeaves(p: Plan, ask: Provider, limit: nat, used: nat, first: nat, count: nat, depth: nat, before: map<nat, Outcome>)
    requires count > 1 && used < limit
    requires Judge(p, ask(used, p.At(first), p.At(first + count)), first, count).Split?
    ensures var left := Leaves(p, ask, limit, used + 1, first, count / 2, depth + 1);
            var right := Leaves(p, ask, limit, left.1, first + count / 2, count - count / 2, depth + 1);
            var whole := Leaves(p, ask, limit, used, first, count, depth);
            && |whole.0| == |left.0| + |right.0| && whole.1 == right.1
            && before + Entries(first, Cells(p, whole.0))
            == before + Entries(first, Cells(p, left.0)) + Entries(first + count / 2, Cells(p, right.0))
  {
    hide Bisect, Cells, Entries, Judge, Tiles, Sane;
    TellerIsSane(p, ask);
    var tell := TellerOf(p, ask);
    assert tell(used, first, count).Split?;
    BisectSplits(tell, limit, used, first, count, depth);
    var left := Bisect(tell, limit, used + 1, first, count / 2, depth + 1);
    var right := Bisect(tell, limit, left.1, first + count / 2, count - count / 2, depth + 1);
    BisectTiles(tell, limit, used + 1, first, count / 2, depth + 1);
    TiledEntries(p, left.0, right.0, first, first + count / 2);
    PutTogether(before, Entries(first, Cells(p, left.0)), Entries(first + count / 2, Cells(p, right.0)));
  }

  lemma PutTogether(m: map<nat, Outcome>, a: map<nat, Outcome>, b: map<nat, Outcome>)
    ensures m + (a + b) == m + a + b
  {
  }

  /** The outcomes of a window in bucket order, and how often it was divided. */
  method RunSearch(ask: Provider, start: int, end: int, width: int, maxRows: nat, budget: SearchBudget)
    returns (r: Result<(seq<Outcome>, nat), WindowError>)
    modifies budget
    ensures r.Err? <==> ValidateWindow(start, end, width).Err?
    ensures r.Err? ==> r.error == ValidateWindow(start, end, width).error && budget.used == old(budget.used)
    ensures r.Ok? ==> width > 0 && (end - start) / width >= 1
    ensures r.Ok? ==>
              var p := Plan(start, width, maxRows);
              var (leaves, after) := Leaves(p, ask, budget.maxSearches, old(budget.used), 0, (end - start) / width, 0);
              r.value == (Cells(p, leaves), |leaves| - 1) && budget.used == after
    ensures old(budget.used) <= budget.maxSearches ==> budget.used <= budget.maxSearches
  {
    var window := ValidateWindow(start, end, width);
    if window.Err? {
      return Err(window.error);
    }
    var bucketCount := (end - start) / width;
    WholeBuckets(end - start, width);
    var run := new Run(Plan(start, width, maxRows), ask, budget);
    run.Search(0, bucketCount, 0);
    ghost var leaves := Leaves(run.plan, ask, budget.maxSearches, old(budget.used), 0, bucketCount, 0).0;
    ghost var cells := Cells(run.plan, leaves);
    OneCellPerBucket(run.plan, ask, budget.maxSearches, old(budget.used), bucketCount);
    LeavesKeepBudget(run.plan, ask, budget.maxSearches, old(budget.used), bucketCount);
    assert map[] + Entries(0, cells) == Entries(0, cells);
    var outcomes := InOrder(run.buckets, bucketCount, cells);
    r := Ok((outcomes, run.splits));
  }

  datatype SearchError = BadWindow(error: WindowError) | NoDeviceTypes

  /** What a query asked besides its window: the device types and the width of a bucket in milliseconds. */
  datatype Query = Query(deviceTypes: seq<int>, bucketMs: int)

  /** A bucket's outcome with the query that decided it, if one was sent. */
  datatype CatchallOutcome = CatchallOutcome(found: Outcome, query: Option<Query>)

  function AtMost(x: int, y: int): bool { x <= y }

  /** The device types asked for: each once, in ascending order. */
  function Types(ids: seq<int>): seq<int> { Sort(Distinct(ids), AtMost) }

  lemma TypesAreListed(ids: seq<int>)
    ensures var types := Types(ids);
            (forall i, j :: 0 <= i < j < |types| ==> types[i] < types[j]) && forall x :: x in types <==> x in ids
  {
    var (ds, types) := (Distinct(ids), Types(ids));
    SortSorts(ds, AtMost);
    SortPermutes(ds, AtMost);
    PermutedHasNoRepeats(ds, types);
    hide Sort, Distinct;
    forall x ensures x in types <==> x in ids {
      assert x in multiset(types) <==> x in multiset(ds);
    }
    assert forall i, j :: 0 <= i < j < |types| ==> AtMost(types[i], types[j]) && types[i] != types[j];
  }

  /** The query depends on which device types there are, not on how they are listed. */
  lemma TypesForgetListing(a: seq<int>, b: seq<int>)
    requires forall x :: x in a <==> x in b
    ensures Types(a) == Types(b)
  {
    var (ds, es) := (Distinct(a), Distinct(b));
    hide Sort, Distinct;
    forall x: int ensures multiset(ds)[x] == multiset(es)[x] {
      OnceEach(ds, x);
      OnceEach(es, x);
    }
    SortForgetsOrder(ds, es, AtMost);
  }

  function Asked(cells: seq<Outcome>, q: Query): seq<CatchallOutcome> {
    seq(|cells|, (i: nat) requires i < |cells| => CatchallOutcome(cells[i], if cells[i].provenance.Some? then Some(q) else None))
  }

  /** The catch-all search: the same, for device types of which there must be one; the window is looked
      at first. */
  method RunCatchallSearch(ask: seq<int> -> Provider, deviceTypes: seq<int>, start: int, end: int, width: int,
                           maxRows: nat, budget: SearchBudget)
    returns (r: Result<seq<CatchallOutcome>, SearchError>)
    modifies budget
    ensures r.Err? ==> budget.used == old(budget.used)
    ensures ValidateWindow(start, end, width).Err? ==> r == Err(BadWindow(ValidateWindow(start, end, width).error))
    ensures ValidateWindow(start, end, width).Ok? && deviceTypes == [] ==> r == Err(NoDeviceTypes)
    ensures ValidateWindow(start, end, width).Ok? && deviceTypes != [] ==>
              && width > 0 && (end - start) / width >= 1
              && var p := Plan(start, width, maxRows);
                 var types := Types(deviceTypes);
                 var (leaves, after) := Leaves(p, ask(types), budget.maxSearches, old(budget.used), 0, (end - start) / width, 0);
                 r == Ok(Asked(Cells(p, leaves), Query(types, width * 1000))) && budget.used == after
  {
    hide Leaves, Cells;
    var window := ValidateWindow(start, end, width);
    if window.Err? {
      return Err(BadWindow(window.error));
    }
    if deviceTypes == [] {
      return Err(NoDeviceTypes);
    }
    var types := Types(deviceTypes);
    var found := RunSearch(ask(types), start, end, width, maxRows, budget);
    r := Ok(Asked(found.value.0, Query(types, width * 1000)));
  }

  /** The buckets in the order of their keys. */
  method InOrder(buckets: map<nat, Outcome>, count: nat, ghost cells: seq<Outcome>) returns (outcomes: seq<Outcome>)
    requires |cells| == count && buckets == Entries(0, cells)
    ensures outcomes == cells
  {
    outcomes := [];
    for i := 0 to count
      invariant outcomes == cells[..i]
    {
      EntryAt(0, cells, i);
      assert 0 + i == i;
      outcomes := outcomes + [buckets[i]];
    }
  }

  lemma LeavesKeepBudget(p: Plan, ask: Provider, limit: nat, used: nat, count: nat)
    requires count >= 1
    ensures var after := Leaves(p, ask, limit, used, 0, count, 0).1;
            used <= after <= used + 2 * count - 1 && (used <= limit ==> after <= limit)
  {
    TellerIsSane(p, ask);
    BudgetIsKept(TellerOf(p, ask), limit, used, 0, count, 0);
  }

  lemma OneCellPerBucket(p: Plan, ask: Provider, limit: nat, used: nat, count: nat)
    requires count >= 1
    ensures |Cells(p, Leaves(p, ask, limit, used, 0, count, 0).0)| == count
  {
    TellerIsSane(p, ask);
    BisectTiles(TellerOf(p, ask), limit, used, 0, count, 0);
    CellsOfTiles(p, Leaves(p, ask, limit, used, 0, count, 0).0, 0, count);
  }

  lemma WholeBuckets(seconds: int, width: int)
    requires width > 0 && seconds > 0 && seconds % width == 0
    ensures seconds / width >= 1
  {
  }

  // ---------------------------------------------------- what the list promises

  /** Buckets in order; unmeasured ones hold nothing, a lower bound was searched alone, and no search
      stands behind an uncollected one. */
  ghost predicate SoundOutcomes(p: Plan, cells: seq<Outcome>) {
    forall i :: 0 <= i < |cells| ==> cells[i].bucketStart == p.At(i) && SoundOutcome(cells[i])
  }

  ghost predicate SoundOutcome(o: Outcome) {
    && (!o.state.Measured() ==> o.rows == [])
    && (o.state.NotCollected? <==> o.provenance.None?)
    && (o.state.LowerBound? ==> o.provenance.Some? && o.provenance.value.bucketCount == 1)
  }

  lemma OutcomesAreSound(p: Plan, ask: Provider, limit: nat, used: nat, count: nat)
    requires count >= 1
    ensures SoundOutcomes(p, Cells(p, Leaves(p, ask, limit, used, 0, count, 0).0))
    ensures |Cells(p, Leaves(p, ask, limit, used, 0, count, 0).0)| == count
  {
    var leaves := Leaves(p, ask, limit, used, 0, count, 0).0;
    TellerIsSane(p, ask);
    BisectTiles(TellerOf(p, ask), limit, used, 0, count, 0);
    LeavesAreSound(TellerOf(p, ask), limit, used, 0, count, 0);
    CellsOfTiles(p, leaves, 0, count);
    hide Leaves, Cells;
    var cells := Cells(p, leaves);
    forall i | 0 <= i < |cells| ensures cells[i].bucketStart == p.At(i) && SoundOutcome(cells[i]) {
      var j := CellFrom(p, leaves, 0, count, i);
      assert SoundProperty()(leaves[j].first, leaves[j].count, leaves[j].state, leaves[j].rows);
    }
  }

  /** Against a provider that holds `truth`: each measured bucket of the list is what a search of
      that bucket alone would give. */
  lemma OutcomesAreExact(p: Plan, truth: seq<Row>, ask: Provider, limit: nat, used: nat, count: nat)
    requires count >= 1 && p.width > 0 && Honest(p, ask, truth)
    ensures var cells := Cells(p, Leaves(p, ask, limit, used, 0, count, 0).0);
            |cells| == count && forall i :: 0 <= i < count && cells[i].state.Measured() ==>
              (cells[i].state, cells[i].rows) == Alone(p, truth, i)
  {
    var leaves := Leaves(p, ask, limit, used, 0, count, 0).0;
    TellerIsSane(p, ask);
    BisectTiles(TellerOf(p, ask), limit, used, 0, count, 0);
    MeasuredIsExact(p, truth, ask, limit, used, 0, count, 0);
    CellsOfTiles(p, leaves, 0, count);
    hide Leaves, Cells;
    var cells := Cells(p, leaves);
    forall i | 0 <= i < count && cells[i].state.Measured()
      ensures (cells[i].state, cells[i].rows) == Alone(p, truth, i)
    {
      var j := CellFrom(p, leaves, 0, count, i);
      assert ExactProperty(p, truth)(leaves[j].first, leaves[j].count, leaves[j].state, leaves[j].rows);
      assert ExactBucket(p, truth, i, leaves[j].state, leaves[j].rows);
    }
  }

  /** With 2n - 1 searches and a provider that never fails or rejects, the bisection gives exactly
      the list that n searches of one bucket each would give. */
  lemma EnoughBudgetEqualsOneByOne(p: Plan, truth: seq<Row>, limit: nat, used: nat, count: nat)
    requires count >= 1 && p.width > 0 && used + 2 * count - 1 <= limit
    ensures var cells := Cells(p, Leaves(p, Truthful(p, truth), limit, used, 0, count, 0).0);
            |cells| == count && forall i :: 0 <= i < count ==>
              cells[i].state.Measured() && (cells[i].state, cells[i].rows) == Alone(p, truth, i)
  {
    var ask := Truthful(p, truth);
    var leaves := Leaves(p, ask, limit, used, 0, count, 0).0;
    OutcomesAreExact(p, truth, ask, limit, used, count);
    TellerIsSane(p, ask);
    BisectTiles(TellerOf(p, ask), limit, used, 0, count, 0);
    TruthfulMeasures(p, truth);
    LeavesInherit(TellerOf(p, ask), MeasuredOrUncollected(), limit, used, 0, count, 0);
    EnoughBudget(TellerOf(p, ask), limit, used, 0, count, 0);
    CellsOfTiles(p, leaves, 0, count);
    hide Leaves, Cells;
    var cells := Cells(p, leaves);
    forall i | 0 <= i < count ensures cells[i].state.Measured() {
      var j := CellFrom(p, leaves, 0, count, i);
      assert MeasuredOrUncollected()(leaves[j].first, leaves[j].count, leaves[j].state, leaves[j].rows);
    }
  }

  /** With an answering provider and floor(log2 n) + 1 searches left the oldest bucket is measured. */
  lemma OldestOutcomeIsMeasured(p: Plan, ask: Provider, limit: nat, used: nat, count: nat)
    requires count >= 1 && Answers(TellerOf(p, ask)) && used + Log2(count) + 1 <= limit
    ensures var cells := Cells(p, Leaves(p, ask, limit, used, 0, count, 0).0); |cells| == count && cells[0].state.Measured()
  {
    var leaves := Leaves(p, ask, limit, used, 0, count, 0).0;
    TellerIsSane(p, ask);
    OldestIsMeasured(TellerOf(p, ask), limit, used, 0, count, 0);
    BisectTiles(TellerOf(p, ask), limit, used, 0, count, 0);
    CellsOfTiles(p, leaves, 0, count);
    hide Leaves;
    assert LeafCells(p, leaves[0])[0] == Cell(p, leaves[0], leaves[0].first + 0);
  }

  /** A provider that always answers, about `truth`. */
  function Truthful(p: Plan, truth: seq<Row>): Provider {
    (used: nat, lo: int, hi: int) => AnswerOf(p, truth, lo, hi)
  }

  function MeasuredOrUncollected(): LeafProperty {
    (first: nat, count: nat, state: CellState, rows: seq<Row>) => state.Measured() || state.NotCollected?
  }

  lemma TruthfulMeasures(p: Plan, truth: seq<Row>)
    ensures Tells(TellerOf(p, Truthful(p, truth)), MeasuredOrUncollected())
  {
    var tell := TellerOf(p, Truthful(p, truth));
    hide Judge, AnswerOf;
    forall u: nat, f: nat, c: nat ensures TellsAt(tell(u, f, c), f, c, MeasuredOrUncollected()) {
      assert tell(u, f, c) == Judge(p, AnswerOf(p, truth, p.At(f), p.At(f + c)), f, c);
      TruthIsMeasured(p, truth, f, c);
    }
  }

  lemma TruthIsMeasured(p: Plan, truth: seq<Row>, f: nat, c: nat)
    ensures TellsAt(Judge(p, AnswerOf(p, truth, p.At(f), p.At(f + c)), f, c), f, c, MeasuredOrUncollected())
  {
    WindowContained(truth, p.At(f), p.At(f + c));
    hide Window;
  }

  // ------------------------------------------------------ the split counters

  /** The catch-all report's `splits`: half the number of distinct windows that were searched
      below the first one. */
  function ReportedSplits(outcomes: seq<Outcome>): nat {
    |BelowFirst(outcomes)| / 2
  }

  function BelowFirst(outcomes: seq<Outcome>): set<(int, int)> {
    set o <- outcomes | o.provenance.Some? && o.provenance.value.splitDepth > 0 ::
      (o.provenance.value.windowStart, o.provenance.value.windowEnd)
  }

  ghost predicate AllBelow(leaves: seq<Leaf>, depth: nat) {
    forall i :: 0 <= i < |leaves| ==> leaves[i].depth > depth
  }

  lemma {:induction false} DividedLeavesAreBelow(tell: Teller, limit: nat, used: nat, first: nat, count: nat, depth: nat)
    requires count >= 1 && Sane(tell)
    ensures var leaves := Bisect(tell, limit, used, first, count, depth).0;
            if used < limit && tell(used, first, count).Split? then |leaves| > 1 && AllBelow(leaves, depth)
            else |leaves| == 1 && leaves[0].depth == depth
    decreases count
  {
    if used < limit && tell(used, first, count).Split? {
      BisectSplits(tell, limit, used, first, count, depth);
      var left := Bisect(tell, limit, used + 1, first, count / 2, depth + 1);
      DividedLeavesAreBelow(tell, limit, used + 1, first, count / 2, depth + 1);
      DividedLeavesAreBelow(tell, limit, left.1, first + count / 2, count - count / 2, depth + 1);
    } else {
      BisectSettles(tell, limit, used, first, count, depth);
    }
  }

  lemma CellsOfFirst(p: Plan, leaf: Leaf)
    requires leaf.count >= 1
    ensures BelowFirst(LeafCells(p, leaf)) == if leaf.state.NotCollected? || leaf.depth == 0 then {}
              else {(p.At(leaf.first), p.At(leaf.first + leaf.count))}
  {
    var cells := LeafCells(p, leaf);
    assert cells[0] in cells && cells[0] == Cell(p, leaf, leaf.first);
    forall o | o in cells ensures o.provenance == Provenances(p, leaf) {
      var i :| 0 <= i < |cells| && cells[i] == o;
      assert cells[i] == Cell(p, leaf, leaf.first + i);
    }
  }

  /** Searched leaves below the first window each contribute a window of their own. */
  lemma {:induction false} WindowsAreDistinct(p: Plan, leaves: seq<Leaf>, lo: nat, hi: nat)
    requires p.width > 0 && Tiles(leaves, lo, hi) && AllBelow(leaves, 0)
    ensures |BelowFirst(Cells(p, leaves))| == Searched(leaves)
    ensures forall w :: w in BelowFirst(Cells(p, leaves)) ==> p.At(lo) <= w.0
  {
    if |leaves| > 0 {
      var mid, rest := lo + leaves[0].count, Cells(p, leaves[1..]);
      WindowsAreDistinct(p, leaves[1..], mid, hi);
      CellsOfFirst(p, leaves[0]);
      AtGrows(p, lo, mid);
      assert BelowFirst(Cells(p, leaves)) == BelowFirst(LeafCells(p, leaves[0])) + BelowFirst(rest);
    }
  }

  /** The tick has three searches left, and both halves of the window answer without being divided. */
  ghost predicate HalvesSettle(tell: Teller, limit: nat, used: nat, count: nat) {
    && used + 3 <= limit && tell(used + 1, 0, count / 2).Settled?
    && tell(used + 2, count / 2, count - count / 2).Settled?
  }

  lemma SearchedOne(leaves: seq<Leaf>)
    requires |leaves| == 1
    ensures Searched(leaves) == if leaves[0].state.NotCollected? then 0 else 1
  {
    assert leaves[1..] == [];
  }

  lemma TwoSearchedLeaves(tell: Teller, limit: nat, used: nat, count: nat)
    requires count >= 1 && Sane(tell) && used < limit && tell(used, 0, count).Split?
    ensures var leaves := Bisect(tell, limit, used, 0, count, 0).0;
            |leaves| == 2 && Searched(leaves) == 2 <==> HalvesSettle(tell, limit, used, count)
  {
    hide Bisect, Sane;
    BisectSplits(tell, limit, used, 0, count, 0);
    var left := Bisect(tell, limit, used + 1, 0, count / 2, 1);
    var right := Bisect(tell, limit, left.1, count / 2, count - count / 2, 1);
    DividedLeavesAreBelow(tell, limit, used + 1, 0, count / 2, 1);
    DividedLeavesAreBelow(tell, limit, left.1, count / 2, count - count / 2, 1);
    SearchedJoin(left.0, right.0);
    SearchesAreAccounted(tell, limit, used + 1, 0, count / 2, 1);
    SearchesAreAccounted(tell, limit, left.1, count / 2, count - count / 2, 1);
    if |left.0| == 1 {
      BisectSettles(tell, limit, used + 1, 0, count / 2, 1);
      SearchedOne(left.0);
      if |right.0| == 1 {
        BisectSettles(tell, limit, left.1, count / 2, count - count / 2, 1);
        SearchedOne(right.0);
      }
    }
  }

  /** The two split counters agree exactly when the first search of the window is not divided, or is and
      three searches were left and neither half is. */
  lemma ReportedSplitsAgree(p: Plan, ask: Provider, limit: nat, used: nat, count: nat)
    requires count >= 1 && p.width > 0
    ensures var leaves, tell := Leaves(p, ask, limit, used, 0, count, 0).0, TellerOf(p, ask);
            ReportedSplits(Cells(p, leaves)) == |leaves| - 1 <==>
              used >= limit || tell(used, 0, count).Settled? || HalvesSettle(tell, limit, used, count)
  {
    var tell, leaves := TellerOf(p, ask), Leaves(p, ask, limit, used, 0, count, 0).0;
    TellerIsSane(p, ask);
    BisectTiles(tell, limit, used, 0, count, 0);
    DividedLeavesAreBelow(tell, limit, used, 0, count, 0);
    if used < limit && tell(used, 0, count).Split? {
      TwoSearchedLeaves(tell, limit, used, count);
    }
    hide Leaves, Bisect, TellerOf, HalvesSettle;
    assert Searched(leaves) <= |leaves|;
    if |leaves| == 1 {
      OneLeaf(p, leaves[0]);
      assert leaves == [leaves[0]];
      CellsOfFirst(p, leaves[0]);
    } else {
      WindowsAreDistinct(p, leaves, 0, count);
    }
  }

  /** Each bucket was searched alone in the end. */
  ghost predicate AllAlone(leaves: seq<Leaf>, sent: int, count: nat) {
    |leaves| == count && Searched(leaves) == count && sent == 2 * count - 1
  }

  lemma TruncatingTeller(p: Plan, used: nat, first: nat, count: nat)
    ensures Sane(TellerOf(p, AlwaysTruncates()))
    ensures TellerOf(p, AlwaysTruncates())(used, first, count) == if count > 1 then Split else Settled(LowerBound, [])
  {
    TellerIsSane(p, AlwaysTruncates());
    assert TellerOf(p, AlwaysTruncates())(used, first, count) == Judge(p, Answered([], true), first, count);
  }

  /** When every answer is truncated all that there is of 2n - 1 searches is spent. */
  lemma {:induction false} TruncationSpends(p: Plan, limit: nat, used: nat, first: nat, count: nat, depth: nat)
    requires count >= 1 && used <= limit
    ensures Leaves(p, AlwaysTruncates(), limit, used, first, count, depth).1 ==
            if limit <= used + 2 * count - 1 then limit else used + 2 * count - 1
    decreases count
  {
    var tell := TellerOf(p, AlwaysTruncates());
    TruncatingTeller(p, used, first, count);
    hide Bisect, Sane, TellerOf;
    if count > 1 && used < limit {
      BisectSplits(tell, limit, used, first, count, depth);
      TruncationSpends(p, limit, used + 1, first, count / 2, depth + 1);
      var mid := Bisect(tell, limit, used + 1, first, count / 2, depth + 1).1;
      TruncationSpends(p, limit, mid, first + count / 2, count - count / 2, depth + 1);
    } else {
      BisectSettles(tell, limit, used, first, count, depth);
    }
  }

  /** With fewer than floor(log2 n) + 1 searches the list may start with a bucket not collected. */
  lemma OldestIsLeftOut(p: Plan, limit: nat, used: nat, count: nat)
    requires count >= 1 && limit <= used + Log2(count)
    ensures var cells := Cells(p, Leaves(p, AlwaysTruncates(), limit, used, 0, count, 0).0);
            |cells| == count && cells[0].state.NotCollected?
  {
    var leaves := Leaves(p, AlwaysTruncates(), limit, used, 0, count, 0).0;
    var tell := TellerOf(p, AlwaysTruncates());
    TellerIsSane(p, AlwaysTruncates());
    BisectTiles(tell, limit, used, 0, count, 0);
    OldestNeedsLog2(p, limit, used, 0, count, 0);
    CellsOfTiles(p, leaves, 0, count);
    hide Leaves;
    assert LeafCells(p, leaves[0])[0] == Cell(p, leaves[0], leaves[0].first + 0);
  }

  lemma AloneJoin(a: seq<Leaf>, b: seq<Leaf>, sentA: int, sentB: int, n: nat, m: nat)
    requires AllAlone(a, sentA, n) && AllAlone(b, sentB, m)
    ensures AllAlone(a + b, 1 + sentA + sentB, n + m)
  {
    SearchedJoin(a, b);
  }

  lemma {:induction false} TruncationDividesAll(p: Plan, limit: nat, used: nat, first: nat, count: nat, depth: nat)
    requires count >= 1 && used + 2 * count - 1 <= limit
    ensures Sane(TellerOf(p, AlwaysTruncates()))
    ensures var r := Bisect(TellerOf(p, AlwaysTruncates()), limit, used, first, count, depth); AllAlone(r.0, r.1 - used, count)
    decreases count
  {
    var tell := TellerOf(p, AlwaysTruncates());
    TruncatingTeller(p, used, first, count);
    hide Bisect, Sane, TellerOf, AllAlone;
    if count > 1 {
      BisectSplits(tell, limit, used, first, count, depth);
      TruncationDividesAll(p, limit, used + 1, first, count / 2, depth + 1);
      var left := Bisect(tell, limit, used + 1, first, count / 2, depth + 1);
      assert left.1 == used + 2 * (count / 2) by { LeftSpends(left.0, left.1 - used - 1, count / 2); }
      TruncationDividesAll(p, limit, left.1, first + count / 2, count - count / 2, depth + 1);
      var right := Bisect(tell, limit, left.1, first + count / 2, count - count / 2, depth + 1);
      AloneJoin(left.0, right.0, left.1 - used - 1, right.1 - left.1, count / 2, count - count / 2);
    } else {
      BisectSettles(tell, limit, used, first, count, depth);
      OneAlone(Bisect(tell, limit, used, first, count, depth).0);
    }
  }

  lemma LeftSpends(leaves: seq<Leaf>, sent: int, count: nat)
    requires AllAlone(leaves, sent, count)
    ensures sent == 2 * count - 1
  {
  }

  lemma OneAlone(leaves: seq<Leaf>)
    requires |leaves| == 1 && !leaves[0].state.NotCollected?
    ensures AllAlone(leaves, 1, 1)
  {
    SearchedOne(leaves);
  }

  /** How far apart they can be: when every answer is truncated and the budget lasts, a window of n
      buckets is divided n - 1 times and n / 2 is reported; three buckets are enough to differ. */
  lemma TruncationHidesSplits(p: Plan, limit: nat, used: nat, count: nat)
    requires count >= 1 && p.width > 0 && used + 2 * count - 1 <= limit
    ensures var leaves := Leaves(p, AlwaysTruncates(), limit, used, 0, count, 0).0;
            |leaves| - 1 == count - 1 && ReportedSplits(Cells(p, leaves)) == count / 2
  {
    var tell, leaves := TellerOf(p, AlwaysTruncates()), Leaves(p, AlwaysTruncates(), limit, used, 0, count, 0).0;
    TruncationDividesAll(p, limit, used, 0, count, 0);
    BisectTiles(tell, limit, used, 0, count, 0);
    DividedLeavesAreBelow(tell, limit, used, 0, count, 0);
    hide Leaves, Bisect, TellerOf;
    if |leaves| == 1 {
      OneLeaf(p, leaves[0]);
      assert leaves == [leaves[0]];
      CellsOfFirst(p, leaves[0]);
      assert ReportedSplits(Cells(p, leaves)) <= 1 / 2;
    } else {
      WindowsAreDistinct(p, leaves, 0, count);
    }
  }
}
