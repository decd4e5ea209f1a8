/** The budgeted bisection search of the keyed collectors (backend/app/catchall/keyed_search.py and
    `run_geo_search` in backend/app/collectors/geo_collector.py): one search over whole buckets,
    halved by time, left half first, while the provider truncates its answer. */
module KeyedSearch {
  import opened Wrappers

  datatype CellState = Complete | LowerBound | Failed | Rejected | NotCollected {
    predicate Measured() { Complete? || LowerBound? }
  }

  /** One keyed row: the bucket it belongs to (seconds since the epoch), its key and its volume. */
  datatype Row = Row(bucketStart: int, key: Option<string>, events: nat)

  /** What the provider makes of one search: an answer, a failure or a rejection. */
  datatype Reply = Answered(rows: seq<Row>, truncated: bool) | SearchFailed | SearchRejected

  /** The provider: its reply to the n-th search of the tick over the window [lo, hi). */
  type Provider = (nat, int, int) -> Reply

  datatype Plan = Plan(start: int, width: int, maxRows: nat) {
    /** The start of bucket `index`: start + width * index. */
    function At(index: nat): int { if index == 0 then start else At(index - 1) + width }
  }

  /** A window that was not divided further: `count` buckets from `first`, decided together. */
  datatype Leaf = Leaf(first: nat, count: nat, depth: nat, state: CellState, rows: seq<Row>)

  datatype Provenance = Provenance(windowStart: int, windowEnd: int, bucketCount: nat, splitDepth: nat)

  datatype Outcome = Outcome(bucketStart: int, state: CellState, rows: seq<Row>, provenance: Option<Provenance>)

  // ------------------------------------------------------------- the window

  datatype WindowError = WidthNotPositive | EndNotAfterStart | TooLong | NotAligned

  const MAX_WINDOW_SECONDS := 168 * 3600

  function ValidateWindow(start: int, end: int, width: int): (r: Result<(int, int), WindowError>) {
    if width <= 0 then Err(WidthNotPositive)
    else if end - start <= 0 then Err(EndNotAfterStart)
    else if end - start > MAX_WINDOW_SECONDS then Err(TooLong)
    else if start % width != 0 || end % width != 0 || (end - start) % width != 0 then Err(NotAligned)
    else Ok((start, end))
  }

  lemma {:induction false} AtIsLinear(p: Plan, index: nat)
    ensures p.At(index) == p.start + p.width * index
  {
    if index > 0 {
      AtIsLinear(p, index - 1);
      assert p.width * index == p.width * (index - 1) + p.width;
    }
  }

  lemma {:induction false} AtGrows(p: Plan, i: nat, j: nat)
    requires p.width > 0 && i <= j
    ensures p.At(i) <= p.At(j) && (i < j ==> p.At(i) < p.At(j))
  {
    if i < j {
      AtGrows(p, i, j - 1);
    }
  }

  // --------------------------------------------------------------- the rows

  /** The rows of one bucket, in the order of the answer. */
  function RowsOf(rows: seq<Row>, bucketStart: int): seq<Row> {
    if |rows| == 0 then []
    else
      var last := rows[|rows| - 1];
      RowsOf(rows[..|rows| - 1], bucketStart) + if last.bucketStart == bucketStart then [last] else []
  }

  /** All rows lie in the window asked for, and there are no more than allowed. */
  predicate Contained(p: Plan, rows: seq<Row>, first: nat, count: nat) {
    |rows| <= p.maxRows &&
    forall i :: 0 <= i < |rows| ==> p.At(first) <= rows[i].bucketStart < p.At(first + count)
  }

  datatype Verdict = Settled(state: CellState, rows: seq<Row>) | Split

  function Judge(p: Plan, reply: Reply, first: nat, count: nat): Verdict {
    match reply
    case SearchRejected => Settled(Rejected, [])
    case SearchFailed => Settled(Failed, [])
    case Answered(rows, truncated) =>
      if !Contained(p, rows, first, count) then Settled(Failed, [])
      else if !truncated then Settled(Complete, rows)
      else if count > 1 then Split
      else Settled(LowerBound, rows)
  }

  /** What becomes of the n-th search of the tick, over buckets [first, first + count). */
  type Teller = (nat, nat, nat) -> Verdict

  function TellerOf(p: Plan, ask: Provider): Teller {
    (used: nat, first: nat, count: nat) => Judge(p, ask(used, p.At(first), p.At(first + count)), first, count)
  }

  ghost predicate Sane(tell: Teller) {
    forall used: nat, first: nat, count: nat :: SaneVerdict(tell(used, first, count), count)
  }

  ghost predicate SaneVerdict(v: Verdict, count: nat) {
    && (v.Split? ==> count > 1)
    && (v.Settled? ==> !v.state.NotCollected?)
    && (v.Settled? && v.state.LowerBound? ==> count <= 1)
    && (v.Settled? && !v.state.Measured() ==> v.rows == [])
  }

  lemma TellerIsSane(p: Plan, ask: Provider)
    ensures Sane(TellerOf(p, ask))
  {
    forall used: nat, first: nat, count: nat ensures SaneVerdict(TellerOf(p, ask)(used, first, count), count) {
      var v := Judge(p, ask(used, p.At(first), p.At(first + count)), first, count);
      assert TellerOf(p, ask)(used, first, count) == v;
      assert SaneVerdict(v, count);
    }
  }

  /** The leaves of the search over buckets [first, first + count) and the budget used after it. */
  function Bisect(tell: Teller, limit: nat, used: nat, first: nat, count: nat, depth: nat): (r: (seq<Leaf>, nat))
    requires count >= 1 && Sane(tell)
    decreases count
  {
    if used >= limit then ([Leaf(first, count, depth, NotCollected, [])], used)
    else
      var v := tell(used, first, count);
      assert SaneVerdict(v, count);
      match v
      case Settled(state, rows) => ([Leaf(first, count, depth, state, rows)], used + 1)
      case Split =>
        var left := Bisect(tell, limit, used + 1, first, count / 2, depth + 1);
        var right := Bisect(tell, limit, left.1, first + count / 2, count - count / 2, depth + 1);
        (left.0 + right.0, right.1)
  }

  // ------------------------------------------------- the shape of the search

  /** The leaves follow one another without gap or overlap from `lo` to `hi`. */
  predicate Tiles(leaves: seq<Leaf>, lo: nat, hi: nat) {
    if |leaves| == 0 then lo == hi
    else leaves[0].first == lo && leaves[0].count >= 1 && Tiles(leaves[1..], lo + leaves[0].count, hi)
  }

  lemma {:induction false} TilesJoin(a: seq<Leaf>, b: seq<Leaf>, lo: nat, mid: nat, hi: nat)
    requires Tiles(a, lo, mid) && Tiles(b, mid, hi)
    ensures Tiles(a + b, lo, hi)
  {
    if |a| == 0 {
      assert a + b == b;
    } else {
      assert (a + b)[1..] == a[1..] + b;
      TilesJoin(a[1..], b, lo + a[0].count, mid, hi);
    }
  }

  /** Every bucket of the window lies in exactly one leaf, in order. */
  lemma {:induction false} BisectTiles(tell: Teller, limit: nat, used: nat, first: nat, count: nat, depth: nat)
    requires count >= 1 && Sane(tell)
    ensures Tiles(Bisect(tell, limit, used, first, count, depth).0, first, first + count)
    decreases count
  {
    if used < limit && tell(used, first, count).Split? {
      var left := Bisect(tell, limit, used + 1, first, count / 2, depth + 1);
      var right := Bisect(tell, limit, left.1, first + count / 2, count - count / 2, depth + 1);
      BisectTiles(tell, limit, used + 1, first, count / 2, depth + 1);
      BisectTiles(tell, limit, left.1, first + count / 2, count - count / 2, depth + 1);
      TilesJoin(left.0, right.0, first, first + count / 2, first + count);
    } else {
      var leaf := Bisect(tell, limit, used, first, count, depth).0;
      assert leaf[1..] == [];
    }
  }

  /** A property of (first, count, state, rows). */
  type LeafProperty = (nat, nat, CellState, seq<Row>) -> bool

  ghost predicate Throughout(leaves: seq<Leaf>, good: LeafProperty) {
    forall i :: 0 <= i < |leaves| ==> good(leaves[i].first, leaves[i].count, leaves[i].state, leaves[i].rows)
  }

  ghost predicate Tells(tell: Teller, good: LeafProperty) {
    && (forall used: nat, first: nat, count: nat :: TellsAt(tell(used, first, count), first, count, good))
    && (forall first: nat, count: nat :: good(first, count, NotCollected, []))
  }

  ghost predicate TellsAt(v: Verdict, first: nat, count: nat, good: LeafProperty) {
    v.Settled? && count >= 1 ==> good(first, count, v.state, v.rows)
  }

  /** What holds of every single search holds of every leaf. */
  lemma {:induction false} LeavesInherit(tell: Teller, good: LeafProperty, limit: nat, used: nat, first: nat, count: nat, depth: nat)
    requires count >= 1 && Sane(tell) && Tells(tell, good)
    ensures Throughout(Bisect(tell, limit, used, first, count, depth).0, good)
    decreases count
  {
    assert TellsAt(tell(used, first, count), first, count, good);
    if used < limit && tell(used, first, count).Split? {
      var n := count / 2;
      var left := Bisect(tell, limit, used + 1, first, n, depth + 1);
      LeavesInherit(tell, good, limit, used + 1, first, n, depth + 1);
      LeavesInherit(tell, good, limit, left.1, first + n, count - n, depth + 1);
    }
  }

  /** A lower bound is always of a single bucket, and an unmeasured bucket holds no row. */
  function SoundProperty(): LeafProperty {
    (_, count: nat, state: CellState, rows: seq<Row>) =>
      (state.LowerBound? ==> count == 1) && (!state.Measured() ==> rows == [])
  }

  lemma LeavesAreSound(tell: Teller, limit: nat, used: nat, first: nat, count: nat, depth: nat)
    requires count >= 1 && Sane(tell)
    ensures Throughout(Bisect(tell, limit, used, first, count, depth).0, SoundProperty())
  {
    forall u: nat, f: nat, c: nat ensures TellsAt(tell(u, f, c), f, c, SoundProperty()) {
      assert SaneVerdict(tell(u, f, c), c);
    }
    LeavesInherit(tell, SoundProperty(), limit, used, first, count, depth);
  }

  /** How many leaves a search decided. */
  ghost function Searched(leaves: seq<Leaf>): (n: nat)
    ensures n <= |leaves|
  {
    if |leaves| == 0 then 0 else (if leaves[0].state.NotCollected? then 0 else 1) + Searched(leaves[1..])
  }

  lemma {:induction false} SearchedJoin(a: seq<Leaf>, b: seq<Leaf>)
    ensures Searched(a + b) == Searched(a) + Searched(b)
  {
    if |a| == 0 {
      assert a + b == b;
    } else {
      assert (a + b)[1..] == a[1..] + b;
      SearchedJoin(a[1..], b);
    }
  }

  lemma BisectSplits(tell: Teller, limit: nat, used: nat, first: nat, count: nat, depth: nat)
    requires count >= 1 && Sane(tell) && used < limit && tell(used, first, count).Split?
    ensures count > 1
    ensures var left := Bisect(tell, limit, used + 1, first, count / 2, depth + 1);
            var right := Bisect(tell, limit, left.1, first + count / 2, count - count / 2, depth + 1);
            Bisect(tell, limit, used, first, count, depth) == (left.0 + right.0, right.1)
  {
    assert SaneVerdict(tell(used, first, count), count);
  }

  lemma BisectSettles(tell: Teller, limit: nat, used: nat, first: nat, count: nat, depth: nat)
    requires count >= 1 && Sane(tell) && (used >= limit || tell(used, first, count).Settled?)
    ensures var r := Bisect(tell, limit, used, first, count, depth);
            && |r.0| == 1 && (r.0[0].state.NotCollected? <==> used >= limit)
            && r.1 == if used >= limit then used else used + 1
  {
    assert SaneVerdict(tell(used, first, count), count);
  }

  /** At most 2n - 1 searches are sent, and never more than the budget allows. */
  lemma {:induction false} BudgetIsKept(tell: Teller, limit: nat, used: nat, first: nat, count: nat, depth: nat)
    requires count >= 1 && Sane(tell)
    ensures var after := Bisect(tell, limit, used, first, count, depth).1;
            used <= after <= used + 2 * count - 1 && (used <= limit ==> after <= limit)
    decreases count
  {
    hide Bisect, Sane;
    if used < limit && tell(used, first, count).Split? {
      BisectSplits(tell, limit, used, first, count, depth);
      BudgetIsKept(tell, limit, used + 1, first, count / 2, depth + 1);
      var mid := Bisect(tell, limit, used + 1, first, count / 2, depth + 1).1;
      BudgetIsKept(tell, limit, mid, first + count / 2, count - count / 2, depth + 1);
    } else {
      BisectSettles(tell, limit, used, first, count, depth);
    }
  }

  /** The searches sent are the divisions (one fewer than the leaves) plus the leaves searched. */
  ghost predicate Accounted(leaves: seq<Leaf>, sent: int, count: nat) {
    1 <= |leaves| <= count && sent == |leaves| - 1 + Searched(leaves)
  }

  lemma AccountedJoin(a: seq<Leaf>, b: seq<Leaf>, sentA: int, sentB: int, n: nat, m: nat)
    requires Accounted(a, sentA, n) && Accounted(b, sentB, m)
    ensures Accounted(a + b, 1 + sentA + sentB, n + m)
  {
    SearchedJoin(a, b);
  }

  lemma {:induction false} SearchesAreAccounted(tell: Teller, limit: nat, used: nat, first: nat, count: nat, depth: nat)
    requires count >= 1 && Sane(tell)
    ensures Accounted(Bisect(tell, limit, used, first, count, depth).0, Bisect(tell, limit, used, first, count, depth).1 - used, count)
    decreases count
  {
    hide Bisect, Sane;
    if used < limit && tell(used, first, count).Split? {
      BisectSplits(tell, limit, used, first, count, depth);
      var left := Bisect(tell, limit, used + 1, first, count / 2, depth + 1);
      var right := Bisect(tell, limit, left.1, first + count / 2, count - count / 2, depth + 1);
      SearchesAreAccounted(tell, limit, used + 1, first, count / 2, depth + 1);
      SearchesAreAccounted(tell, limit, left.1, first + count / 2, count - count / 2, depth + 1);
      AccountedJoin(left.0, right.0, left.1 - used - 1, right.1 - left.1, count / 2, count - count / 2);
    } else {
      BisectSettles(tell, limit, used, first, count, depth);
      assert Bisect(tell, limit, used, first, count, depth).0[1..] == [];
    }
  }

  ghost predicate UncollectedLast(leaves: seq<Leaf>) {
    forall i, j :: 0 <= i < j < |leaves| && leaves[i].state.NotCollected? ==> leaves[j].state.NotCollected?
  }

  ghost predicate AllCollected(leaves: seq<Leaf>) {
    forall i :: 0 <= i < |leaves| ==> !leaves[i].state.NotCollected?
  }

  lemma SuffixJoin(a: seq<Leaf>, b: seq<Leaf>)
    requires UncollectedLast(a) && UncollectedLast(b)
    requires AllCollected(a) || (|b| == 1 && b[0].state.NotCollected?)
    ensures UncollectedLast(a + b)
    ensures AllCollected(a) && AllCollected(b) ==> AllCollected(a + b)
  {
  }

  /** What was not collected comes last, and only once the budget is spent. */
  lemma {:induction false} UncollectedIsSuffix(tell: Teller, limit: nat, used: nat, first: nat, count: nat, depth: nat)
    requires count >= 1 && Sane(tell)
    ensures UncollectedLast(Bisect(tell, limit, used, first, count, depth).0)
    ensures Bisect(tell, limit, used, first, count, depth).1 < limit ==>
              AllCollected(Bisect(tell, limit, used, first, count, depth).0)
    decreases count
  {
    hide Bisect, Sane;
    if used < limit && tell(used, first, count).Split? {
      BisectSplits(tell, limit, used, first, count, depth);
      var left := Bisect(tell, limit, used + 1, first, count / 2, depth + 1);
      var right := Bisect(tell, limit, left.1, first + count / 2, count - count / 2, depth + 1);
      UncollectedIsSuffix(tell, limit, used + 1, first, count / 2, depth + 1);
      UncollectedIsSuffix(tell, limit, left.1, first + count / 2, count - count / 2, depth + 1);
      BudgetIsKept(tell, limit, left.1, first + count / 2, count - count / 2, depth + 1);
      if left.1 >= limit {
        BisectSettles(tell, limit, left.1, first + count / 2, count - count / 2, depth + 1);
      }
      SuffixJoin(left.0, right.0);
    } else {
      BisectSettles(tell, limit, used, first, count, depth);
    }
  }

  /** With 2n - 1 searches in hand nothing is left uncollected. */
  lemma {:induction false} EnoughBudget(tell: Teller, limit: nat, used: nat, first: nat, count: nat, depth: nat)
    requires count >= 1 && Sane(tell) && used + 2 * count - 1 <= limit
    ensures forall i :: 0 <= i < |Bisect(tell, limit, used, first, count, depth).0| ==>
              !Bisect(tell, limit, used, first, count, depth).0[i].state.NotCollected?
    decreases count
  {
    if tell(used, first, count).Split? {
      var left := Bisect(tell, limit, used + 1, first, count / 2, depth + 1);
      BudgetIsKept(tell, limit, used + 1, first, count / 2, depth + 1);
      EnoughBudget(tell, limit, used + 1, first, count / 2, depth + 1);
      EnoughBudget(tell, limit, left.1, first + count / 2, count - count / 2, depth + 1);
    }
  }

  // ---------------------------------------------------------------- progress

  function Log2(n: nat): nat {
    if n <= 1 then 0 else 1 + Log2(n / 2)
  }

  /** The provider never fails, never rejects and answers about the window asked. */
  ghost predicate Answers(tell: Teller) {
    forall used: nat, first: nat, count: nat :: AnswerIsUsable(tell(used, first, count))
  }

  predicate AnswerIsUsable(v: Verdict) { v.Split? || v.state.Measured() }

  /** floor(log2 n) + 1 searches measure at least the oldest bucket. */
  lemma {:induction false} OldestIsMeasured(tell: Teller, limit: nat, used: nat, first: nat, count: nat, depth: nat)
    requires count >= 1 && Sane(tell) && Answers(tell) && used + Log2(count) + 1 <= limit
    ensures var leaves := Bisect(tell, limit, used, first, count, depth).0;
            leaves != [] && leaves[0].state.Measured()
    decreases count
  {
    assert AnswerIsUsable(tell(used, first, count)) && SaneVerdict(tell(used, first, count), count);
    if tell(used, first, count).Split? {
      OldestIsMeasured(tell, limit, used + 1, first, count / 2, depth + 1);
    }
  }

  /** A provider that truncates every answer. */
  function AlwaysTruncates(): Provider { (_, _, _) => Answered([], true) }

  /** Fewer do not: when every answer is truncated, the oldest bucket is left out. */
  lemma {:induction false} OldestNeedsLog2(p: Plan, limit: nat, used: nat, first: nat, count: nat, depth: nat)
    requires count >= 1 && limit <= used + Log2(count)
    ensures Sane(TellerOf(p, AlwaysTruncates()))
    ensures var leaves := Bisect(TellerOf(p, AlwaysTruncates()), limit, used, first, count, depth).0;
            leaves != [] && leaves[0].state.NotCollected?
    decreases count
  {
    TellerIsSane(p, AlwaysTruncates());
    assert TellerOf(p, AlwaysTruncates())(used, first, count) ==
      Judge(p, Answered([], true), first, count) == if count > 1 then Split else Settled(LowerBound, []);
    if count > 1 && used < limit {
      OldestNeedsLog2(p, limit, used + 1, first, count / 2, depth + 1);
    }
  }

  // -------------------------------------------------------------- refinement

  /** The rows in the window [lo, hi), in order. */
  function Window(rows: seq<Row>, lo: int, hi: int): seq<Row> {
    if |rows| == 0 then []
    else
      var last := rows[|rows| - 1];
      Window(rows[..|rows| - 1], lo, hi) + if lo <= last.bucketStart < hi then [last] else []
  }

  /** The answer of a provider that holds `truth`: at most `maxRows` rows, and whether some are missing. */
  function AnswerOf(p: Plan, truth: seq<Row>, lo: int, hi: int): Reply {
    var rows := Window(truth, lo, hi);
    if |rows| > p.maxRows then Answered(rows[..p.maxRows], true) else Answered(rows, false)
  }

  /** The provider may fail or reject, but what it answers is about `truth`. */
  ghost predicate Honest(p: Plan, ask: Provider, truth: seq<Row>) {
    forall used: nat, lo: int, hi: int ::
      ask(used, lo, hi).Answered? ==> ask(used, lo, hi) == AnswerOf(p, truth, lo, hi)
  }

  /** What a search of bucket `index` alone would leave. */
  function Alone(p: Plan, truth: seq<Row>, index: nat): (CellState, seq<Row>) {
    var reply := AnswerOf(p, truth, p.At(index), p.At(index + 1));
    (if reply.truncated then LowerBound else Complete, RowsOf(reply.rows, p.At(index)))
  }

  lemma {:induction false} WindowContained(rows: seq<Row>, lo: int, hi: int)
    ensures |Window(rows, lo, hi)| <= |rows|
    ensures forall i :: 0 <= i < |Window(rows, lo, hi)| ==> lo <= Window(rows, lo, hi)[i].bucketStart < hi
  {
    if |rows| > 0 {
      WindowContained(rows[..|rows| - 1], lo, hi);
    }
  }

  /** A bucket keeps its rows whatever larger window they were searched in. */
  lemma {:induction false} WindowKeepsBucket(rows: seq<Row>, lo: int, hi: int, bucketStart: int)
    requires lo <= bucketStart < hi
    ensures RowsOf(Window(rows, lo, hi), bucketStart) == RowsOf(rows, bucketStart)
  {
    if |rows| > 0 {
      var last := rows[|rows| - 1];
      var before := Window(rows[..|rows| - 1], lo, hi);
      WindowKeepsBucket(rows[..|rows| - 1], lo, hi, bucketStart);
      if lo <= last.bucketStart < hi {
        assert (before + [last])[..|before|] == before;
      } else {
        assert Window(rows, lo, hi) == before;
      }
    }
  }

  lemma {:induction false} SmallerWindow(rows: seq<Row>, lo: int, hi: int, lo': int, hi': int)
    requires lo <= lo' && hi' <= hi
    ensures |Window(rows, lo', hi')| <= |Window(rows, lo, hi)|
  {
    if |rows| > 0 {
      SmallerWindow(rows[..|rows| - 1], lo, hi, lo', hi');
    }
  }

  /** The bucket has the state and the rows of a search of that bucket alone. */
  ghost predicate ExactBucket(p: Plan, truth: seq<Row>, index: nat, state: CellState, rows: seq<Row>) {
    (state, RowsOf(rows, p.At(index))) == Alone(p, truth, index)
  }

  ghost predicate ExactRange(p: Plan, truth: seq<Row>, first: nat, count: nat, state: CellState, rows: seq<Row>) {
    forall index: nat :: first <= index < first + count ==> ExactBucket(p, truth, index, state, rows)
  }

  ghost function ExactProperty(p: Plan, truth: seq<Row>): LeafProperty {
    (first: nat, count: nat, state: CellState, rows: seq<Row>) =>
      state.Measured() ==> ExactRange(p, truth, first, count, state, rows)
  }

  lemma CompleteBucketIsExact(p: Plan, truth: seq<Row>, first: nat, count: nat, index: nat)
    requires p.width > 0 && first <= index < first + count
    requires |Window(truth, p.At(first), p.At(first + count))| <= p.maxRows
    ensures ExactBucket(p, truth, index, Complete, Window(truth, p.At(first), p.At(first + count)))
  {
    var lo, hi, at, next := p.At(first), p.At(first + count), p.At(index), p.At(index + 1);
    AtGrows(p, first, index);
    AtGrows(p, index + 1, first + count);
    AtGrows(p, index, index + 1);
    SmallerWindow(truth, lo, hi, at, next);
    WindowKeepsBucket(truth, lo, hi, at);
    WindowKeepsBucket(truth, at, next, at);
  }

  lemma CompleteIsExact(p: Plan, truth: seq<Row>, first: nat, count: nat)
    requires p.width > 0 && |Window(truth, p.At(first), p.At(first + count))| <= p.maxRows
    ensures ExactRange(p, truth, first, count, Complete, Window(truth, p.At(first), p.At(first + count)))
  {
    var rows := Window(truth, p.At(first), p.At(first + count));
    forall index: nat | first <= index < first + count ensures ExactBucket(p, truth, index, Complete, rows) {
      CompleteBucketIsExact(p, truth, first, count, index);
    }
  }

  lemma LowerBoundIsExact(p: Plan, truth: seq<Row>, first: nat, rows: seq<Row>)
    requires AnswerOf(p, truth, p.At(first), p.At(first + 1)) == Answered(rows, true)
    ensures ExactRange(p, truth, first, 1, LowerBound, rows)
  {
    assert ExactBucket(p, truth, first, LowerBound, rows);
  }

  lemma SettledIsExact(p: Plan, truth: seq<Row>, reply: Reply, first: nat, count: nat)
    requires count >= 1 && p.width > 0 && Judge(p, reply, first, count).Settled?
    requires reply.Answered? ==> reply == AnswerOf(p, truth, p.At(first), p.At(first + count))
    ensures var v := Judge(p, reply, first, count); v.state.Measured() ==> ExactRange(p, truth, first, count, v.state, v.rows)
  {
    var v := Judge(p, reply, first, count);
    if v.state.Complete? {
      CompleteIsExact(p, truth, first, count);
    } else if v.state.LowerBound? {
      LowerBoundIsExact(p, truth, first, v.rows);
    }
  }

  /** The bisection refines the bucket-by-bucket search: whatever the provider fails, rejects or
      truncates, a measured bucket is exactly as a search of that bucket alone would leave it. */
  lemma MeasuredIsExact(p: Plan, truth: seq<Row>, ask: Provider, limit: nat, used: nat, first: nat, count: nat, depth: nat)
    requires count >= 1 && p.width > 0 && Honest(p, ask, truth)
    ensures Sane(TellerOf(p, ask))
    ensures Throughout(Bisect(TellerOf(p, ask), limit, used, first, count, depth).0, ExactProperty(p, truth))
  {
    TellerIsSane(p, ask);
    HonestTellsExactly(p, truth, ask);
    LeavesInherit(TellerOf(p, ask), ExactProperty(p, truth), limit, used, first, count, depth);
  }

  lemma HonestTellsExactly(p: Plan, truth: seq<Row>, ask: Provider)
    requires p.width > 0 && Honest(p, ask, truth)
    ensures Tells(TellerOf(p, ask), ExactProperty(p, truth))
  {
    var tell, good := TellerOf(p, ask), ExactProperty(p, truth);
    forall u: nat, f: nat, c: nat ensures TellsAt(tell(u, f, c), f, c, good) {
      if c >= 1 && tell(u, f, c).Settled? {
        SettledIsExact(p, truth, ask(u, p.At(f), p.At(f + c)), f, c);
      }
    }
  }

  // ------------------------------------------------------------ the outcomes

  function Provenances(p: Plan, leaf: Leaf): Option<Provenance> {
    if leaf.state.NotCollected? then None
    else Some(Provenance(p.At(leaf.first), p.At(leaf.first + leaf.count), leaf.count, leaf.depth))
  }

  /** Bucket `index` of a leaf. */
  function Cell(p: Plan, leaf: Leaf, index: nat): Outcome {
    Outcome(p.At(index), leaf.state, RowsOf(leaf.rows, p.At(index)), Provenances(p, leaf))
  }

  function LeafCells(p: Plan, leaf: Leaf): (cells: seq<Outcome>)
    ensures |cells| == leaf.count
  {
    seq(leaf.count, i requires 0 <= i < leaf.count => Cell(p, leaf, leaf.first + i))
  }

  /** One outcome per bucket, oldest first. */
  function Cells(p: Plan, leaves: seq<Leaf>): seq<Outcome> {
    if |leaves| == 0 then [] else LeafCells(p, leaves[0]) + Cells(p, leaves[1..])
  }

  lemma {:induction false} CellsJoin(p: Plan, a: seq<Leaf>, b: seq<Leaf>)
    ensures Cells(p, a + b) == Cells(p, a) + Cells(p, b)
  {
    if |a| == 0 {
      assert a + b == b;
    } else {
      assert (a + b)[1..] == a[1..] + b;
      CellsJoin(p, a[1..], b);
    }
  }

  /** One outcome per bucket. */
  lemma {:induction false} CellsOfTiles(p: Plan, leaves: seq<Leaf>, lo: nat, hi: nat)
    requires Tiles(leaves, lo, hi)
    ensures lo <= hi && |Cells(p, leaves)| == hi - lo
  {
    if |leaves| > 0 {
      CellsOfTiles(p, leaves[1..], lo + leaves[0].count, hi);
    }
  }

  /** Each outcome comes from the leaf that covers its bucket. */
  lemma {:induction false} CellFrom(p: Plan, leaves: seq<Leaf>, lo: nat, hi: nat, index: nat) returns (j: nat)
    requires Tiles(leaves, lo, hi) && lo <= index < hi && |Cells(p, leaves)| == hi - lo
    ensures j < |leaves| && leaves[j].first <= index < leaves[j].first + leaves[j].count
    ensures Cells(p, leaves)[index - lo] == Cell(p, leaves[j], index)
  {
    if index < lo + leaves[0].count {
      j := 0;
      var k: nat := index - lo;
      assert LeafCells(p, leaves[0])[k] == Cell(p, leaves[0], leaves[0].first + k);
      assert leaves[0].first + k == index && Cells(p, leaves)[k] == LeafCells(p, leaves[0])[k];
    } else {
      CellsOfTiles(p, leaves[1..], lo + leaves[0].count, hi);
      j := CellFrom(p, leaves[1..], lo + leaves[0].count, hi, index);
      j := j + 1;
    }
  }
}
