/** One catch-all source's bucket folded from its sender rows (backend/app/catchall/fold.py, with the
    admission rule of backend/app/waf/admission.py): senders already tracked are kept, new ones are
    admitted by rank up to a quota, and everything refused is still counted. */
module SenderFold {
  import opened Sorting
  import opened Tally
  import opened Wrappers

  datatype Row = Row(sender: Option<string>, events: nat, records: nat)

  datatype Policy = Policy(minRequests: int, maxNewPerBucket: int, maxActive: int)

  /** Which characters count as white space and which are printable. */
  datatype Alphabet = Alphabet(space: char -> bool, printable: char -> bool)

  const IDENTIFIER_MAX := 255

  // ------------------------------------------------------------ sender names

  function StripLeft(s: string, a: Alphabet): (r: string)
    ensures |r| <= |s| && r == s[|s| - |r|..] && (r != "" ==> !a.space(r[0]))
  {
    if s != "" && a.space(s[0]) then StripLeft(s[1..], a) else s
  }

  function StripRight(s: string, a: Alphabet): (r: string)
    ensures r <= s && (r != "" ==> !a.space(r[|r| - 1]))
  {
    if s != "" && a.space(s[|s| - 1]) then StripRight(s[..|s| - 1], a) else s
  }

  function Strip(s: string, a: Alphabet): string { StripRight(StripLeft(s, a), a) }

  /** The name a raw sender is kept under, if it can be kept at all. */
  function Sanitize(raw: Option<string>, a: Alphabet): Option<string> {
    if raw.None? then None
    else
      var value := Strip(raw.value, a);
      if value == "" || |value| > IDENTIFIER_MAX || !(forall c :: c in value ==> a.printable(c)) then None else Some(value)
  }

  lemma StripTrims(s: string, a: Alphabet)
    ensures Strip(s, a) != "" ==> !a.space(Strip(s, a)[0]) && !a.space(Strip(s, a)[|Strip(s, a)| - 1])
    ensures s != "" && !a.space(s[0]) && !a.space(s[|s| - 1]) ==> Strip(s, a) == s
  {
    var left := StripLeft(s, a);
    var v := StripRight(left, a);
    assert v != "" ==> v[0] == left[0];
  }

  /** A stored sender is short, printable and not padded, and it is its own stored form. */
  lemma SanitizedIsStable(raw: Option<string>, a: Alphabet)
    requires Sanitize(raw, a).Some?
    ensures var v := Sanitize(raw, a).value;
            && 1 <= |v| <= IDENTIFIER_MAX && (forall c :: c in v ==> a.printable(c))
            && !a.space(v[0]) && !a.space(v[|v| - 1])
            && Sanitize(Some(v), a) == Some(v)
  {
    hide Strip;
    StripTrims(raw.value, a);
    StripTrims(Strip(raw.value, a), a);
  }

  // ------------------------------------------------------------- the parts

  function Where(s: seq<Entry>, p: Entry -> bool): seq<Entry> {
    if |s| == 0 then [] else (if p(s[0]) then [s[0]] else []) + Where(s[1..], p)
  }

  lemma {:induction false} WhereSplits(s: seq<Entry>, p: Entry -> bool, q: Entry -> bool, f: Entry -> int)
    requires forall x :: x in s ==> q(x) == !p(x)
    ensures Sum(s, f) == Sum(Where(s, p), f) + Sum(Where(s, q), f)
    ensures |s| == |Where(s, p)| + |Where(s, q)|
  {
    if |s| > 0 {
      WhereSplits(s[1..], p, q, f);
      assert s[0] in s;
      if p(s[0]) {
        assert Where(s, p)[1..] == Where(s[1..], p) && Where(s, q) == Where(s[1..], q);
      } else {
        assert Where(s, q)[1..] == Where(s[1..], q) && Where(s, p) == Where(s[1..], p);
      }
    }
  }

  lemma {:induction false} WhereCounts(s: seq<Entry>, p: Entry -> bool, x: Entry)
    ensures multiset(Where(s, p))[x] == if p(x) then multiset(s)[x] else 0
  {
    if |s| > 0 {
      WhereCounts(s[1..], p, x);
      assert s == [s[0]] + s[1..];
    }
  }

  lemma WhereHolds(s: seq<Entry>, p: Entry -> bool, x: Entry)
    ensures x in Where(s, p) <==> x in s && p(x)
  {
    WhereCounts(s, p, x);
    assert x in Where(s, p) <==> x in multiset(Where(s, p));
    assert x in s <==> x in multiset(s);
  }

  lemma WherePermutes(s: seq<Entry>, t: seq<Entry>, p: Entry -> bool)
    requires multiset(s) == multiset(t)
    ensures multiset(Where(s, p)) == multiset(Where(t, p))
  {
    forall x ensures multiset(Where(s, p))[x] == multiset(Where(t, p))[x] {
      WhereCounts(s, p, x);
      WhereCounts(t, p, x);
    }
  }

  // ---------------------------------------------------------------- admission

  datatype Decision = Decision(admitted: seq<Entry>, below: seq<Entry>, over: seq<Entry>, quota: nat) {
    function Untracked(): seq<Entry> { below + over }
  }

  function Reaches(min: int): Entry -> bool { (e: Entry) => e.count >= min }

  function FallsShort(min: int): Entry -> bool { (e: Entry) => e.count < min }

  function MinInt(a: int, b: int): int { if a < b then a else b }

  function MaxInt(a: int, b: int): int { if a < b then b else a }

  function QuotaOf(active: nat, policy: Policy): nat {
    MaxInt(0, MinInt(policy.maxNewPerBucket, policy.maxActive - active))
  }

  function Decide(unseen: seq<Entry>, active: nat, policy: Policy): Decision {
    var eligible := Sort(Where(unseen, Reaches(policy.minRequests)), BusiestFirst);
    var quota := QuotaOf(active, policy);
    var n := if |eligible| <= quota then |eligible| else quota;
    Decision(eligible[..n], Sort(Where(unseen, FallsShort(policy.minRequests)), BusiestFirst), eligible[n..], quota)
  }

  lemma SplitInTwo(s: seq<Entry>, min: int)
    ensures multiset(Where(s, Reaches(min))) + multiset(Where(s, FallsShort(min))) == multiset(s)
  {
    hide Where;
    var (up, down) := (Where(s, Reaches(min)), Where(s, FallsShort(min)));
    forall x ensures (multiset(up) + multiset(down))[x] == multiset(s)[x] {
      WhereCounts(s, Reaches(min), x);
      WhereCounts(s, FallsShort(min), x);
    }
  }

  /** Every unseen sender is admitted or refused, nothing is made up, and the quota is kept. */
  lemma DecisionPartitions(unseen: seq<Entry>, active: nat, policy: Policy)
    ensures var d := Decide(unseen, active, policy);
            && multiset(d.admitted) + multiset(d.Untracked()) == multiset(unseen)
            && |d.admitted| + |d.Untracked()| == |unseen| && |d.admitted| <= d.quota
            && Sum(d.admitted, CountOfEntry()) + Sum(d.Untracked(), CountOfEntry()) == Sum(unseen, CountOfEntry())
  {
    var d := Decide(unseen, active, policy);
    var (up, down) := (Where(unseen, Reaches(policy.minRequests)), Where(unseen, FallsShort(policy.minRequests)));
    hide Sort, Where, QuotaOf, Sum;
    SortPermutes(up, BusiestFirst);
    SortPermutes(down, BusiestFirst);
    SplitInTwo(unseen, policy.minRequests);
    var all := d.admitted + d.Untracked();
    assert multiset(all) == multiset(unseen) by {
      assert Sort(up, BusiestFirst) == d.admitted + d.over;
    }
    SamePieces(d.admitted, d.Untracked(), unseen);
  }

  lemma SamePieces(a: seq<Entry>, b: seq<Entry>, whole: seq<Entry>)
    requires multiset(a + b) == multiset(whole)
    ensures multiset(a) + multiset(b) == multiset(whole) && |a| + |b| == |whole|
    ensures Sum(a, CountOfEntry()) + Sum(b, CountOfEntry()) == Sum(whole, CountOfEntry())
  {
    assert |a + b| == |multiset(a + b)| == |multiset(whole)| == |whole|;
    SumPermutes(a + b, whole, CountOfEntry());
    SumConcat(a, b, CountOfEntry());
  }

  ghost predicate AllAre(s: seq<Entry>, p: Entry -> bool) { forall i :: 0 <= i < |s| ==> p(s[i]) }

  lemma SortedPart(unseen: seq<Entry>, p: Entry -> bool)
    ensures var s := Sort(Where(unseen, p), BusiestFirst); AllAre(s, p) && SortedBy(s, BusiestFirst)
  {
    var part := Where(unseen, p);
    BusiestFirstRanks(part);
    SortSorts(part, BusiestFirst);
    SortPermutes(part, BusiestFirst);
    hide Sort, Where, BusiestFirst;
    var s := Sort(part, BusiestFirst);
    forall i | 0 <= i < |s| ensures p(s[i]) {
      assert s[i] in multiset(s);
      WhereHolds(unseen, p, s[i]);
    }
  }

  /** All of `first` rank before all of `rest`. */
  ghost predicate Outranks(first: seq<Entry>, rest: seq<Entry>) {
    forall i, j :: 0 <= i < |first| && 0 <= j < |rest| ==> BusiestFirst(first[i], rest[j])
  }

  lemma SortedCut(s: seq<Entry>, n: nat, p: Entry -> bool)
    requires n <= |s| && AllAre(s, p) && SortedBy(s, BusiestFirst)
    ensures AllAre(s[..n], p) && AllAre(s[n..], p) && Outranks(s[..n], s[n..])
  {
    hide BusiestFirst;
    forall i, j | 0 <= i < |s[..n]| && 0 <= j < |s[n..]| ensures BusiestFirst(s[..n][i], s[n..][j]) {
      var later := n + j;
      assert s[..n][i] == s[i] && s[n..][j] == s[later];
    }
  }

  /** Who is admitted: enough events each; and when an eligible sender is refused the quota is used up
      and every admitted one ranks before it. */
  lemma AdmissionIsByRank(unseen: seq<Entry>, active: nat, policy: Policy)
    ensures var (d, min) := (Decide(unseen, active, policy), policy.minRequests);
            && AllAre(d.admitted, Reaches(min)) && AllAre(d.over, Reaches(min)) && AllAre(d.below, FallsShort(min))
            && Outranks(d.admitted, d.over) && (d.over != [] ==> |d.admitted| == d.quota)
  {
    hide Sort, Where, QuotaOf, AllAre, Outranks;
    SortedPart(unseen, Reaches(policy.minRequests));
    SortedPart(unseen, FallsShort(policy.minRequests));
    SortedCut(Sort(Where(unseen, Reaches(policy.minRequests)), BusiestFirst),
              |Decide(unseen, active, policy).admitted|, Reaches(policy.minRequests));
  }

  lemma DecisionForgetsOrder(a: seq<Entry>, b: seq<Entry>, active: nat, policy: Policy)
    requires multiset(a) == multiset(b)
    ensures Decide(a, active, policy) == Decide(b, active, policy)
  {
    WherePermutes(a, b, Reaches(policy.minRequests));
    WherePermutes(a, b, FallsShort(policy.minRequests));
    BusiestFirstRanks(Where(a, Reaches(policy.minRequests)));
    BusiestFirstRanks(Where(a, FallsShort(policy.minRequests)));
    SortForgetsOrder(Where(a, Reaches(policy.minRequests)), Where(b, Reaches(policy.minRequests)), BusiestFirst);
    SortForgetsOrder(Where(a, FallsShort(policy.minRequests)), Where(b, FallsShort(policy.minRequests)), BusiestFirst);
  }

  // ----------------------------------------------------------------- the fold

  datatype Fact = Fact(
    events: nat, records: nat, distinctSenders: nat, top: seq<Entry>, admitted: nat, belowThreshold: nat,
    overQuota: nat, untrackedSenders: nat, untrackedEvents: int, admittedNames: seq<string>, tracked: seq<Entry>)

  function Named(rows: seq<Row>, a: Alphabet): seq<Entry> {
    if |rows| == 0 then []
    else
      var last := rows[|rows| - 1];
      var name := Sanitize(last.sender, a);
      Named(rows[..|rows| - 1], a) + if name.Some? then [Entry(name.value, last.events)] else []
  }

  /** Totals over the rows: all events and records, and the rows and events without a sender. */
  datatype Totals = Totals(events: nat, records: nat, invalidRows: nat, invalidEvents: nat)

  function TotalsOf(rows: seq<Row>, a: Alphabet): Totals {
    if |rows| == 0 then Totals(0, 0, 0, 0)
    else
      var (t, last) := (TotalsOf(rows[..|rows| - 1], a), rows[|rows| - 1]);
      var invalid := Sanitize(last.sender, a).None?;
      Totals(t.events + last.events, t.records + last.records, t.invalidRows + (if invalid then 1 else 0),
             t.invalidEvents + if invalid then last.events else 0)
  }

  function NamesOf(t: seq<Entry>): seq<string> { seq(|t|, (i: nat) requires i < |t| => t[i].name) }

  function Known(active: set<string>): Entry -> bool { (e: Entry) => e.name in active }

  function Unseen(active: set<string>): Entry -> bool { (e: Entry) => e.name !in active }

  function Head<T>(s: seq<T>, n: nat): seq<T> { if |s| <= n then s else s[..n] }

  /** The fact a bucket establishes, once its rows have been added up. */
  function FactOf(totals: Totals, merged: seq<Entry>, active: set<string>, policy: Policy, topN: nat): Fact {
    var d := Decide(Where(merged, Unseen(active)), |active|, policy);
    var tracked := Where(merged, Known(active)) + d.admitted;
    Fact(totals.events, totals.records, |merged| + totals.invalidRows, Head(Sort(tracked, BusiestFirst), topN),
         |d.admitted|, |d.below|, |d.over|, |d.Untracked()| + totals.invalidRows,
         Sum(d.Untracked(), CountOfEntry()) + totals.invalidEvents, Sort(NamesOf(d.admitted), TextLe), tracked)
  }

  function Folded(rows: seq<Row>, a: Alphabet, active: set<string>, policy: Policy, topN: nat): Fact {
    FactOf(TotalsOf(rows, a), Tallied(Named(rows, a)), active, policy, topN)
  }

  function Grown(active: set<string>, f: Fact): set<string> { active + (set n | n in f.admittedNames) }

  lemma {:induction false} NamedAndInvalidAddUp(rows: seq<Row>, a: Alphabet)
    ensures Sum(Named(rows, a), CountOfEntry()) + TotalsOf(rows, a).invalidEvents == TotalsOf(rows, a).events
  {
    hide Sanitize;
    if |rows| > 0 {
      var init, last := rows[..|rows| - 1], rows[|rows| - 1];
      NamedAndInvalidAddUp(init, a);
      if Sanitize(last.sender, a).Some? {
        SumConcat(Named(init, a), [Entry(Sanitize(last.sender, a).value, last.events)], CountOfEntry());
      } else {
        assert Named(rows, a) == Named(init, a);
      }
    }
  }

  /** Nothing is lost: tracked and untracked events add up to all events, tracked and untracked senders
      to all senders seen. */
  lemma FoldConserves(rows: seq<Row>, a: Alphabet, active: set<string>, policy: Policy, topN: nat)
    ensures var f := Folded(rows, a, active, policy, topN);
            && Sum(f.tracked, CountOfEntry()) + f.untrackedEvents == f.events
            && |f.tracked| + f.untrackedSenders == f.distinctSenders
            && f.untrackedSenders == f.belowThreshold + f.overQuota + TotalsOf(rows, a).invalidRows
  {
    var merged := Tallied(Named(rows, a));
    NamedAndInvalidAddUp(rows, a);
    TalliedFacts(Named(rows, a));
    WhereSplits(merged, Known(active), Unseen(active), CountOfEntry());
    var unseen := Where(merged, Unseen(active));
    DecisionPartitions(unseen, |active|, policy);
    var d := Decide(unseen, |active|, policy);
    hide Decide, Where, Tallied, Named, TotalsOf;
    SumConcat(Where(merged, Known(active)), d.admitted, CountOfEntry());
  }

  /** A sender that is already tracked is never dropped, and its events are the total of its rows; the
      only other tracked senders are those admitted. */
  lemma TrackedSendersAreKept(rows: seq<Row>, a: Alphabet, active: set<string>, policy: Policy, topN: nat, name: string)
    requires name in active && Names(Named(rows, a), name)
    ensures Entry(name, TotalFor(Named(rows, a), name)) in Folded(rows, a, active, policy, topN).tracked
  {
    var named := Named(rows, a);
    var merged := Tallied(named);
    TalliedFacts(named);
    hide Tallied, Named, TotalsOf;
    var i :| 0 <= i < |merged| && merged[i].name == name;
    EntryIsTotal(merged, i);
    WhereHolds(merged, Known(active), merged[i]);
  }

  lemma SortedNames(names: seq<string>)
    ensures |Sort(names, TextLe)| == |names| && forall n :: n in Sort(names, TextLe) <==> n in names
  {
    SortPermutes(names, TextLe);
    hide Sort;
    forall n ensures n in Sort(names, TextLe) <==> n in names {
      assert n in Sort(names, TextLe) <==> n in multiset(Sort(names, TextLe));
      assert n in names <==> n in multiset(names);
    }
  }

  /** Who is admitted was not tracked and was seen in this bucket. */
  lemma AdmittedAreNew(merged: seq<Entry>, active: set<string>, policy: Policy, e: Entry)
    requires e in Decide(Where(merged, Unseen(active)), |active|, policy).admitted
    ensures e.name !in active && e in merged
  {
    var unseen := Where(merged, Unseen(active));
    DecisionPartitions(unseen, |active|, policy);
    var d := Decide(unseen, |active|, policy);
    hide Decide, Where, Sum;
    assert e in multiset(d.admitted);
    assert e in multiset(unseen);
    WhereHolds(merged, Unseen(active), e);
  }

  lemma NamesOfAdmitted(merged: seq<Entry>, active: set<string>, policy: Policy, n: string)
    requires n in NamesOf(Decide(Where(merged, Unseen(active)), |active|, policy).admitted)
    ensures n !in active
  {
    hide Decide, Where;
    var admitted := Decide(Where(merged, Unseen(active)), |active|, policy).admitted;
    var k :| 0 <= k < |admitted| && NamesOf(admitted)[k] == n;
    assert admitted[k] in admitted;
    AdmittedAreNew(merged, active, policy, admitted[k]);
  }

  lemma TrackedIsOneOrTheOther(merged: seq<Entry>, active: set<string>, policy: Policy, e: Entry)
    requires e in Where(merged, Known(active)) + Decide(Where(merged, Unseen(active)), |active|, policy).admitted
    ensures e in merged
    ensures e.name in active <==> e.name !in NamesOf(Decide(Where(merged, Unseen(active)), |active|, policy).admitted)
  {
    hide Decide, Where;
    var admitted := Decide(Where(merged, Unseen(active)), |active|, policy).admitted;
    if e in admitted {
      var k :| 0 <= k < |admitted| && admitted[k] == e;
      assert NamesOf(admitted)[k] == e.name;
      AdmittedAreNew(merged, active, policy, e);
    } else {
      WhereHolds(merged, Known(active), e);
      if e.name in NamesOf(admitted) {
        NamesOfAdmitted(merged, active, policy, e.name);
      }
    }
  }

  /** Every tracked sender was tracked before or is admitted by this bucket, and those admitted are new
      senders of this bucket. */
  lemma TrackedAreKnownOrAdmitted(rows: seq<Row>, a: Alphabet, active: set<string>, policy: Policy, topN: nat, i: nat)
    requires i < |Folded(rows, a, active, policy, topN).tracked|
    ensures var f := Folded(rows, a, active, policy, topN);
            && (f.tracked[i].name in active <==> f.tracked[i].name !in f.admittedNames)
            && Names(Named(rows, a), f.tracked[i].name)
  {
    hide Sort, Where, Decide, Tallied, Named, TotalsOf, Sum;
    var f, merged := Folded(rows, a, active, policy, topN), Tallied(Named(rows, a));
    var e := f.tracked[i];
    assert e in f.tracked;
    TrackedIsOneOrTheOther(merged, active, policy, e);
    SortedNames(NamesOf(Decide(Where(merged, Unseen(active)), |active|, policy).admitted));
    TalliedFacts(Named(rows, a));
    var k :| 0 <= k < |merged| && merged[k] == e;
    assert Names(merged, e.name);
  }

  lemma {:induction false} NamesBound(names: seq<string>)
    ensures |set n | n in names| <= |names|
  {
    if |names| > 0 {
      NamesBound(names[1..]);
      assert (set n | n in names) == {names[0]} + set n | n in names[1..];
    } else {
      assert (set n | n in names) == {};
    }
  }

  lemma UnionBound<T>(a: set<T>, b: set<T>)
    ensures |a + b| <= |a| + |b|
  {
    assert a + b == a + (b - a);
    assert |b - a| <= |b| by { Subset(b - a, b); }
  }

  lemma {:induction false} Subset<T>(a: set<T>, b: set<T>)
    requires a <= b
    ensures |a| <= |b|
  {
    if a != {} {
      var x :| x in a;
      Subset(a - {x}, b - {x});
    }
  }

  /** The ledger only grows, by no more than the bucket's quota, and never past the ceiling unless it
      already was. */
  lemma LedgerIsBounded(rows: seq<Row>, a: Alphabet, active: set<string>, policy: Policy, topN: nat)
    ensures var grown := Grown(active, Folded(rows, a, active, policy, topN));
            && active <= grown
            && |grown| <= |active| + MaxInt(0, policy.maxNewPerBucket)
            && |grown| <= MaxInt(policy.maxActive, |active|)
  {
    hide Sort, Where, Tallied, Named, TotalsOf, Sum;
    var f := Folded(rows, a, active, policy, topN);
    assert |f.admittedNames| <= QuotaOf(|active|, policy) by {
      var unseen := Where(Tallied(Named(rows, a)), Unseen(active));
      DecisionPartitions(unseen, |active|, policy);
      SortedNames(NamesOf(Decide(unseen, |active|, policy).admitted));
    }
    hide Folded;
    NamesBound(f.admittedNames);
    UnionBound(active, set n | n in f.admittedNames);
  }

  /** Row order is forgotten: every number, the top list and the admitted names are the same, and the
      tracked senders are the same up to order. */
  lemma FoldForgetsOrder(rows: seq<Row>, other: seq<Row>, a: Alphabet, active: set<string>, policy: Policy, topN: nat)
    requires multiset(rows) == multiset(other)
    ensures var (f, g) := (Folded(rows, a, active, policy, topN), Folded(other, a, active, policy, topN));
            multiset(f.tracked) == multiset(g.tracked) && f == g.(tracked := f.tracked)
  {
    NamedPermutes(rows, other, a);
    TotalsPermute(rows, other, a);
    TallyForgetsOrder(Named(rows, a), Named(other, a));
    var (m, n) := (Tallied(Named(rows, a)), Tallied(Named(other, a)));
    FactForgetsOrder(TotalsOf(rows, a), m, n, active, policy, topN);
  }

  lemma FactForgetsOrder(totals: Totals, m: seq<Entry>, n: seq<Entry>, active: set<string>, policy: Policy, topN: nat)
    requires multiset(m) == multiset(n)
    ensures var (f, g) := (FactOf(totals, m, active, policy, topN), FactOf(totals, n, active, policy, topN));
            multiset(f.tracked) == multiset(g.tracked) && f == g.(tracked := f.tracked)
  {
    WherePermutes(m, n, Known(active));
    WherePermutes(m, n, Unseen(active));
    DecisionForgetsOrder(Where(m, Unseen(active)), Where(n, Unseen(active)), |active|, policy);
    var d := Decide(Where(m, Unseen(active)), |active|, policy);
    var (s, t) := (Where(m, Known(active)) + d.admitted, Where(n, Known(active)) + d.admitted);
    hide Decide, Where;
    assert |m| == |multiset(m)| == |multiset(n)| == |n|;
    BusiestFirstRanks(s);
    SortForgetsOrder(s, t, BusiestFirst);
  }

  function OneNamed(row: Row, a: Alphabet): seq<Entry> {
    var name := Sanitize(row.sender, a);
    if name.Some? then [Entry(name.value, row.events)] else []
  }

  lemma {:induction false} NamedCounts(rows: seq<Row>, a: Alphabet, e: Entry)
    ensures multiset(Named(rows, a))[e] == Count(rows, (r: Row) => OneNamed(r, a) == [e])
  {
    var p := (r: Row) => OneNamed(r, a) == [e];
    if |rows| > 0 {
      var init, last := rows[..|rows| - 1], rows[|rows| - 1];
      NamedCounts(init, a, e);
      assert rows == init + [last];
      CountConcat(init, [last], p);
      assert Named(rows, a) == Named(init, a) + OneNamed(last, a);
    }
  }

  lemma NamedPermutes(rows: seq<Row>, other: seq<Row>, a: Alphabet)
    requires multiset(rows) == multiset(other)
    ensures multiset(Named(rows, a)) == multiset(Named(other, a))
  {
    forall e ensures multiset(Named(rows, a))[e] == multiset(Named(other, a))[e] {
      NamedCounts(rows, a, e);
      NamedCounts(other, a, e);
      CountPermutes(rows, other, (r: Row) => OneNamed(r, a) == [e]);
    }
  }

  function EventsOf(): Row -> int { (r: Row) => r.events }

  function RecordsOf(): Row -> int { (r: Row) => r.records }

  function InvalidOf(a: Alphabet): Row -> int { (r: Row) => if Sanitize(r.sender, a).None? then 1 else 0 }

  function InvalidEventsOf(a: Alphabet): Row -> int { (r: Row) => if Sanitize(r.sender, a).None? then r.events else 0 }

  lemma {:induction false} TotalsAreSums(rows: seq<Row>, a: Alphabet)
    ensures var t := TotalsOf(rows, a);
            && t.events == Sum(rows, EventsOf()) && t.records == Sum(rows, RecordsOf())
            && t.invalidRows == Sum(rows, InvalidOf(a)) && t.invalidEvents == Sum(rows, InvalidEventsOf(a))
  {
    hide Sanitize;
    if |rows| > 0 {
      var init, last := rows[..|rows| - 1], rows[|rows| - 1];
      TotalsAreSums(init, a);
      assert rows == init + [last];
      SumConcat(init, [last], EventsOf());
      SumConcat(init, [last], RecordsOf());
      SumConcat(init, [last], InvalidOf(a));
      SumConcat(init, [last], InvalidEventsOf(a));
    }
  }

  lemma TotalsPermute(rows: seq<Row>, other: seq<Row>, a: Alphabet)
    requires multiset(rows) == multiset(other)
    ensures TotalsOf(rows, a) == TotalsOf(other, a)
  {
    TotalsAreSums(rows, a);
    TotalsAreSums(other, a);
    SumPermutes(rows, other, EventsOf());
    SumPermutes(rows, other, RecordsOf());
    SumPermutes(rows, other, InvalidOf(a));
    SumPermutes(rows, other, InvalidEventsOf(a));
  }

  lemma HeadOfSorted(t: seq<Entry>, n: nat)
    ensures var s := Sort(t, BusiestFirst);
            var top := Head(s, n);
            && |top| <= |s| && |top| == (if |t| <= n then |t| else n)
            && SortedBy(top, BusiestFirst) && multiset(top) + multiset(s[|top|..]) == multiset(t) && Outranks(top, s[|top|..])
  {
    var s := Sort(t, BusiestFirst);
    var top := Head(s, n);
    BusiestFirstRanks(t);
    SortSorts(t, BusiestFirst);
    SortPermutes(t, BusiestFirst);
    hide Sort, BusiestFirst, Outranks;
    assert top == s[..|top|] && s == top + s[|top|..];
    SortedCut(s, |top|, (_: Entry) => true);
  }

  /** The top list is the busiest `topN` tracked senders, in order; the ones left out rank after them. */
  lemma TopIsTheHead(rows: seq<Row>, a: Alphabet, active: set<string>, policy: Policy, topN: nat)
    ensures var f := Folded(rows, a, active, policy, topN);
            var rest := Sort(f.tracked, BusiestFirst)[|f.top|..];
            && |f.top| == (if |f.tracked| <= topN then |f.tracked| else topN)
            && SortedBy(f.top, BusiestFirst) && multiset(f.top) + multiset(rest) == multiset(f.tracked)
            && Outranks(f.top, rest)
  {
    hide Sort, Head, Outranks, SortedBy, Decide;
    HeadOfSorted(Folded(rows, a, active, policy, topN).tracked, topN);
  }

  // ------------------------------------------------------- bucket after bucket

  /** The ledger after each bucket of a run. */
  function Ledger(active: set<string>, buckets: seq<seq<Row>>, a: Alphabet, policy: Policy, topN: nat): set<string> {
    if |buckets| == 0 then active
    else
      var before := Ledger(active, buckets[..|buckets| - 1], a, policy, topN);
      Grown(before, Folded(buckets[|buckets| - 1], a, before, policy, topN))
  }

  /** However many buckets and whatever they hold: no tracked sender is ever forgotten, and the ledger
      never grows past the ceiling, or past its starting size if that was already higher. */
  lemma {:induction false} LedgerStaysBounded(active: set<string>, buckets: seq<seq<Row>>, a: Alphabet, policy: Policy, topN: nat)
    ensures var after := Ledger(active, buckets, a, policy, topN);
            active <= after && |after| <= MaxInt(policy.maxActive, |active|)
  {
    hide Grown, Folded;
    if |buckets| > 0 {
      LedgerStaysBounded(active, buckets[..|buckets| - 1], a, policy, topN);
      LedgerIsBounded(buckets[|buckets| - 1], a, Ledger(active, buckets[..|buckets| - 1], a, policy, topN), policy, topN);
    }
  }

  // ---------------------------------------------------------------- the program

  datatype FoldError = TopNotPositive

  /** What a stored bucket claims about the true value. */
  datatype Measurement = Exact | LowerBound

  /** The fact with the claim it carries: of a truncated bucket only a lower bound of the senders is known. */
  datatype BucketFact = BucketFact(measurement: Measurement, distinctIsLowerBound: bool, counts: Fact)

  class SenderLedger {
    var active: set<string>

    constructor (active: set<string>)
      ensures this.active == active
    {
      this.active := active;
    }
  }

  /** The fact of one bucket, and the ledger grown by whom it admits. */
  method FoldSourceBucket(rows: seq<Row>, a: Alphabet, ledger: SenderLedger, measurement: Measurement, policy: Policy, topN: int)
    returns (r: Result<BucketFact, FoldError>)
    modifies ledger
    ensures topN < 1 ==> r == Err(TopNotPositive) && ledger.active == old(ledger.active)
    ensures topN >= 1 ==>
      && r == Ok(BucketFact(measurement, measurement == LowerBound, Folded(rows, a, old(ledger.active), policy, topN)))
      && ledger.active == Grown(old(ledger.active), Folded(rows, a, old(ledger.active), policy, topN))
  {
    hide Sanitize, Decide;
    if topN < 1 {
      return Err(TopNotPositive);
    }
    var totals, merged := AddUp(rows, a);
    var tracked := Where(merged, Known(ledger.active));
    var unseen := Where(merged, Unseen(ledger.active));
    var decision := Decide(unseen, |ledger.active|, policy);
    var admitted := Sort(NamesOf(decision.admitted), TextLe);
    tracked := tracked + decision.admitted;
    ghost var before := ledger.active;
    var refused := decision.Untracked();
    var fact := Fact(totals.events, totals.records, |merged| + totals.invalidRows, Head(Sort(tracked, BusiestFirst), topN),
                     |decision.admitted|, |decision.below|, |decision.over|, |refused| + totals.invalidRows,
                     Sum(refused, CountOfEntry()) + totals.invalidEvents, admitted, tracked);
    assert fact == FactOf(totals, merged, before, policy, topN);
    ledger.active := ledger.active + set n | n in admitted;
    return Ok(BucketFact(measurement, measurement.LowerBound?, fact));
  }

  method AddUp(rows: seq<Row>, a: Alphabet) returns (totals: Totals, merged: seq<Entry>)
    ensures totals == TotalsOf(rows, a) && merged == Tallied(Named(rows, a))
  {
    hide Sanitize;
    totals, merged := Totals(0, 0, 0, 0), [];
    for i := 0 to |rows|
      invariant totals == TotalsOf(rows[..i], a) && merged == Tallied(Named(rows[..i], a))
    {
      var row := rows[i];
      assert rows[..i + 1][..i] == rows[..i];
      var identifier := Sanitize(row.sender, a);
      totals := totals.(events := totals.events + row.events, records := totals.records + row.records);
      if identifier.None? {
        assert Named(rows[..i + 1], a) == Named(rows[..i], a);
        totals := totals.(invalidRows := totals.invalidRows + 1, invalidEvents := totals.invalidEvents + row.events);
      } else {
        TalliedSnoc(Named(rows[..i], a), Entry(identifier.value, row.events));
        merged := Add(merged, identifier.value, row.events);
      }
    }
    assert rows[..|rows|] == rows;
  }
}
