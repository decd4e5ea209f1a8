/** A count per name, in first-seen order: Python's `dict[str, int]` filled by `d[name] += n`. What a
    tally says depends only on the multiset of what was counted. */
module Tally {
  import opened Sorting

  datatype Entry = Entry(name: string, count: nat)

  function CountOfEntry(): Entry -> int { (e: Entry) => e.count }

  /** `t[name] += n`. */
  function Add(t: seq<Entry>, name: string, n: nat): seq<Entry> {
    if |t| == 0 then [Entry(name, n)]
    else if t[0].name == name then [Entry(name, t[0].count + n)] + t[1..]
    else [t[0]] + Add(t[1..], name, n)
  }

  function Tallied(rows: seq<Entry>): seq<Entry> {
    if |rows| == 0 then []
    else Add(Tallied(rows[..|rows| - 1]), rows[|rows| - 1].name, rows[|rows| - 1].count)
  }

  lemma TalliedSnoc(rows: seq<Entry>, e: Entry)
    ensures Tallied(rows + [e]) == Add(Tallied(rows), e.name, e.count)
  {
    assert (rows + [e])[..|rows + [e]| - 1] == rows;
  }

  /** What the rows give to `name`. */
  ghost function TotalFor(rows: seq<Entry>, name: string): nat {
    if |rows| == 0 then 0 else (if rows[0].name == name then rows[0].count else 0) + TotalFor(rows[1..], name)
  }

  ghost predicate Names(rows: seq<Entry>, name: string) {
    exists i :: 0 <= i < |rows| && rows[i].name == name
  }

  ghost predicate DistinctNames(t: seq<Entry>) {
    forall i, j :: 0 <= i < j < |t| ==> t[i].name != t[j].name
  }

  lemma {:induction false} AddFacts(t: seq<Entry>, name: string, n: nat)
    ensures Sum(Add(t, name, n), CountOfEntry()) == Sum(t, CountOfEntry()) + n
    ensures forall x :: Names(Add(t, name, n), x) <==> Names(t, x) || x == name
    ensures DistinctNames(t) ==> DistinctNames(Add(t, name, n))
    ensures forall x :: TotalFor(Add(t, name, n), x) == TotalFor(t, x) + if x == name then n else 0
  {
    var r := Add(t, name, n);
    if |t| == 0 {
      assert r[0].name == name;
    } else if t[0].name == name {
      assert r[1..] == t[1..];
      assert forall i :: 0 <= i < |t| ==> r[i].name == t[i].name;
      forall x ensures Names(r, x) <==> Names(t, x) || x == name {
        assert r[0].name == name;
      }
    } else {
      AddFacts(t[1..], name, n);
      AddNames(t, name, n);
    }
  }

  lemma AddNames(t: seq<Entry>, name: string, n: nat)
    requires |t| > 0 && t[0].name != name
    requires forall x :: Names(Add(t[1..], name, n), x) <==> Names(t[1..], x) || x == name
    requires DistinctNames(t[1..]) ==> DistinctNames(Add(t[1..], name, n))
    ensures forall x :: Names(Add(t, name, n), x) <==> Names(t, x) || x == name
    ensures DistinctNames(t) ==> DistinctNames(Add(t, name, n))
  {
    var r, rest := Add(t, name, n), Add(t[1..], name, n);
    assert r == [t[0]] + rest;
    forall x ensures Names(r, x) <==> x == t[0].name || Names(rest, x) { NamesOfFirst(r, x); }
    forall x ensures Names(t, x) <==> x == t[0].name || Names(t[1..], x) { NamesOfFirst(t, x); }
    if DistinctNames(t) {
      forall i, j | 0 <= i < j < |r| ensures r[i].name != r[j].name {
        if i == 0 {
          assert Names(rest, rest[j - 1].name);
        } else {
          assert rest[i - 1].name != rest[j - 1].name;
        }
      }
    }
  }

  lemma NamesOfFirst(r: seq<Entry>, x: string)
    requires |r| > 0
    ensures Names(r, x) <==> x == r[0].name || Names(r[1..], x)
  {
    if Names(r, x) && x != r[0].name {
      var i :| 0 <= i < |r| && r[i].name == x;
      assert r[1..][i - 1].name == x;
    }
    if Names(r[1..], x) {
      var i :| 0 <= i < |r[1..]| && r[1..][i].name == x;
      assert r[i + 1].name == x;
    }
  }

  /** A tally keeps every count: distinct names, the names and the totals of the rows. */
  lemma {:induction false} TalliedFacts(rows: seq<Entry>)
    ensures DistinctNames(Tallied(rows))
    ensures Sum(Tallied(rows), CountOfEntry()) == Sum(rows, CountOfEntry())
    ensures forall x :: Names(Tallied(rows), x) <==> Names(rows, x)
    ensures forall x :: TotalFor(Tallied(rows), x) == TotalFor(rows, x)
  {
    if |rows| > 0 {
      var init, last := rows[..|rows| - 1], rows[|rows| - 1];
      assert rows == init + [last];
      TalliedFacts(init);
      AddFacts(Tallied(init), last.name, last.count);
      SumConcat(init, [last], CountOfEntry());
      forall x ensures TotalFor(rows, x) == TotalFor(init, x) + if x == last.name then last.count else 0 {
        TotalForSnoc(init, last, x);
      }
      forall x ensures Names(rows, x) <==> Names(init, x) || x == last.name {
        NamesSnoc(init, last, x);
      }
    }
  }

  lemma {:induction false} TotalForSnoc(init: seq<Entry>, last: Entry, x: string)
    ensures TotalFor(init + [last], x) == TotalFor(init, x) + if x == last.name then last.count else 0
  {
    if |init| > 0 {
      assert (init + [last])[1..] == init[1..] + [last];
      TotalForSnoc(init[1..], last, x);
    } else {
      assert init + [last] == [last] && [last][1..] == [];
    }
  }

  lemma NamesSnoc(init: seq<Entry>, last: Entry, x: string)
    ensures Names(init + [last], x) <==> Names(init, x) || x == last.name
  {
    var rows := init + [last];
    assert rows[|init|] == last;
    if Names(init, x) {
      var i :| 0 <= i < |init| && init[i].name == x;
      assert rows[i].name == x;
    }
  }

  /** In a tally with distinct names, an entry's count is its name's total. */
  lemma {:induction false} EntryIsTotal(t: seq<Entry>, i: nat)
    requires DistinctNames(t) && i < |t|
    ensures TotalFor(t, t[i].name) == t[i].count
  {
    if i == 0 {
      NotNamed(t[1..], t[0].name);
    } else {
      EntryIsTotal(t[1..], i - 1);
    }
  }

  lemma {:induction false} NotNamed(t: seq<Entry>, x: string)
    requires forall i :: 0 <= i < |t| ==> t[i].name != x
    ensures TotalFor(t, x) == 0
  {
    if |t| > 0 {
      NotNamed(t[1..], x);
    }
  }

  lemma {:induction false} DistinctOnce(t: seq<Entry>, e: Entry)
    requires DistinctNames(t)
    ensures multiset(t)[e] == if e in t then 1 else 0
  {
    if |t| > 0 {
      assert t == [t[0]] + t[1..];
      DistinctOnce(t[1..], e);
    }
  }

  /** The same rows in another order give the same entries. */
  lemma TallyForgetsOrder(a: seq<Entry>, b: seq<Entry>)
    requires multiset(a) == multiset(b)
    ensures multiset(Tallied(a)) == multiset(Tallied(b))
  {
    TalliedFacts(a);
    TalliedFacts(b);
    forall x ensures TotalFor(a, x) == TotalFor(b, x) { TotalForPermutes(a, b, x); }
    forall x ensures Names(a, x) <==> Names(b, x) { NamesPermute(a, b, x); NamesPermute(b, a, x); }
    forall e ensures multiset(Tallied(a))[e] == multiset(Tallied(b))[e] {
      DistinctOnce(Tallied(a), e);
      DistinctOnce(Tallied(b), e);
      SameEntries(Tallied(a), Tallied(b), e);
      SameEntries(Tallied(b), Tallied(a), e);
    }
  }

  lemma SameEntries(s: seq<Entry>, t: seq<Entry>, e: Entry)
    requires DistinctNames(s) && DistinctNames(t)
    requires forall x :: Names(s, x) ==> Names(t, x)
    requires forall x :: TotalFor(s, x) == TotalFor(t, x)
    ensures e in s ==> e in t
  {
    if e in s {
      var i :| 0 <= i < |s| && s[i] == e;
      assert Names(s, e.name);
      var j :| 0 <= j < |t| && t[j].name == e.name;
      EntryIsTotal(s, i);
      EntryIsTotal(t, j);
      assert t[j] == e;
    }
  }

  lemma NamesPermute(a: seq<Entry>, b: seq<Entry>, x: string)
    requires multiset(a) == multiset(b)
    ensures Names(a, x) ==> Names(b, x)
  {
    if Names(a, x) {
      var i :| 0 <= i < |a| && a[i].name == x;
      assert a[i] in multiset(b);
    }
  }

  lemma {:induction false} TotalForPermutes(a: seq<Entry>, b: seq<Entry>, x: string)
    requires multiset(a) == multiset(b)
    ensures TotalFor(a, x) == TotalFor(b, x)
  {
    TotalIsSum(a, x);
    TotalIsSum(b, x);
    SumPermutes(a, b, ShareOf(x));
  }

  ghost function ShareOf(x: string): Entry -> int { (e: Entry) => if e.name == x then e.count else 0 }

  lemma {:induction false} TotalIsSum(a: seq<Entry>, x: string)
    ensures TotalFor(a, x) == Sum(a, ShareOf(x))
  {
    if |a| > 0 {
      TotalIsSum(a[1..], x);
    }
  }

  // ------------------------------------------------------------- top lists

  /** By count, then by name. */
  predicate BusiestFirst(x: Entry, y: Entry) {
    x.count > y.count || (x.count == y.count && TextLe(x.name, y.name))
  }

  lemma BusiestFirstRanks(t: seq<Entry>)
    ensures TotalPreorder(BusiestFirst) && DistinctRanks(t, BusiestFirst)
  {
    TextLeIsTotalPreorder();
    forall x, y | x in t && y in t && BusiestFirst(x, y) && BusiestFirst(y, x) ensures x == y {
      TextLeTotal(x.name, y.name);
    }
  }

  /** The ranking of a tally does not depend on the order the rows came in. */
  lemma RankingForgetsOrder(a: seq<Entry>, b: seq<Entry>)
    requires multiset(a) == multiset(b)
    ensures Sort(Tallied(a), BusiestFirst) == Sort(Tallied(b), BusiestFirst)
  {
    TallyForgetsOrder(a, b);
    BusiestFirstRanks(Tallied(a));
    SortForgetsOrder(Tallied(a), Tallied(b), BusiestFirst);
  }
}
