/** Stable sorting by a total preorder, as Python's `sorted(..., key=...)` does it, and the facts
    about sums and counts over a sequence that do not depend on its order. */
module Sorting {

  ghost predicate TotalPreorder<T(!new)>(le: (T, T) -> bool) {
    && (forall x, y :: le(x, y) || le(y, x))
    && (forall x, y, z :: le(x, y) && le(y, z) ==> le(x, z))
  }

  ghost predicate SortedBy<T>(s: seq<T>, le: (T, T) -> bool) {
    forall i, j :: 0 <= i < j < |s| ==> le(s[i], s[j])
  }

  /** No two different members of `s` rank equal. */
  ghost predicate DistinctRanks<T>(s: seq<T>, le: (T, T) -> bool) {
    forall x, y :: x in s && y in s && le(x, y) && le(y, x) ==> x == y
  }

  function Insert<T>(x: T, s: seq<T>, le: (T, T) -> bool): seq<T> {
    if |s| == 0 || le(x, s[0]) then [x] + s else [s[0]] + Insert(x, s[1..], le)
  }

  function Sort<T>(s: seq<T>, le: (T, T) -> bool): seq<T> {
    if |s| == 0 then [] else Insert(s[0], Sort(s[1..], le), le)
  }

  lemma {:induction false} InsertKeeps<T>(x: T, s: seq<T>, le: (T, T) -> bool)
    ensures multiset(Insert(x, s, le)) == multiset(s) + multiset{x}
  {
    if |s| == 0 || le(x, s[0]) {
    } else {
      InsertKeeps(x, s[1..], le);
      assert s == [s[0]] + s[1..];
    }
  }

  lemma {:induction false} InsertSorts<T(!new)>(x: T, s: seq<T>, le: (T, T) -> bool)
    requires TotalPreorder(le) && SortedBy(s, le)
    ensures SortedBy(Insert(x, s, le), le)
  {
    if |s| == 0 || le(x, s[0]) {
    } else {
      InsertSorts(x, s[1..], le);
      InsertKeeps(x, s[1..], le);
      var rest := Insert(x, s[1..], le);
      forall j | 0 <= j < |rest| ensures le(s[0], rest[j]) {
        assert rest[j] in multiset(rest);
        assert rest[j] == x || rest[j] in s[1..];
      }
    }
  }

  lemma {:induction false} SortPermutes<T>(s: seq<T>, le: (T, T) -> bool)
    ensures multiset(Sort(s, le)) == multiset(s) && |Sort(s, le)| == |s|
  {
    if |s| > 0 {
      SortPermutes(s[1..], le);
      InsertKeeps(s[0], Sort(s[1..], le), le);
      assert s == [s[0]] + s[1..];
    }
    assert |multiset(Sort(s, le))| == |multiset(s)|;
  }

  lemma {:induction false} SortSorts<T(!new)>(s: seq<T>, le: (T, T) -> bool)
    requires TotalPreorder(le)
    ensures SortedBy(Sort(s, le), le)
  {
    if |s| > 0 {
      SortSorts(s[1..], le);
      InsertSorts(s[0], Sort(s[1..], le), le);
    }
  }

  lemma HeadIsLeast<T(!new)>(a: seq<T>, x: T, le: (T, T) -> bool)
    requires TotalPreorder(le) && SortedBy(a, le) && x in multiset(a)
    ensures |a| > 0 && a[0] in a && x in a && le(a[0], x)
  {
    var i :| 0 <= i < |a| && a[i] == x;
    if i > 0 {
      assert le(a[0], a[i]);
    }
  }

  lemma TailKeepsOrder<T(!new)>(a: seq<T>, le: (T, T) -> bool)
    requires |a| > 0 && SortedBy(a, le) && DistinctRanks(a, le)
    ensures SortedBy(a[1..], le) && DistinctRanks(a[1..], le)
    ensures multiset(a[1..]) == multiset(a) - multiset{a[0]}
  {
    assert a == [a[0]] + a[1..];
    forall x, y | x in a[1..] && y in a[1..] && le(x, y) && le(y, x) ensures x == y {
      assert x in a && y in a;
    }
  }

  lemma SameHead<T(!new)>(a: seq<T>, b: seq<T>, le: (T, T) -> bool)
    requires TotalPreorder(le) && DistinctRanks(a, le) && SortedBy(a, le) && SortedBy(b, le)
    requires multiset(a) == multiset(b) && |a| > 0 && |b| > 0
    ensures a[0] == b[0]
  {
    assert a[0] in multiset(a) && b[0] in multiset(b);
    HeadIsLeast(a, b[0], le);
    HeadIsLeast(b, a[0], le);
  }

  /** Two sorted sequences of the same distinct-ranked items are the same sequence. */
  lemma {:induction false} SortedIsUnique<T(!new)>(a: seq<T>, b: seq<T>, le: (T, T) -> bool)
    requires TotalPreorder(le) && DistinctRanks(a, le) && DistinctRanks(b, le)
    requires SortedBy(a, le) && SortedBy(b, le) && multiset(a) == multiset(b)
    ensures a == b
  {
    hide SortedBy, DistinctRanks, TotalPreorder;
    assert |a| == |multiset(a)| == |multiset(b)| == |b|;
    if |a| > 0 {
      SameHead(a, b, le);
      TailKeepsOrder(a, le);
      TailKeepsOrder(b, le);
      SortedIsUnique(a[1..], b[1..], le);
      assert a == [a[0]] + a[1..] && b == [b[0]] + b[1..];
    }
  }

  /** Sorting forgets the order its input came in, when ranks are distinct. */
  lemma SortForgetsOrder<T(!new)>(a: seq<T>, b: seq<T>, le: (T, T) -> bool)
    requires TotalPreorder(le) && DistinctRanks(a, le) && multiset(a) == multiset(b)
    ensures Sort(a, le) == Sort(b, le)
  {
    SortPermutes(a, le);
    SortPermutes(b, le);
    SortSorts(a, le);
    SortSorts(b, le);
    forall x | x in Sort(a, le) || x in Sort(b, le) ensures x in a {
      assert x in multiset(Sort(a, le));
    }
    SortedIsUnique(Sort(a, le), Sort(b, le), le);
  }

  // ---------------------------------------------------------------- strings

  /** Python's `<=` on strings: lexicographic by code point. */
  predicate TextLe(a: string, b: string) {
    |a| == 0 || (|b| > 0 && (a[0] < b[0] || (a[0] == b[0] && TextLe(a[1..], b[1..]))))
  }

  lemma {:induction false} TextLeTotal(a: string, b: string)
    ensures TextLe(a, b) || TextLe(b, a)
    ensures TextLe(a, b) && TextLe(b, a) ==> a == b
  {
    if |a| > 0 && |b| > 0 {
      TextLeTotal(a[1..], b[1..]);
      assert a == [a[0]] + a[1..] && b == [b[0]] + b[1..];
    }
  }

  lemma {:induction false} TextLeTransitive(a: string, b: string, c: string)
    requires TextLe(a, b) && TextLe(b, c)
    ensures TextLe(a, c)
  {
    if |a| > 0 && a[0] == b[0] == c[0] {
      TextLeTransitive(a[1..], b[1..], c[1..]);
    }
  }

  lemma TextLeIsTotalPreorder()
    ensures TotalPreorder(TextLe)
  {
    forall x, y ensures TextLe(x, y) || TextLe(y, x) { TextLeTotal(x, y); }
    forall x, y, z | TextLe(x, y) && TextLe(y, z) ensures TextLe(x, z) { TextLeTransitive(x, y, z); }
  }

  // ------------------------------------------------------- sums and counts

  function Sum<T>(s: seq<T>, f: T -> int): int {
    if |s| == 0 then 0 else f(s[0]) + Sum(s[1..], f)
  }

  function Count<T>(s: seq<T>, p: T -> bool): nat {
    if |s| == 0 then 0 else (if p(s[0]) then 1 else 0) + Count(s[1..], p)
  }

  lemma {:induction false} SumConcat<T>(a: seq<T>, b: seq<T>, f: T -> int)
    ensures Sum(a + b, f) == Sum(a, f) + Sum(b, f)
  {
    if |a| == 0 {
      assert a + b == b;
    } else {
      assert (a + b)[1..] == a[1..] + b;
      SumConcat(a[1..], b, f);
    }
  }

  lemma {:induction false} CountConcat<T>(a: seq<T>, b: seq<T>, p: T -> bool)
    ensures Count(a + b, p) == Count(a, p) + Count(b, p)
  {
    if |a| == 0 {
      assert a + b == b;
    } else {
      assert (a + b)[1..] == a[1..] + b;
      CountConcat(a[1..], b, p);
    }
  }

  lemma {:induction false} SumOfNaturals<T>(s: seq<T>, f: T -> int)
    requires forall x :: x in s ==> f(x) >= 0
    ensures Sum(s, f) >= 0
  {
    if |s| > 0 {
      assert s[0] in s;
      SumOfNaturals(s[1..], f);
    }
  }

  /** Takes one occurrence of `x` out of `b`. */
  lemma PullOut<T>(x: T, b: seq<T>) returns (i: nat, rest: seq<T>)
    requires x in multiset(b)
    ensures i < |b| && b[i] == x && rest == b[..i] + b[i + 1..]
    ensures b == b[..i] + ([x] + b[i + 1..])
    ensures multiset(rest) == multiset(b) - multiset{x}
  {
    i :| 0 <= i < |b| && b[i] == x;
    rest := b[..i] + b[i + 1..];
    assert b == b[..i] + ([x] + b[i + 1..]);
    assert multiset(b) == multiset(b[..i]) + multiset([x]) + multiset(b[i + 1..]);
  }

  lemma SumOfFirst<T>(x: T, rest: seq<T>, f: T -> int)
    ensures Sum([x] + rest, f) == f(x) + Sum(rest, f)
  {
    assert ([x] + rest)[1..] == rest;
  }

  lemma SumWithout<T>(b: seq<T>, i: nat, f: T -> int)
    requires i < |b|
    ensures Sum(b, f) == Sum(b[..i] + b[i + 1..], f) + f(b[i])
  {
    hide Sum;
    assert b == b[..i] + ([b[i]] + b[i + 1..]);
    SumConcat(b[..i], [b[i]] + b[i + 1..], f);
    SumConcat(b[..i], b[i + 1..], f);
    SumOfFirst(b[i], b[i + 1..], f);
  }

  lemma {:induction false} SumPermutes<T>(a: seq<T>, b: seq<T>, f: T -> int)
    requires multiset(a) == multiset(b)
    ensures Sum(a, f) == Sum(b, f)
  {
    if |a| == 0 {
      assert |multiset(b)| == 0;
    } else {
      assert a == [a[0]] + a[1..];
      assert a[0] in multiset(a);
      var i, rest := PullOut(a[0], b);
      assert multiset(a[1..]) == multiset(a) - multiset{a[0]};
      SumPermutes(a[1..], rest, f);
      SumWithout(b, i, f);
    }
  }

  lemma {:induction false} CountPermutes<T>(a: seq<T>, b: seq<T>, p: T -> bool)
    requires multiset(a) == multiset(b)
    ensures Count(a, p) == Count(b, p)
  {
    if |a| == 0 {
      assert |multiset(b)| == 0;
    } else {
      assert a == [a[0]] + a[1..];
      assert a[0] in multiset(a);
      var i, rest := PullOut(a[0], b);
      assert multiset(a[1..]) == multiset(a) - multiset{a[0]};
      CountPermutes(a[1..], rest, p);
      CountConcat(b[..i], [a[0]] + b[i + 1..], p);
      CountConcat(b[..i], b[i + 1..], p);
      assert ([a[0]] + b[i + 1..])[1..] == b[i + 1..];
    }
  }

  // ------------------------------------------------------- without repetition

  ghost predicate NoRepeats<T>(s: seq<T>) { forall i, j :: 0 <= i < j < |s| ==> s[i] != s[j] }

  /** The members of a list, once each. */
  function Distinct<T(==,!new)>(s: seq<T>): (r: seq<T>)
    ensures forall x :: x in r <==> x in s
    ensures NoRepeats(r)
  {
    if |s| == 0 then []
    else
      var rest := Distinct(s[1..]);
      if s[0] in rest then rest else [s[0]] + rest
  }

  lemma {:induction false} OnceEach<T>(s: seq<T>, x: T)
    requires NoRepeats(s)
    ensures multiset(s)[x] == if x in s then 1 else 0
  {
    if |s| > 0 {
      OnceEach(s[1..], x);
      assert s == [s[0]] + s[1..];
      if x == s[0] {
        assert x !in s[1..];
      }
    }
  }

  lemma TwiceCounts<T>(t: seq<T>, j: nat, k: nat)
    requires j < k < |t| && t[j] == t[k]
    ensures multiset(t)[t[j]] >= 2
  {
    assert t == t[..j] + [t[j]] + t[j + 1..k] + [t[k]] + t[k + 1..];
  }

  lemma PermutedHasNoRepeats<T>(s: seq<T>, t: seq<T>)
    requires multiset(s) == multiset(t) && NoRepeats(s)
    ensures NoRepeats(t)
  {
    forall j, k | 0 <= j < k < |t| ensures t[j] != t[k] {
      if t[j] == t[k] {
        TwiceCounts(t, j, k);
        OnceEach(s, t[j]);
        assert false;
      }
    }
  }

  /** Two listings of the same members, each once, are permutations of each other. */
  lemma ListingsPermute<T>(s: seq<T>, t: seq<T>)
    requires NoRepeats(s) && NoRepeats(t) && forall x :: x in s <==> x in t
    ensures multiset(s) == multiset(t)
  {
    forall x: T ensures multiset(s)[x] == multiset(t)[x] {
      OnceEach(s, x);
      OnceEach(t, x);
    }
  }
}
