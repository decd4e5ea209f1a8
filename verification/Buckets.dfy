/** Epoch-aligned buckets: rounding down, and the run of bucket starts a collector asks for
    (`floor_to_bucket` and `_buckets_to_collect` of the keyed collectors). */
module Buckets {
  import opened Wrappers
  import opened KeyedSearch

  function FloorToBucket(t: int, width: int): int
    requires width > 0
  {
    t - t % width
  }

  lemma {:induction false} AtLeastOnce(width: int, d: int)
    requires width > 0 && d >= 1
    ensures width * d >= width
  {
    if d > 1 {
      AtLeastOnce(width, d - 1);
      assert width * d == width * (d - 1) + width;
    }
  }

  lemma OrderedProducts(width: int, a: int, b: int)
    requires width > 0 && a < b
    ensures width * a + width <= width * b
  {
    AtLeastOnce(width, b - a);
    assert width * (b - a) == width * b - width * a;
  }

  /** Quotient and remainder are unique. */
  lemma DivisionIsUnique(x: int, width: int, q: int, r: int)
    requires width > 0 && 0 <= r < width && x == width * q + r
    ensures x / width == q && x % width == r
  {
    var q', r' := x / width, x % width;
    assert x == width * q' + r';
    if q < q' {
      OrderedProducts(width, q, q');
    } else if q' < q {
      OrderedProducts(width, q', q);
    }
  }

  lemma OneMore(x: int, width: int)
    requires width > 0
    ensures (x + width) % width == x % width && (x + width) / width == x / width + 1
  {
    var q, r := x / width, x % width;
    assert x == width * q + r;
    assert width * (q + 1) == width * q + width;
    DivisionIsUnique(x + width, width, q + 1, r);
  }

  /** Rounding down gives the last bucket start that is not after `t`. */
  lemma FloorIsAligned(t: int, width: int)
    requires width > 0
    ensures FloorToBucket(t, width) % width == 0
    ensures FloorToBucket(t, width) <= t < FloorToBucket(t, width) + width
  {
    var q := t / width;
    assert t == width * q + t % width;
    DivisionIsUnique(width * q, width, q, 0);
  }

  lemma FloorIsMonotone(s: int, t: int, width: int)
    requires width > 0 && s <= t
    ensures FloorToBucket(s, width) <= FloorToBucket(t, width)
  {
    var q, q' := s / width, t / width;
    assert s == width * q + s % width;
    assert t == width * q' + t % width;
    if q' < q {
      OrderedProducts(width, q', q);
    } else if q < q' {
      OrderedProducts(width, q, q');
    }
  }

  /** At most `limit` settled bucket starts from `first`, oldest first. */
  function Starts(first: int, boundary: int, width: int, limit: nat): seq<int>
    decreases limit
  {
    if first + width <= boundary && limit > 0 then [first] + Starts(first + width, boundary, width, limit - 1) else []
  }

  lemma {:induction false} StartsFollow(first: int, boundary: int, width: int, limit: nat, p: Plan)
    requires width > 0 && p.width == width && p.start == first
    decreases limit
    ensures |Starts(first, boundary, width, limit)| <= limit
    ensures forall i :: 0 <= i < |Starts(first, boundary, width, limit)| ==> Starts(first, boundary, width, limit)[i] == p.At(i)
    ensures forall i :: 0 <= i < |Starts(first, boundary, width, limit)| ==> p.At(i) + width <= boundary
  {
    if first + width <= boundary && limit > 0 {
      var p' := Plan(first + width, width, p.maxRows);
      StartsFollow(first + width, boundary, width, limit - 1, p');
      var starts, rest := Starts(first, boundary, width, limit), Starts(first + width, boundary, width, limit - 1);
      forall i | 0 <= i < |starts| ensures starts[i] == p.At(i) && p.At(i) + width <= boundary {
        if i > 0 {
          Shifted(p, p', i - 1);
          assert starts[i] == rest[i - 1];
        }
      }
    }
  }

  lemma {:induction false} Shifted(p: Plan, p': Plan, i: nat)
    requires p'.width == p.width && p'.start == p.start + p.width
    ensures p'.At(i) == p.At(i + 1)
  {
    if i > 0 {
      Shifted(p, p', i - 1);
    }
  }

  lemma {:induction false} AlignedAt(p: Plan, i: nat)
    requires p.width > 0 && p.start % p.width == 0
    ensures p.At(i) % p.width == 0
  {
    if i > 0 {
      AlignedAt(p, i - 1);
      OneMore(p.At(i - 1), p.width);
    }
  }

  lemma WindowLength(first: int, boundary: int, width: int, limit: nat)
    requires width > 0 && Starts(first, boundary, width, limit) != []
    ensures var starts := Starts(first, boundary, width, limit);
            var end := starts[|starts| - 1] + width;
            starts[0] == first && end - first == width * |starts| && (end - first) / width == |starts| && end <= boundary
  {
    var p, n := Plan(first, width, 0), |Starts(first, boundary, width, limit)|;
    StartsFollow(first, boundary, width, limit, p);
    AtIsLinear(p, n - 1);
    assert width * (n - 1) + width == width * n;
    DivisionIsUnique(width * n, width, n, 0);
  }

  /** The window from the first to the last start is whole, aligned buckets: it is refused only for
      being longer than the safety bound. */
  lemma WindowIsWhole(first: int, boundary: int, width: int, limit: nat)
    requires width > 0 && first % width == 0 && Starts(first, boundary, width, limit) != []
    ensures var starts := Starts(first, boundary, width, limit);
            ValidateWindow(first, starts[|starts| - 1] + width, width)
            == if width * |starts| > MAX_WINDOW_SECONDS then Err(TooLong) else Ok((first, starts[|starts| - 1] + width))
  {
    var starts := Starts(first, boundary, width, limit);
    var p, n := Plan(first, width, 0), |starts|;
    WindowLength(first, boundary, width, limit);
    StartsFollow(first, boundary, width, limit, p);
    AlignedAt(p, n - 1);
    OneMore(p.At(n - 1), width);
    DivisionIsUnique(width * n, width, n, 0);
    AtLeastOnce(width, n);
  }

  /** The loop that lists the starts. */
  method ListStarts(first: int, boundary: int, width: int, limit: nat) returns (out: seq<int>)
    requires width > 0
    ensures out == Starts(first, boundary, width, limit)
  {
    out := [];
    var cursor := first;
    while cursor + width <= boundary && |out| < limit
      invariant |out| <= limit
      invariant out + Starts(cursor, boundary, width, limit - |out|) == Starts(first, boundary, width, limit)
      decreases limit - |out|
    {
      out := out + [cursor];
      cursor := cursor + width;
    }
  }
}
