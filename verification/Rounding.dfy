/** Python's `round`: to the nearest, a half to the even neighbour. */
module Rounding {

  function Round(x: real): (r: int)
    ensures r as real - 0.5 <= x <= r as real + 0.5
    ensures x == r as real - 0.5 || x == r as real + 0.5 ==> r % 2 == 0
  {
    var low := x.Floor;
    var part := x - low as real;
    if part < 0.5 then low else if part > 0.5 then low + 1 else if low % 2 == 0 then low else low + 1
  }

  /** To four places. */
  function RoundTo4(x: real): (r: real)
    ensures -0.00005 <= r - x <= 0.00005
  {
    Round(x * 10000.0) as real / 10000.0
  }

  /** The two clauses of the contract leave no choice. */
  lemma RoundIsUnique(x: real, r: int)
    requires r as real - 0.5 <= x <= r as real + 0.5
    requires x == r as real - 0.5 || x == r as real + 0.5 ==> r % 2 == 0
    ensures r == Round(x)
  {
    assert r - 1 <= Round(x) <= r + 1;
  }
}
