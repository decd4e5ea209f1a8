/** Arithmetic on reals that several parts share. */
module Reals {

  function Abs(x: real): real { if x < 0.0 then -x else x }

  function MaxReal(a: real, b: real): real { if a < b then b else a }

  lemma Rectangle(a: real, b: real)
    requires a >= 0.0 && b >= 0.0
    ensures a * b >= 0.0
  {
  }
}
