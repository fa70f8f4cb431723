/** Real arithmetic that several modules need. */
module Reals {

  function Min(a: real, b: real): real { if a <= b then a else b }

  function Max(a: real, b: real): real { if a >= b then a else b }

  function Abs(a: real): real { if a >= 0.0 then a else -a }

  lemma RatioInUnit(a: real, b: real)
    requires 0.0 <= a <= b && b > 0.0
    ensures 0.0 <= a / b <= 1.0
  {
    var q := a / b;
    QuotientTimesDivisor(a, b);
    SignOfFactor(q, b);
    assert (1.0 - q) * b == b - q * b;
    SignOfFactor(1.0 - q, b);
  }

  lemma QuotientTimesDivisor(a: real, b: real)
    requires b != 0.0
    ensures (a / b) * b == a
  {}

  lemma SignOfFactor(q: real, b: real)
    requires b > 0.0 && q * b >= 0.0
    ensures q >= 0.0
  {}

  lemma ProductInUnit(a: real, b: real)
    requires 0.0 <= a <= 1.0 && 0.0 <= b <= 1.0
    ensures 0.0 <= a * b <= 1.0
    ensures a * b <= a && a * b <= b
  {
    assert a - a * b == a * (1.0 - b);
    assert b - a * b == b * (1.0 - a);
  }
}
