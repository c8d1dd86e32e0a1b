/** Facts about products, quotients and remainders that the solver is slow to find. */
module Arithmetic {
  lemma Monotone(a: int, b: int, factor: nat)
    ensures a <= b ==> a * factor <= b * factor
  {
  }

  lemma DivisionBounds(k: nat, divisor: nat)
    requires divisor > 0
    ensures k / divisor >= 0 && 0 <= k % divisor < divisor
    ensures k == k / divisor * divisor + k % divisor
  {
  }

  /** Quotient and remainder are unique. */
  lemma SameRemainder(k: int, quotient: int, divisor: nat, rest: int)
    requires 0 <= rest < divisor && k == quotient * divisor + rest
    ensures k / divisor == quotient && k % divisor == rest
  {
    var q := k / divisor;
    assert k == q * divisor + k % divisor;
    Monotone(q + 1, quotient, divisor);
    Monotone(quotient + 1, q, divisor);
  }

  lemma QuotientBelow(k: nat, divisor: nat, bound: nat)
    requires divisor > 0 && k < bound * divisor
    ensures k / divisor < bound
  {
    DivisionBounds(k, divisor);
    Monotone(bound, k / divisor, divisor);
  }
}
