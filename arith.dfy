/** Facts about integer division and multiplication shared by the pagination and the
    percentage arithmetic. */
module Arith {

  /** Dafny's division of `n` by a positive `d` leaves a remainder from 0 to d - 1. */
  lemma DivBounds(n: int, d: int)
    requires d > 0
    ensures d * (n / d) <= n < d * (n / d) + d
  {
  }

  /** Multiplying by a positive factor keeps the order. */
  lemma MulMonotone(c: int, a: int, b: int)
    requires c > 0 && a <= b
    ensures c * a <= c * b
  {
  }
}
