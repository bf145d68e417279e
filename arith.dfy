/** Facts about multiplication and Euclidean division by a positive divisor
    that the solver does not find by itself. */
module Arith {

  lemma MulMonotone(a: int, b: int, d: int)
    requires a <= b && d > 0
    ensures a * d <= b * d
  {
  }

  /** Euclidean division of a multiple of d by d is exact. */
  lemma ModOfMultiple(k: int, d: int)
    requires d > 0
    ensures (k * d) % d == 0 && (k * d) / d == k
  {
    var x := k * d;
    var qt, rm := x / d, x % d;
    assert x == qt * d + rm && 0 <= rm < d;
    assert (k - qt) * d == rm;
    if k - qt >= 1 {
      MulMonotone(1, k - qt, d);
    } else if k - qt <= -1 {
      MulMonotone(1, qt - k, d);
    }
  }
}
