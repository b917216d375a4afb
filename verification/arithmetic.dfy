/** The few facts about multiplication and integer division the schedule and the token bucket need. */
module Arithmetic {
  lemma {:induction false} TimesAtMost(a: nat, b: nat, c: nat)
    requires b <= c
    ensures a * b <= a * c
  {
  }

  lemma {:induction false} CancelFactor(x: nat, y: nat, factor: nat)
    requires x * factor < y * factor
    ensures x < y
  {
    if x >= y {
      TimesAtMost(factor, y, x);
    }
  }

  lemma {:induction false} DivisionAtLeast(a: nat, b: nat, q: nat)
    requires b > 0 && q * b <= a
    ensures q <= a / b
  {
    assert a < (a / b + 1) * b;
    CancelFactor(q, a / b + 1, b);
  }

  lemma {:induction false} DivisionIs(a: nat, b: nat, q: nat)
    requires b > 0 && q * b <= a < (q + 1) * b
    ensures a / b == q
  {
    DivisionAtLeast(a, b, q);
    assert (a / b) * b <= a;
    CancelFactor(a / b, q + 1, b);
  }

  lemma {:induction false} DivisionMonotone(a: nat, b: nat, d: nat)
    requires d > 0 && a <= b
    ensures a / d <= b / d
  {
    DivisionAtLeast(b, d, a / d);
  }

  /** Adding a multiple of the divisor moves the quotient by as much. */
  lemma {:induction false} DivisionShift(a: nat, k: nat, d: nat)
    requires d > 0
    ensures (a + k * d) / d == a / d + k
  {
    var q := a / d;
    assert q * d <= a < (q + 1) * d;
    assert (q + k) * d == q * d + k * d && (q + k + 1) * d == (q + 1) * d + k * d;
    DivisionIs(a + k * d, d, q + k);
  }

  /** Rounding down a sum loses at most one. */
  lemma {:induction false} FloorSum(a: nat, b: nat, d: nat)
    requires d > 0
    ensures a / d + b / d <= (a + b) / d <= a / d + b / d + 1
  {
    assert a + b == (a % d + b % d) + (a / d + b / d) * d;
    DivisionShift(a % d + b % d, a / d + b / d, d);
    DivisionMonotone(a % d + b % d, 2 * d - 1, d);
    DivisionIs(2 * d - 1, d, 1);
  }
}
