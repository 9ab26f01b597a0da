/**
 * C integer semantics that differ from Dafny's: `/` on signed integers
 * truncates toward zero in C (C99 6.5.5), while Dafny's `/` is Euclidean.
 */
module CInt {

  function Abs(a: int): nat {
    if a < 0 then -a else a
  }

  /** `a / b` as C computes it on signed operands: divide the magnitudes, then apply the sign. */
  function CDiv(a: int, b: int): int
    requires b != 0
  {
    if (a >= 0) == (b > 0) then Abs(a) / Abs(b) else -(Abs(a) / Abs(b))
  }

  /** Truncation toward zero: the magnitude of the quotient is the quotient of the magnitudes, and its sign is the product of the signs. */
  lemma {:induction false} CDivTruncates(a: int, b: int)
    requires b != 0
    ensures Abs(CDiv(a, b)) == Abs(a) / Abs(b)
    ensures CDiv(a, b) > 0 ==> (a > 0 <==> b > 0)
    ensures CDiv(a, b) < 0 ==> (a > 0 <==> b < 0)
  {
    DivNonNegative(Abs(a), Abs(b));
    if Abs(a) < Abs(b) {
      DivSmall(Abs(a), Abs(b));
    }
  }

  lemma {:induction false} CDivAgreesOnNonNegative(a: int, b: int)
    requires a >= 0 && b > 0
    ensures CDiv(a, b) == a / b
  {
  }

  /**
   * Where C and Dafny disagree: a negative dividend over a positive divisor
   * is the negated quotient of its magnitude in C, which is one more than
   * Dafny's (floored) quotient whenever the division is inexact.
   */
  lemma {:induction false} CDivOfNegative(x: int, d: int)
    requires x < 0 && d > 0
    ensures CDiv(x, d) == -((-x) / d)
    ensures x % d != 0 ==> CDiv(x, d) == x / d + 1
    ensures x % d == 0 ==> CDiv(x, d) == x / d
  {
    var q, r := (-x) / d, (-x) % d;
    assert -x == q * d + r && 0 <= r < d;
    if r == 0 {
      DivExact(x, d, -q);
    } else {
      assert x == (-q - 1) * d + (d - r);
      DivExact(x - (d - r), d, -q - 1);
      DivShift(x - (d - r), d, d - r);
    }
  }

  /** Adding less than the divisor to a multiple of it does not change the quotient. */
  lemma {:induction false} DivShift(m: int, d: int, r: int)
    requires d > 0 && m % d == 0 && 0 <= r < d
    ensures (m + r) / d == m / d && (m + r) % d == r
  {
    var q := m / d;
    assert m == q * d;
    var q', r' := (m + r) / d, (m + r) % d;
    assert m + r == q' * d + r' && 0 <= r' < d;
    if q' < q {
      MulMonotone(q' + 1, q, d);
    } else if q' > q {
      MulMonotone(q + 1, q', d);
    }
  }

  lemma {:induction false} CDivMonotone(a: int, a': int, b: int)
    requires b > 0 && a <= a'
    ensures CDiv(a, b) <= CDiv(a', b)
  {
    DivNonNegative(Abs(a), b);
    DivNonNegative(Abs(a'), b);
    if a >= 0 {
      DivMonotone(a, a', b);
    } else if a' < 0 {
      DivMonotone(-a', -a, b);
    }
  }

  lemma {:induction false} DivNonNegative(x: nat, y: int)
    requires y > 0
    ensures x / y >= 0
  {
  }

  lemma {:induction false} DivSmall(x: nat, y: int)
    requires 0 <= x < y
    ensures x / y == 0
  {
  }

  lemma {:induction false} DivMonotone(a: nat, a': nat, b: int)
    requires b > 0 && a <= a'
    ensures a / b <= a' / b
  {
    if a / b > a' / b {
      assert (a / b) * b <= a;
      assert (a' / b + 1) * b > a';
      MulMonotone(a' / b + 1, a / b, b);
    }
  }

  lemma {:induction false} MulMonotone(x: int, y: int, b: int)
    requires x <= y && b > 0
    ensures x * b <= y * b
  {
  }

  /** A multiple of `b` divided by `b` gives back its factor. */
  lemma {:induction false} DivExact(x: int, b: int, q: int)
    requires b > 0 && x == q * b
    ensures x / b == q
  {
    var r := x / b;
    assert x == r * b + x % b && 0 <= x % b < b;
    if r < q {
      MulMonotone(r + 1, q, b);
    } else if r > q {
      MulMonotone(q + 1, r, b);
    }
  }
}
