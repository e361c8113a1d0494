/** Integer facts shared by both engines: powers and the uniqueness of
    Euclidean division.  Every divisor in the model is positive, and for a
    positive divisor Dafny's `/` and `%` agree with Python's `//` and `%`. */
module Arith {

  /** b to the power n (Python's `b**n` for a non-negative exponent). */
  function Pow(b: nat, n: nat): (r: nat)
    ensures b > 0 ==> r > 0
  {
    if n == 0 then 1 else b * Pow(b, n - 1)
  }

  lemma {:induction false} PowAdd(b: nat, m: nat, n: nat)
    ensures Pow(b, m + n) == Pow(b, m) * Pow(b, n)
  {
    if m > 0 {
      var p, q := Pow(b, m - 1), Pow(b, n);
      PowAdd(b, m - 1, n);
      assert Pow(b, m + n) == b * Pow(b, m - 1 + n);
      MulAssociates(b, p, q);
    }
  }

  lemma MulAssociates(a: int, b: int, c: int)
    ensures a * (b * c) == (a * b) * c
  {
  }

  /** The quotient and remainder of a division by a positive number are the
      only pair that reassembles the dividend with the remainder in range. */
  lemma DivModUnique(x: int, d: int, q: int, r: int)
    requires 0 < d && 0 <= r < d && x == q * d + r
    ensures x / d == q && x % d == r
  {
    var q', r' := x / d, x % d;
    assert x == q' * d + r';
    assert (q - q') * d == r' - r;
    if q' < q {
      MulAtLeast(q - q', d);
    } else if q < q' {
      MulAtLeast(q' - q, d);
    }
  }

  lemma MulAtLeast(k: int, d: int)
    requires k >= 1 && d > 0
    ensures k * d >= d
  {
    assert k * d == (k - 1) * d + d;
    assert (k - 1) * d >= 0;
  }

  /** A quotient by d is below k when the dividend is below k * d. */
  lemma DivBelow(x: int, d: int, k: int)
    requires 0 <= x < k * d && d > 0
    ensures 0 <= x / d < k
  {
    var q := x / d;
    assert x == q * d + x % d;
    if q >= k {
      MulMonotone(k, q, d);
    }
  }

  lemma MulMonotone(a: int, b: int, d: int)
    requires a <= b && d >= 0
    ensures a * d <= b * d
  {
    assert b * d == a * d + (b - a) * d;
  }

  /** One more multiple: a * d + d == (a + 1) * d. */
  lemma MulSucc(a: int, d: int)
    ensures a * d + d == (a + 1) * d
  {
  }
}
