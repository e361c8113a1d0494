/** Little-endian positional notation in a base b >= 2: digit k weighs b^k.
    Noise integers are read in base 4 (one Pauli label per qubit) and
    classical conditions in base 2 (one register bit per position). */
module Radix {
  import opened Arith

  /** The value of a little-endian digit sequence, sum of d[k] * b^k. */
  function LittleEndian(d: seq<int>, b: int): int
  {
    if d == [] then 0 else d[0] + b * LittleEndian(d[1..], b)
  }

  /** The n lowest digits of p, least significant first: repeated `divmod(p, b)`.
      For a positive base Dafny's `/` and `%` round like Python's `divmod`,
      so negative p is split the same way. */
  function Digits(n: nat, p: int, b: int): (r: seq<int>)
    requires b > 0
    ensures |r| == n
    ensures forall k :: 0 <= k < n ==> 0 <= r[k] < b
  {
    if n == 0 then [] else [p % b] + Digits(n - 1, p / b, b)
  }

  /** Every entry is a digit of base b. */
  predicate AllDigits(d: seq<int>, b: int)
  {
    forall k :: 0 <= k < |d| ==> 0 <= d[k] < b
  }

  /** Digits then value keeps the n low digits: the result is p mod b^n. */
  lemma {:induction false} LittleEndianOfDigits(n: nat, p: int, b: nat)
    requires b > 0
    ensures LittleEndian(Digits(n, p, b), b) == p % Pow(b, n)
  {
    if n == 0 {
      assert p % 1 == 0;
    } else {
      var d := Digits(n, p, b);
      assert d[1..] == Digits(n - 1, p / b, b);
      LittleEndianOfDigits(n - 1, p / b, b);
      ModOfProduct(p, b, Pow(b, n - 1));
    }
  }

  /** p mod (b * m) splits into the low digit and the rest mod m. */
  lemma ModOfProduct(p: int, b: int, m: int)
    requires b > 0 && m > 0
    ensures p % (b * m) == p % b + b * ((p / b) % m)
  {
    var q1, r1 := p / b, p % b;
    var q2, r2 := q1 / m, q1 % m;
    assert p == q1 * b + r1;
    assert q1 == q2 * m + r2;
    assert p == q2 * (b * m) + (b * r2 + r1);
    assert 0 <= b * r2 + r1 < b * m by {
      MulMonotone(r2, m - 1, b);
      assert (m - 1) * b + b == b * m;
    }
    DivModUnique(p, b * m, q2, b * r2 + r1);
  }

  /** A sequence of digits is below b^|d|. */
  lemma {:induction false} LittleEndianBound(d: seq<int>, b: nat)
    requires b > 0 && AllDigits(d, b)
    ensures 0 <= LittleEndian(d, b) < Pow(b, |d|)
  {
    if d != [] {
      LittleEndianBound(d[1..], b);
      var rest := LittleEndian(d[1..], b);
      MulMonotone(rest, Pow(b, |d| - 1) - 1, b);
      assert (Pow(b, |d| - 1) - 1) * b + b == b * Pow(b, |d| - 1);
    }
  }

  /** Value then digits gives the digits back. */
  lemma {:induction false} DigitsOfLittleEndian(d: seq<int>, b: nat)
    requires b > 0 && AllDigits(d, b)
    ensures Digits(|d|, LittleEndian(d, b), b) == d
  {
    if d != [] {
      var v := LittleEndian(d, b);
      var rest := LittleEndian(d[1..], b);
      assert v == rest * b + d[0];
      DivModUnique(v, b, rest, d[0]);
      DigitsOfLittleEndian(d[1..], b);
    }
  }

  /** So for 0 <= p < b^n the n digits of p give p back. */
  lemma DigitsRoundTrip(n: nat, p: int, b: nat)
    requires b > 0 && 0 <= p < Pow(b, n)
    ensures LittleEndian(Digits(n, p, b), b) == p
  {
    LittleEndianOfDigits(n, p, b);
    DivModUnique(p, Pow(b, n), 0, p);
  }
}
