/** Amplitudes as exact complex numbers over `real`.  The source uses
    complex128; this model keeps the same operations without rounding. */
module Amplitude {

  datatype Complex = Complex(re: real, im: real)

  const Zero := Complex(0.0, 0.0)
  const One := Complex(1.0, 0.0)
  const MinusOne := Complex(-1.0, 0.0)

  /** A caller-supplied 2x2 gate matrix [[m00, m01], [m10, m11]]; nothing
      requires it to be unitary. */
  datatype Matrix2 = Matrix2(m00: Complex, m01: Complex, m10: Complex, m11: Complex)
  {
    /** The entry `op[row, col]`. */
    function Entry(row: int, col: int): Complex
      requires 0 <= row < 2 && 0 <= col < 2
    {
      if row == 0 then (if col == 0 then m00 else m01)
      else (if col == 0 then m10 else m11)
    }
  }

  function Add(a: Complex, b: Complex): Complex
  {
    Complex(a.re + b.re, a.im + b.im)
  }

  function Sub(a: Complex, b: Complex): Complex
  {
    Complex(a.re - b.re, a.im - b.im)
  }

  function Neg(a: Complex): Complex
  {
    Complex(-a.re, -a.im)
  }

  function Mul(a: Complex, b: Complex): Complex
  {
    Complex(a.re * b.re - a.im * b.im, a.re * b.im + a.im * b.re)
  }

  /** Multiplication by a real number, such as the factor 1/sqrt(2). */
  function Scale(a: Complex, c: real): Complex
  {
    Complex(a.re * c, a.im * c)
  }

  /** A real number as a complex number. */
  function OfReal(x: real): Complex
  {
    Complex(x, 0.0)
  }

  lemma MulCommutes(a: Complex, b: Complex)
    ensures Mul(a, b) == Mul(b, a)
  {
  }

  /** (a + b) c + (a - b) c == 2 c^2 a, and so a whenever c * c == 1/2. */
  lemma HadamardPairSum(a: Complex, b: Complex, c: real)
    requires c * c == 0.5
    ensures Scale(Add(Scale(Add(a, b), c), Scale(Sub(a, b), c)), c) == a
  {
    assert (a.re + b.re) * c + (a.re - b.re) * c == 2.0 * a.re * c;
    assert 2.0 * a.re * c * c == a.re * (2.0 * (c * c));
    assert (a.im + b.im) * c + (a.im - b.im) * c == 2.0 * a.im * c;
    assert 2.0 * a.im * c * c == a.im * (2.0 * (c * c));
  }

  /** (a + b) c - (a - b) c == 2 c^2 b, and so b whenever c * c == 1/2. */
  lemma HadamardPairDifference(a: Complex, b: Complex, c: real)
    requires c * c == 0.5
    ensures Scale(Sub(Scale(Add(a, b), c), Scale(Sub(a, b), c)), c) == b
  {
    assert (a.re + b.re) * c - (a.re - b.re) * c == 2.0 * b.re * c;
    assert 2.0 * b.re * c * c == b.re * (2.0 * (c * c));
    assert (a.im + b.im) * c - (a.im - b.im) * c == 2.0 * b.im * c;
    assert 2.0 * b.im * c * c == b.im * (2.0 * (c * c));
  }

  lemma MulOfReal(a: Complex, c: real)
    ensures Mul(a, OfReal(c)) == Scale(a, c)
  {
  }
}
