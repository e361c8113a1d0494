/** The in-place kernels of numbaQC.py.  Each loops over half (h, apply_1qb)
    or a quarter (cz) of the index range, and iteration i rewrites only the
    amplitudes it addresses.  The source runs the iterations with `prange`;
    they touch pairwise disjoint cells (`PairsDisjoint`, `CZAddressInjective`),
    so the sequential loop here has the same effect.  Each method is proved
    equal to the per-index kernel of the same name in JaxQC. */
module NumbaQC {
  import opened Arith
  import opened BitIndex
  import opened Amplitude
  import JaxQC

  // ---------------------------------------------------------------------
  // Addressing

  /** `i % stripe + (i // stripe) * stride`: the pair's lower index j, which
      is i with a 0 bit put in at position q.  The upper index is j + stripe. */
  function PairLow(i: int, q: nat): (j: int)
    ensures j == Insert(i, q, 0)
    ensures j + Pow(2, q) == Insert(i, q, 1)
  {
    var s := Pow(2, q);
    assert (i / s) * (2 * s) + 0 * s + i % s == i % s + (i / s) * (2 * s);
    assert (i / s) * (2 * s) + 1 * s + i % s == i % s + (i / s) * (2 * s) + s;
    i % s + (i / s) * (2 * s)
  }

  /** For i < 2^(n-1) the pair (j, j + 2^q) lies in [0, 2^n), has bit q equal
      to 0 and 1, and both ends give back i when bit q is taken out. */
  lemma PairInRange(i: int, q: nat, n: nat)
    requires q < n && 0 <= i < Pow(2, n - 1)
    ensures 0 <= PairLow(i, q) && PairLow(i, q) + Pow(2, q) < Pow(2, n)
    ensures Bit(PairLow(i, q), q) == 0 && Bit(PairLow(i, q) + Pow(2, q), q) == 1
    ensures Remove(PairLow(i, q), q) == i && Remove(PairLow(i, q) + Pow(2, q), q) == i
  {
    InsertRange(i, q, 1, n - 1);
  }

  /** Distinct iterations address disjoint pairs. */
  lemma PairsDisjoint(i1: int, i2: int, q: nat)
    requires i1 != i2
    ensures {PairLow(i1, q), PairLow(i1, q) + Pow(2, q)} !! {PairLow(i2, q), PairLow(i2, q) + Pow(2, q)}
  {
    var s := Pow(2, q);
    var a1, b1, a2, b2 := PairLow(i1, q), PairLow(i1, q) + s, PairLow(i2, q), PairLow(i2, q) + s;
    assert Remove(a1, q) == i1 && Remove(b1, q) == i1;
    assert Remove(a2, q) == i2 && Remove(b2, q) == i2;
  }

  /** Every index below 2^n is one end of the pair of iteration Remove(x, q). */
  lemma PairOnto(x: int, q: nat, n: nat)
    requires 0 <= x < Pow(2, n) && q < n
    ensures 0 <= Remove(x, q) < Pow(2, n - 1)
    ensures x == if Bit(x, q) == 0 then PairLow(Remove(x, q), q) else PairLow(Remove(x, q), q) + Pow(2, q)
  {
    RemoveRange(x, q, n - 1);
    RemoveThenInsert(x, q);
  }

  /** The full address `l` of cz's iteration i, for q0 < q1: i with a 1 bit
      put in at q0 and then another at q1. */
  function CZAddress(i: int, q0: nat, q1: nat): (l: int)
    requires q0 < q1
    ensures l == Insert(Insert(i, q0, 1), q1, 1)
  {
    var stripe1, stripe0 := Pow(2, q1), Pow(2, q0);
    var stride1, stride0 := 2 * stripe1, 2 * stripe0;
    var count01 := Pow(2, q1 - q0 - 1);
    var quot0 := i / stripe0;
    var j := quot0 % count01;
    var quot1 := quot0 / count01;
    var k := i % stripe0;
    PowAdd(2, q1 - q0 - 1, q0 + 1);
    assert q1 - q0 - 1 + (q0 + 1) == q1;
    assert Pow(2, q0 + 1) == 2 * stripe0;
    assert stripe1 == count01 * (2 * stripe0);
    CZAddressArith(i, stripe0, count01);
    (quot1 * stride1 + stripe1) + (j * stride0 + stripe0) + k
  }

  /** The arithmetic behind CZAddress's contract, over a stripe s0 > 0 and a
      count t > 0 of small stripes per big stripe s1 = t * 2 * s0. */
  lemma CZAddressArith(i: int, s0: int, t: int)
    requires s0 > 0 && t > 0
    ensures var s1 := t * (2 * s0);
      var m := (i / s0) * (2 * s0) + 1 * s0 + i % s0;
      ((i / s0) / t) * (2 * s1) + s1 + (((i / s0) % t) * (2 * s0) + s0) + i % s0
        == (m / s1) * (2 * s1) + 1 * s1 + m % s1
  {
    var s1 := t * (2 * s0);
    var quot0, k := i / s0, i % s0;
    var j, quot1 := quot0 % t, quot0 / t;
    var m := quot0 * (2 * s0) + 1 * s0 + k;
    var low := j * (2 * s0) + s0 + k;
    assert quot0 == quot1 * t + j;
    assert quot0 * (2 * s0) == quot1 * s1 + j * (2 * s0);
    assert m == quot1 * s1 + low;
    assert 0 <= low < s1 by {
      assert j <= t - 1;
      MulMonotone(j, t - 1, 2 * s0);
      assert (t - 1) * (2 * s0) + 2 * s0 == s1;
    }
    DivModUnique(m, s1, quot1, low);
  }

  /** For i < 2^(n-2) the cz address is in range, has both bits set, and
      gives back i when both bits are taken out. */
  lemma CZAddressInRange(i: int, q0: nat, q1: nat, n: nat)
    requires q0 < q1 < n && 0 <= i < Pow(2, n - 2)
    ensures 0 <= CZAddress(i, q0, q1) < Pow(2, n)
    ensures Bit(CZAddress(i, q0, q1), q0) == 1 && Bit(CZAddress(i, q0, q1), q1) == 1
    ensures Remove(Remove(CZAddress(i, q0, q1), q1), q0) == i
  {
    var m := Insert(i, q0, 1);
    InsertRange(i, q0, 1, n - 2);
    assert n - 2 + 1 == n - 1;
    InsertRange(m, q1, 1, n - 1);
    InsertKeepsLowBits(m, q1, 1, q0);
  }

  /** Distinct iterations of cz negate distinct amplitudes. */
  lemma CZAddressInjective(i1: int, i2: int, q0: nat, q1: nat, n: nat)
    requires q0 < q1 < n && 0 <= i1 < Pow(2, n - 2) && 0 <= i2 < Pow(2, n - 2) && i1 != i2
    ensures CZAddress(i1, q0, q1) != CZAddress(i2, q0, q1)
  {
    CZAddressInRange(i1, q0, q1, n);
    CZAddressInRange(i2, q0, q1, n);
  }

  /** Every index below 2^n with bits q0 and q1 both set is the cz address
      of iteration Remove(Remove(x, q1), q0). */
  lemma CZAddressOnto(x: int, q0: nat, q1: nat, n: nat)
    requires q0 < q1 < n && 0 <= x < Pow(2, n)
    requires Bit(x, q0) == 1 && Bit(x, q1) == 1
    ensures 0 <= Remove(Remove(x, q1), q0) < Pow(2, n - 2)
    ensures CZAddress(Remove(Remove(x, q1), q0), q0, q1) == x
  {
    var m := Remove(x, q1);
    RemoveRange(x, q1, n - 1);
    assert n - 2 + 1 == n - 1;
    RemoveRange(m, q0, n - 2);
    RemoveKeepsLowBits(x, q1, q0);
    InsertOnto(m, q0, 1);
    InsertOnto(x, q1, 1);
  }

  /** Where cz's loop has got to: x is negated once iteration
      Remove(Remove(x, q1), q0) has run, if both its bits are set. */
  ghost predicate CZDone(x: int, q0: nat, q1: nat, i: int)
  {
    Bit(x, q0) == 1 && Bit(x, q1) == 1 && Remove(Remove(x, q1), q0) < i
  }

  /** cz's loop invariant: the amplitudes of iterations below i are negated,
      the rest are as they were. */
  ghost predicate CZProgress(cur: seq<Complex>, v0: seq<Complex>, q0: nat, q1: nat, i: int)
  {
    |cur| == |v0| &&
    forall x :: 0 <= x < |cur| ==> cur[x] == if CZDone(x, q0, q1, i) then Neg(v0[x]) else v0[x]
  }

  /** Before the first iteration nothing is negated. */
  lemma CZStart(v0: seq<Complex>, q0: nat, q1: nat, n: nat)
    requires q0 < q1 < n && |v0| == Pow(2, n)
    ensures CZProgress(v0, v0, q0, q1, 0)
  {
    forall x | 0 <= x < |v0| ensures !CZDone(x, q0, q1, 0) {
      RemoveRange(x, q1, n - 1);
      RemoveRange(Remove(x, q1), q0, n - 2);
    }
  }

  /** Iteration i negates the amplitude at its address and keeps the invariant. */
  lemma CZStep(prev: seq<Complex>, v0: seq<Complex>, q0: nat, q1: nat, n: nat, i: int)
    requires q0 < q1 < n && 0 <= i < Pow(2, n - 2) && |prev| == Pow(2, n)
    requires CZProgress(prev, v0, q0, q1, i)
    ensures 0 <= CZAddress(i, q0, q1) < |prev|
    ensures CZProgress(prev[CZAddress(i, q0, q1) := Neg(prev[CZAddress(i, q0, q1)])], v0, q0, q1, i + 1)
  {
    var l := CZAddress(i, q0, q1);
    CZAddressInRange(i, q0, q1, n);
    var cur := prev[l := Neg(prev[l])];
    forall x | 0 <= x < |cur|
      ensures cur[x] == if CZDone(x, q0, q1, i + 1) then Neg(v0[x]) else v0[x]
    {
      if x != l && CZDone(x, q0, q1, i + 1) {
        CZAddressOnto(x, q0, q1, n);
      }
    }
  }

  /** After the last iteration the vector is JaxQC's cz of the original. */
  lemma CZFinished(cur: seq<Complex>, v0: seq<Complex>, qb0: nat, qb1: nat, q0: nat, q1: nat, n: nat)
    requires q0 < q1 < n && |v0| == Pow(2, n)
    requires (q0 == qb0 && q1 == qb1) || (q0 == qb1 && q1 == qb0)
    requires CZProgress(cur, v0, q0, q1, Pow(2, n - 2))
    ensures cur == JaxQC.CZ(v0, qb0, qb1)
  {
    var r := JaxQC.CZ(v0, qb0, qb1);
    forall x | 0 <= x < |cur| ensures cur[x] == r[x] {
      if Bit(x, q0) == 1 && Bit(x, q1) == 1 {
        CZAddressOnto(x, q0, q1, n);
      }
    }
  }

  /** The invariant of h's and apply_1qb's loops: the pairs of iterations
      below i hold their final values, the rest are as they were. */
  ghost predicate PairProgress(cur: seq<Complex>, v0: seq<Complex>, target: seq<Complex>, q: nat, i: int)
  {
    |cur| == |v0| == |target| &&
    forall x :: 0 <= x < |cur| ==> cur[x] == if Remove(x, q) < i then target[x] else v0[x]
  }

  /** Before the first iteration every amplitude is as it was. */
  lemma PairStart(v0: seq<Complex>, target: seq<Complex>, q: nat, n: nat)
    requires q < n && |v0| == |target| == Pow(2, n)
    ensures PairProgress(v0, v0, target, q, 0)
  {
    forall x | 0 <= x < |v0| ensures Remove(x, q) >= 0 {
      RemoveRange(x, q, n - 1);
    }
  }

  /** Iteration i of a pair loop: both ends of pair i still hold their
      original values, and writing their targets keeps the invariant. */
  lemma PairStep(prev: seq<Complex>, v0: seq<Complex>, target: seq<Complex>, q: nat, n: nat, i: int)
    requires q < n && 0 <= i < Pow(2, n - 1) && |prev| == Pow(2, n)
    requires PairProgress(prev, v0, target, q, i)
    ensures 0 <= PairLow(i, q) && PairLow(i, q) + Pow(2, q) < |prev|
    ensures prev[PairLow(i, q)] == v0[PairLow(i, q)]
    ensures prev[PairLow(i, q) + Pow(2, q)] == v0[PairLow(i, q) + Pow(2, q)]
    ensures PairProgress(prev[PairLow(i, q) + Pow(2, q) := target[PairLow(i, q) + Pow(2, q)]]
                             [PairLow(i, q) := target[PairLow(i, q)]], v0, target, q, i + 1)
  {
    var j, k := PairLow(i, q), PairLow(i, q) + Pow(2, q);
    PairInRange(i, q, n);
    var cur := prev[k := target[k]][j := target[j]];
    forall x | 0 <= x < |cur|
      ensures cur[x] == if Remove(x, q) < i + 1 then target[x] else v0[x]
    {
      PairOnto(x, q, n);
    }
  }

  /** After the last iteration every pair holds its target. */
  lemma PairFinished(cur: seq<Complex>, v0: seq<Complex>, target: seq<Complex>, q: nat, n: nat)
    requires q < n && |cur| == Pow(2, n)
    requires PairProgress(cur, v0, target, q, Pow(2, n - 1))
    ensures cur == target
  {
    forall x | 0 <= x < |cur| ensures cur[x] == target[x] {
      PairOnto(x, q, n);
    }
  }

  /** Iteration i of h writes the pair's Hadamard values and keeps the
      invariant towards JaxQC's h. */
  lemma HStep(prev: seq<Complex>, v0: seq<Complex>, n: nat, q: nat, c: real, i: int, j: int, k: int)
    requires q < n && 0 <= i < Pow(2, n - 1) && |prev| == |v0| == Pow(2, n)
    requires j == i % Pow(2, q) + (i / Pow(2, q)) * (2 * Pow(2, q)) && k == j + Pow(2, q)
    requires PairProgress(prev, v0, JaxQC.H(n, v0, q, c), q, i)
    ensures 0 <= j < k < |prev|
    ensures PairProgress(prev[k := Scale(Sub(prev[j], prev[k]), c)][j := Scale(Add(prev[j], prev[k]), c)],
                         v0, JaxQC.H(n, v0, q, c), q, i + 1)
  {
    var target := JaxQC.H(n, v0, q, c);
    assert j == PairLow(i, q);
    PairInRange(i, q, n);
    PairStep(prev, v0, target, q, n, i);
  }

  /** Iteration i of apply_1qb writes the pair's images under op and keeps
      the invariant towards JaxQC's u. */
  lemma UStep(prev: seq<Complex>, v0: seq<Complex>, n: nat, op: Matrix2, q: nat, i: int, j: int, k: int)
    requires q < n && 0 <= i < Pow(2, n - 1) && |prev| == |v0| == Pow(2, n)
    requires j == i % Pow(2, q) + (i / Pow(2, q)) * (2 * Pow(2, q)) && k == j + Pow(2, q)
    requires PairProgress(prev, v0, JaxQC.U(n, v0, op, q), q, i)
    ensures 0 <= j < k < |prev|
    ensures PairProgress(prev[k := Add(Mul(op.m10, prev[j]), Mul(op.m11, prev[k]))]
                             [j := Add(Mul(op.m00, prev[j]), Mul(op.m01, prev[k]))],
                         v0, JaxQC.U(n, v0, op, q), q, i + 1)
  {
    var target := JaxQC.U(n, v0, op, q);
    assert j == PairLow(i, q);
    PairInRange(i, q, n);
    PairStep(prev, v0, target, q, n, i);
    MulCommutes(op.m00, v0[j]);
    MulCommutes(op.m01, v0[k]);
    MulCommutes(op.m10, v0[j]);
    MulCommutes(op.m11, v0[k]);
  }

  // ---------------------------------------------------------------------
  // Kernels

  /** `cz(n, qb0, qb1, vec)`: negates every amplitude whose bits qb0 and qb1
      are both set.  The source needs two different qubits (with equal ones
      `count_01` is not an integer). */
  method CZ(n: nat, qb0: nat, qb1: nat, vec: array<Complex>)
    requires qb0 != qb1 && qb0 < n && qb1 < n && vec.Length == Pow(2, n)
    modifies vec
    ensures vec[..] == JaxQC.CZ(old(vec[..]), qb0, qb1)
  {
    var q0 := if qb0 < qb1 then qb0 else qb1;
    var q1 := if qb0 < qb1 then qb1 else qb0;
    var stripe1 := Pow(2, q1);
    var stride1 := 2 * stripe1;
    var stripe0 := Pow(2, q0);
    var stride0 := 2 * stripe0;
    var count01 := Pow(2, q1 - q0 - 1);
    ghost var v0 := vec[..];
    CZStart(v0, q0, q1, n);
    for i := 0 to Pow(2, n - 2)
      invariant CZProgress(vec[..], v0, q0, q1, i)
    {
      var quot0 := i / stripe0;
      var j := quot0 % count01;
      var quot1 := quot0 / count01;
      var k := i % stripe0;
      var l := (quot1 * stride1 + stripe1) + (j * stride0 + stripe0) + k;
      assert l == CZAddress(i, q0, q1);
      CZStep(vec[..], v0, q0, q1, n, i);
      vec[l] := Neg(vec[l]);
    }
    CZFinished(vec[..], v0, qb0, qb1, q0, q1, n);
  }

  /** `h(n, qb0, vec)`: the Hadamard gate on qubit qb0, in place.  The source's
      factor `sq2d = 1/sqrt(2)` is the parameter c. */
  method H(n: nat, qb0: nat, vec: array<Complex>, c: real)
    requires qb0 < n && vec.Length == Pow(2, n)
    modifies vec
    ensures vec[..] == JaxQC.H(n, old(vec[..]), qb0, c)
  {
    var count := Pow(2, n - 1);
    var stripe := Pow(2, qb0);
    var stride := 2 * stripe;
    ghost var v0 := vec[..];
    ghost var target := JaxQC.H(n, v0, qb0, c);
    PairStart(v0, target, qb0, n);
    for i := 0 to count
      invariant PairProgress(vec[..], v0, target, qb0, i)
    {
      var quot := i / stripe;
      var j := i % stripe + quot * stride;
      var k := j + stripe;
      HStep(vec[..], v0, n, qb0, c, i, j, k);
      ghost var prev := vec[..];
      var temp0 := Scale(Add(vec[j], vec[k]), c);
      vec[k] := Scale(Sub(vec[j], vec[k]), c);
      vec[j] := temp0;
      assert vec[..] == prev[k := Scale(Sub(prev[j], prev[k]), c)][j := temp0];
    }
    PairFinished(vec[..], v0, target, qb0, n);
  }

  /** `apply_1qb(n, op, qb0, vec)`: the one-qubit gate op on qubit qb0, in place. */
  method Apply1(n: nat, op: Matrix2, qb0: nat, vec: array<Complex>)
    requires qb0 < n && vec.Length == Pow(2, n)
    modifies vec
    ensures vec[..] == JaxQC.U(n, old(vec[..]), op, qb0)
  {
    var count := Pow(2, n - 1);
    var stripe := Pow(2, qb0);
    var stride := 2 * stripe;
    ghost var v0 := vec[..];
    ghost var target := JaxQC.U(n, v0, op, qb0);
    PairStart(v0, target, qb0, n);
    for i := 0 to count
      invariant PairProgress(vec[..], v0, target, qb0, i)
    {
      var quot := i / stripe;
      var j := i % stripe + quot * stride;
      var k := j + stripe;
      UStep(vec[..], v0, n, op, qb0, i, j, k);
      ghost var prev := vec[..];
      var temp0 := Add(Mul(op.m00, vec[j]), Mul(op.m01, vec[k]));
      var temp1 := Add(Mul(op.m10, vec[j]), Mul(op.m11, vec[k]));
      vec[k] := temp1;
      vec[j] := temp0;
      assert vec[..] == prev[k := temp1][j := temp0];
    }
    PairFinished(vec[..], v0, target, qb0, n);
  }
}
