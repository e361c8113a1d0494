/** The array-expression kernels of experimental/jaxQC.py.  Each kernel maps
    every index i of `idxState = arange(2**nq)` to its output amplitude by
    extracting bits of i; here the index array is implicit (index x of the
    result), and the exact amplitude type stands for complex128.  These
    per-index definitions are also the reference the in-place kernels of
    numbaQC.py and numpyQC.py are proved against. */
module JaxQC {
  import opened Arith
  import opened BitIndex
  import opened Amplitude

  /** `floor_divide(mod(i, stride), strip)`: the state of the target qubit. */
  function TargetState(i: int, q: nat): (r: int)
    ensures r == Bit(i, q)
  {
    var s := Pow(2, q);
    TargetStateArith(i, s);
    (i % (2 * s)) / s
  }

  lemma TargetStateArith(i: int, s: int)
    requires s > 0
    ensures (i % (2 * s)) / s == (i / s) % 2
  {
    var a, r := i / (2 * s), i % (2 * s);
    var r1, r0 := r / s, r % s;
    assert i == a * (2 * s) + r;
    assert a * (2 * s) + r1 * s == (2 * a + r1) * s;
    DivModUnique(i, s, 2 * a + r1, r0);
    assert r1 == 0 || r1 == 1 by {
      DivBelow(r, s, 2);
    }
    DivModUnique(2 * a + r1, 2, a, r1);
  }

  /** `mod(i, strip) + floor_divide(i, stride) * stride`: i with bit q cleared. */
  function Idx0(i: int, q: nat): (r: int)
    ensures r == Insert(Remove(i, q), q, 0)
    ensures r + Pow(2, q) == Insert(Remove(i, q), q, 1)
  {
    var s := Pow(2, q);
    Idx0Arith(i, s);
    i % s + (i / (2 * s)) * (2 * s)
  }

  lemma Idx0Arith(i: int, s: int)
    requires s > 0
    ensures var m := (i / (2 * s)) * s + i % s;
      m / s == i / (2 * s) && m % s == i % s
  {
    DivModUnique((i / (2 * s)) * s + i % s, s, i / (2 * s), i % s);
  }

  /** For x < 2^nq: the pair (Idx0(x), Idx0(x) + 2^q) is in range, and it is
      (x, x + 2^q) when bit q of x is clear, (x - 2^q, x) when it is set. */
  lemma Idx0Facts(x: int, q: nat, nq: nat)
    requires 0 <= x < Pow(2, nq) && q < nq
    ensures 0 <= Idx0(x, q) && Idx0(x, q) + Pow(2, q) < Pow(2, nq)
    ensures Bit(x, q) == 0 ==> Idx0(x, q) == x
    ensures Bit(x, q) == 1 ==> Idx0(x, q) + Pow(2, q) == x
  {
    var r := Remove(x, q);
    assert Idx0(x, q) == Insert(r, q, 0) && Idx0(x, q) + Pow(2, q) == Insert(r, q, 1);
    RemoveRange(x, q, nq - 1);
    InsertRange(r, q, 1, nq - 1);
    if Bit(x, q) == 0 {
      InsertOnto(x, q, 0);
    } else {
      InsertOnto(x, q, 1);
    }
  }

  /** `cz`: the amplitude at i is multiplied by 1 - 2 * (bit qb1 of i) * (bit qb2 of i). */
  function CZ(state: seq<Complex>, qb1: nat, qb2: nat): (r: seq<Complex>)
    ensures |r| == |state|
    ensures forall x :: 0 <= x < |state| ==>
      r[x] == if Bit(x, qb1) == 1 && Bit(x, qb2) == 1 then Neg(state[x]) else state[x]
  {
    seq(|state|, x requires 0 <= x < |state| =>
      Scale(state[x], (1 - 2 * (TargetState(x, qb1) * TargetState(x, qb2))) as real))
  }

  /** `h`: output i is (state[idx0] + sgn * state[idx0 + strip]) times the
      factor c, where sgn is -1 when bit qb of i is set.  The source divides
      by sqrt(2); here c is that factor, exactly. */
  function H(nq: nat, state: seq<Complex>, qb: nat, c: real): (r: seq<Complex>)
    requires |state| == Pow(2, nq) && qb < nq
    ensures |r| == |state|
    ensures forall x :: 0 <= x < |state| && Bit(x, qb) == 0 ==>
      && x + Pow(2, qb) < |state|
      && r[x] == Scale(Add(state[x], state[x + Pow(2, qb)]), c)
      && r[x + Pow(2, qb)] == Scale(Sub(state[x], state[x + Pow(2, qb)]), c)
  {
    HPairs(nq, state, qb, c);
    seq(|state|, x requires 0 <= x < |state| => HAt(nq, state, qb, c, x))
  }

  /** Output index x of `h`. */
  function HAt(nq: nat, state: seq<Complex>, qb: nat, c: real, x: int): Complex
    requires |state| == Pow(2, nq) && qb < nq && 0 <= x < |state|
  {
    Idx0Facts(x, qb, nq);
    var i0 := Idx0(x, qb);
    Scale(Add(state[i0], Scale(state[i0 + Pow(2, qb)], (1 - 2 * TargetState(x, qb)) as real)), c)
  }

  lemma HPairs(nq: nat, state: seq<Complex>, qb: nat, c: real)
    requires |state| == Pow(2, nq) && qb < nq
    ensures forall x :: 0 <= x < |state| && Bit(x, qb) == 0 ==>
      && x + Pow(2, qb) < |state|
      && HAt(nq, state, qb, c, x) == Scale(Add(state[x], state[x + Pow(2, qb)]), c)
      && HAt(nq, state, qb, c, x + Pow(2, qb)) == Scale(Sub(state[x], state[x + Pow(2, qb)]), c)
  {
    forall x | 0 <= x < |state| && Bit(x, qb) == 0
      ensures x + Pow(2, qb) < |state|
      ensures HAt(nq, state, qb, c, x) == Scale(Add(state[x], state[x + Pow(2, qb)]), c)
      ensures HAt(nq, state, qb, c, x + Pow(2, qb)) == Scale(Sub(state[x], state[x + Pow(2, qb)]), c)
    {
      HPairAt(nq, state, qb, c, x);
    }
  }

  /** The pair law of `h` at one index x with bit qb clear. */
  lemma HPairAt(nq: nat, state: seq<Complex>, qb: nat, c: real, x: int)
    requires |state| == Pow(2, nq) && qb < nq && 0 <= x < |state| && Bit(x, qb) == 0
    ensures x + Pow(2, qb) < |state|
    ensures HAt(nq, state, qb, c, x) == Scale(Add(state[x], state[x + Pow(2, qb)]), c)
    ensures HAt(nq, state, qb, c, x + Pow(2, qb)) == Scale(Sub(state[x], state[x + Pow(2, qb)]), c)
  {
    var s := Pow(2, qb);
    PairAt(x, qb, nq);
    var a, b := state[x], state[x + s];
    assert (1 - 2 * TargetState(x, qb)) as real == 1.0;
    assert (1 - 2 * TargetState(x + s, qb)) as real == -1.0;
    assert Scale(b, 1.0) == b;
    assert Scale(b, -1.0) == Neg(b);
    assert Add(a, Neg(b)) == Sub(a, b);
  }

  /** `u`: output i is state[idx0] * op[b, 0] + state[idx0 + strip] * op[b, 1],
      where b is bit qb of i. */
  function U(nq: nat, state: seq<Complex>, op: Matrix2, qb: nat): (r: seq<Complex>)
    requires |state| == Pow(2, nq) && qb < nq
    ensures |r| == |state|
    ensures forall x :: 0 <= x < |state| && Bit(x, qb) == 0 ==>
      && x + Pow(2, qb) < |state|
      && r[x] == Add(Mul(state[x], op.m00), Mul(state[x + Pow(2, qb)], op.m01))
      && r[x + Pow(2, qb)] == Add(Mul(state[x], op.m10), Mul(state[x + Pow(2, qb)], op.m11))
  {
    UPairs(nq, state, op, qb);
    seq(|state|, x requires 0 <= x < |state| => UAt(nq, state, op, qb, x))
  }

  /** Output index x of `u`. */
  function UAt(nq: nat, state: seq<Complex>, op: Matrix2, qb: nat, x: int): Complex
    requires |state| == Pow(2, nq) && qb < nq && 0 <= x < |state|
  {
    Idx0Facts(x, qb, nq);
    var i0 := Idx0(x, qb);
    Add(Mul(state[i0], op.Entry(TargetState(x, qb), 0)),
        Mul(state[i0 + Pow(2, qb)], op.Entry(TargetState(x, qb), 1)))
  }

  lemma UPairs(nq: nat, state: seq<Complex>, op: Matrix2, qb: nat)
    requires |state| == Pow(2, nq) && qb < nq
    ensures forall x :: 0 <= x < |state| && Bit(x, qb) == 0 ==>
      && x + Pow(2, qb) < |state|
      && UAt(nq, state, op, qb, x) == Add(Mul(state[x], op.m00), Mul(state[x + Pow(2, qb)], op.m01))
      && UAt(nq, state, op, qb, x + Pow(2, qb)) == Add(Mul(state[x], op.m10), Mul(state[x + Pow(2, qb)], op.m11))
  {
    forall x | 0 <= x < |state| && Bit(x, qb) == 0
      ensures x + Pow(2, qb) < |state|
      ensures UAt(nq, state, op, qb, x) == Add(Mul(state[x], op.m00), Mul(state[x + Pow(2, qb)], op.m01))
      ensures UAt(nq, state, op, qb, x + Pow(2, qb))
        == Add(Mul(state[x], op.m10), Mul(state[x + Pow(2, qb)], op.m11))
    {
      PairAt(x, qb, nq);
    }
  }

  /** For x < 2^nq with bit q clear, the partner x + 2^q has bit q set and
      both clear to x. */
  lemma PairAt(x: int, q: nat, nq: nat)
    requires 0 <= x < Pow(2, nq) && q < nq && Bit(x, q) == 0
    ensures x + Pow(2, q) < Pow(2, nq)
    ensures Idx0(x, q) == x && Idx0(x + Pow(2, q), q) == x
    ensures TargetState(x, q) == 0 && TargetState(x + Pow(2, q), q) == 1
  {
    PairPartner(x, q, nq);
    assert Idx0(x, q) == x by {
      Idx0Facts(x, q, nq);
    }
    assert Idx0(x + Pow(2, q), q) == x by {
      Idx0Facts(x + Pow(2, q), q, nq);
    }
  }

  /** `modulate_1qb`: the amplitude at i is multiplied by modulator[bit qb of i]. */
  function Modulate1(state: seq<Complex>, modulator: seq<Complex>, qb: nat): (r: seq<Complex>)
    requires |modulator| >= 2
    ensures |r| == |state|
    ensures forall x :: 0 <= x < |state| ==>
      r[x] == Mul(state[x], if Bit(x, qb) == 0 then modulator[0] else modulator[1])
  {
    seq(|state|, x requires 0 <= x < |state| => Mul(state[x], modulator[TargetState(x, qb)]))
  }

  /** `modulate_2qb`: the amplitude at i is multiplied by
      modulator[bit_a + 2 * bit_b], so the modulator is laid out for
      (bit qb1, bit qb2) = 00, 10, 01, 11. */
  function Modulate2(state: seq<Complex>, modulator: seq<Complex>, qb1: nat, qb2: nat): (r: seq<Complex>)
    requires |modulator| >= 4
    ensures |r| == |state|
    ensures forall x :: 0 <= x < |state| ==>
      r[x] == Mul(state[x],
                  if Bit(x, qb1) == 0 && Bit(x, qb2) == 0 then modulator[0]
                  else if Bit(x, qb1) == 1 && Bit(x, qb2) == 0 then modulator[1]
                  else if Bit(x, qb1) == 0 then modulator[2]
                  else modulator[3])
  {
    seq(|state|, x requires 0 <= x < |state| =>
      Mul(state[x], modulator[2 * TargetState(x, qb2) + TargetState(x, qb1)]))
  }

  /** The phase-flip diagonal (1, -1) of a Z gate. */
  const ZDiag := [One, MinusOne]

  /** The diagonal (1, 1, 1, -1) of a CZ gate in `modulate_2qb`'s layout. */
  const CZDiag := [One, One, One, MinusOne]

  lemma CZSymmetric(state: seq<Complex>, qb1: nat, qb2: nat)
    ensures CZ(state, qb1, qb2) == CZ(state, qb2, qb1)
  {
  }

  /** cz undoes itself. */
  lemma CZInvolution(state: seq<Complex>, qb1: nat, qb2: nat)
    ensures CZ(CZ(state, qb1, qb2), qb1, qb2) == state
  {
    var r := CZ(CZ(state, qb1, qb2), qb1, qb2);
    forall x | 0 <= x < |state| ensures r[x] == state[x] {
    }
  }

  /** cz is the two-qubit modulation by (1, 1, 1, -1). */
  lemma CZIsModulate2(state: seq<Complex>, qb1: nat, qb2: nat)
    ensures CZ(state, qb1, qb2) == Modulate2(state, CZDiag, qb1, qb2)
  {
    var r, m := CZ(state, qb1, qb2), Modulate2(state, CZDiag, qb1, qb2);
    forall x | 0 <= x < |state| ensures r[x] == m[x] {
    }
  }

  /** With both qubit arguments equal the jax cz does not fail: it is a Z gate. */
  lemma CZSameQubitIsZ(state: seq<Complex>, qb: nat)
    ensures CZ(state, qb, qb) == Modulate1(state, ZDiag, qb)
  {
    var r, m := CZ(state, qb, qb), Modulate1(state, ZDiag, qb);
    forall x | 0 <= x < |state| ensures r[x] == m[x] {
    }
  }

  /** Z undoes itself. */
  lemma ZInvolution(state: seq<Complex>, qb: nat)
    ensures Modulate1(Modulate1(state, ZDiag, qb), ZDiag, qb) == state
  {
    var r := Modulate1(Modulate1(state, ZDiag, qb), ZDiag, qb);
    forall x | 0 <= x < |state| ensures r[x] == state[x] {
    }
  }

  /** With c * c == 1/2 (c = 1/sqrt(2) over the reals), h undoes itself. */
  lemma HInvolution(nq: nat, state: seq<Complex>, qb: nat, c: real)
    requires |state| == Pow(2, nq) && qb < nq && c * c == 0.5
    ensures H(nq, H(nq, state, qb, c), qb, c) == state
  {
    var h1 := H(nq, state, qb, c);
    var h2 := H(nq, h1, qb, c);
    var s := Pow(2, qb);
    forall x | 0 <= x < |state| ensures h2[x] == state[x] {
      if Bit(x, qb) == 0 {
        HadamardPairSum(state[x], state[x + s], c);
      } else {
        PairPartnerDown(x, qb, nq);
        var y := x - s;
        HadamardPairDifference(state[y], state[x], c);
      }
    }
  }

  /** h is the general one-qubit gate with matrix c * [[1, 1], [1, -1]]. */
  lemma HIsU(nq: nat, state: seq<Complex>, qb: nat, c: real)
    requires |state| == Pow(2, nq) && qb < nq
    ensures H(nq, state, qb, c) == U(nq, state, HMatrix(c), qb)
  {
    var h, u := H(nq, state, qb, c), U(nq, state, HMatrix(c), qb);
    var s := Pow(2, qb);
    forall x | 0 <= x < |state| && Bit(x, qb) == 0
      ensures h[x] == u[x] && h[x + s] == u[x + s]
    {
      HMatrixPair(state[x], state[x + s], c);
    }
    forall x | 0 <= x < |state| ensures h[x] == u[x] {
      if Bit(x, qb) == 1 {
        PairPartnerDown(x, qb, nq);
        assert x == (x - s) + s;
      }
    }
  }

  /** The matrix c * [[1, 1], [1, -1]]. */
  function HMatrix(c: real): Matrix2
  {
    Matrix2(OfReal(c), OfReal(c), OfReal(c), OfReal(-c))
  }

  lemma HMatrixPair(a: Complex, b: Complex, c: real)
    ensures Add(Mul(a, HMatrix(c).m00), Mul(b, HMatrix(c).m01)) == Scale(Add(a, b), c)
    ensures Add(Mul(a, HMatrix(c).m10), Mul(b, HMatrix(c).m11)) == Scale(Sub(a, b), c)
  {
    MulOfReal(a, c);
    MulOfReal(b, c);
    MulOfReal(b, -c);
    assert (a.re - b.re) * c == a.re * c + b.re * -c;
    assert (a.im - b.im) * c == a.im * c + b.im * -c;
  }

  // ---------------------------------------------------------------------
  // do_circ: the sequential gate dispatch loop

  /** A cz's qubit argument packs both qubits as x = q0 + nq * q1;
      `do_circ` unpacks it with q0 = x mod nq, q1 = ((x - q0) // nq) mod nq. */
  function DecodeCZ(x: int, nq: nat): (r: (nat, nat))
    requires nq > 0
    ensures r.0 < nq && r.1 < nq
  {
    var q0 := x % nq;
    (q0, ((x - q0) / nq) % nq)
  }

  /** Decoding inverts the packing for every pair of qubits below nq. */
  lemma DecodeCZInverts(q0: nat, q1: nat, nq: nat)
    requires q0 < nq && q1 < nq
    ensures DecodeCZ(q0 + nq * q1, nq) == (q0, q1)
  {
    DivModUnique(q0 + nq * q1, nq, q1, q0);
    assert (q0 + nq * q1 - q0) == q1 * nq;
    DivModUnique(q1 * nq, nq, q1, 0);
    DivModUnique(q1, nq, 0, q1);
  }

  /** ... and every argument below nq * nq is the packing of its decoding. */
  lemma DecodeCZOnto(x: int, nq: nat)
    requires nq > 0 && 0 <= x < nq * nq
    ensures DecodeCZ(x, nq).0 + nq * DecodeCZ(x, nq).1 == x
  {
    var q0 := x % nq;
    var q := x / nq;
    assert x == q * nq + q0;
    DivBelow(x, nq, nq);
    assert x - q0 == q * nq;
    DivModUnique(x - q0, nq, q, 0);
    DivModUnique(q, nq, 0, q);
  }

  /** What `do_circ` demands of its inputs: every "h" and "u" names a qubit
      below nq, a "cz" needs nq > 0 for its decoding, and every "u" has a
      parameter matrix left to consume; other names are skipped. */
  predicate CircuitOk(nq: nat, names: seq<string>, qargs: seq<int>, nparms: int)
    decreases |names|
  {
    && |qargs| >= |names|
    && (names != [] ==>
      && (names[0] == "cz" ==> nq > 0)
      && (names[0] == "h" || names[0] == "u" ==> 0 <= qargs[0] < nq)
      && (names[0] == "u" ==> nparms >= 1)
      && CircuitOk(nq, names[1..], qargs[1..], if names[0] == "u" then nparms - 1 else nparms))
  }

  /** The number of "u" instructions, i.e. of parameter matrices consumed. */
  function UCount(names: seq<string>): nat
  {
    if names == [] then 0 else (if names[0] == "u" then 1 else 0) + UCount(names[1..])
  }

  /** The state after dispatching every instruction in order. */
  function Run(nq: nat, names: seq<string>, qargs: seq<int>, parms: seq<Matrix2>,
               vec: seq<Complex>, c: real): (r: seq<Complex>)
    requires |vec| == Pow(2, nq) && CircuitOk(nq, names, qargs, |parms|)
    ensures |r| == |vec|
    decreases |names|
  {
    if names == [] then vec
    else
      var name, x := names[0], qargs[0];
      if name == "cz" then
        var q := DecodeCZ(x, nq);
        Run(nq, names[1..], qargs[1..], parms, CZ(vec, q.0, q.1), c)
      else if name == "h" then
        Run(nq, names[1..], qargs[1..], parms, H(nq, vec, x, c), c)
      else if name == "u" then
        Run(nq, names[1..], qargs[1..], parms[1..], U(nq, vec, parms[0], x), c)
      else
        Run(nq, names[1..], qargs[1..], parms, vec, c)
  }

  /** One instruction of `do_circ`: cz, h or u, and nothing for any other
      name; u takes the next matrix. */
  function ApplyGate(nq: nat, name: string, x: int, parms: seq<Matrix2>,
                     vec: seq<Complex>, c: real): (r: seq<Complex>)
    requires |vec| == Pow(2, nq)
    requires name == "cz" ==> nq > 0
    requires name == "h" || name == "u" ==> 0 <= x < nq
    requires name == "u" ==> |parms| >= 1
    ensures |r| == |vec|
  {
    if name == "cz" then
      var q := DecodeCZ(x, nq);
      CZ(vec, q.0, q.1)
    else if name == "h" then H(nq, vec, x, c)
    else if name == "u" then U(nq, vec, parms[0], x)
    else vec
  }

  /** A nonempty circuit runs its first instruction, then the rest. */
  lemma RunUnfold(nq: nat, names: seq<string>, qargs: seq<int>, parms: seq<Matrix2>,
                  vec: seq<Complex>, c: real)
    requires |vec| == Pow(2, nq) && CircuitOk(nq, names, qargs, |parms|) && names != []
    ensures var parms' := if names[0] == "u" then parms[1..] else parms;
      CircuitOk(nq, names[1..], qargs[1..], |parms'|) &&
      Run(nq, names, qargs, parms, vec, c)
        == Run(nq, names[1..], qargs[1..], parms', ApplyGate(nq, names[0], qargs[0], parms, vec, c), c)
  {
  }

  /** `do_circ`: the loop reassigns vec once per instruction and advances the
      parameter index on "u" only. */
  method DoCirc(nq: nat, names: seq<string>, qargs: seq<int>, parms: seq<Matrix2>,
                vec0: seq<Complex>, c: real) returns (vec: seq<Complex>)
    requires |vec0| == Pow(2, nq) && CircuitOk(nq, names, qargs, |parms|)
    ensures vec == Run(nq, names, qargs, parms, vec0, c)
  {
    var idxParm := 0;
    vec := vec0;
    for idx := 0 to |names|
      invariant |vec| == Pow(2, nq) && idxParm <= |parms|
      invariant CircuitOk(nq, names[idx..], qargs[idx..], |parms| - idxParm)
      invariant Run(nq, names, qargs, parms, vec0, c)
             == Run(nq, names[idx..], qargs[idx..], parms[idxParm..], vec, c)
    {
      var n := names[idx];
      ghost var rest, restArgs := names[idx..], qargs[idx..];
      assert rest[0] == n && rest[1..] == names[idx + 1..] && restArgs[1..] == qargs[idx + 1..];
      if n == "cz" {
        var q0 := qargs[idx] % nq;
        var q1 := ((qargs[idx] - q0) / nq) % nq;
        vec := CZ(vec, q0, q1);
      } else if n == "h" {
        vec := H(nq, vec, qargs[idx], c);
      } else if n == "u" {
        var op := parms[idxParm];
        assert parms[idxParm..][1..] == parms[idxParm + 1..];
        idxParm := idxParm + 1;
        vec := U(nq, vec, op, qargs[idx]);
      }
    }
  }

  /** Running two circuits one after the other is running their
      concatenation; the second part takes its matrices after the first's. */
  lemma {:induction false} RunAppend(nq: nat, names1: seq<string>, qargs1: seq<int>,
                                     names2: seq<string>, qargs2: seq<int>,
                                     parms: seq<Matrix2>, vec: seq<Complex>, c: real)
    requires |vec| == Pow(2, nq) && |qargs1| == |names1|
    requires CircuitOk(nq, names1 + names2, qargs1 + qargs2, |parms|)
    ensures CircuitOk(nq, names1, qargs1, |parms|) && UCount(names1) <= |parms|
    ensures CircuitOk(nq, names2, qargs2, |parms| - UCount(names1))
    ensures Run(nq, names1 + names2, qargs1 + qargs2, parms, vec, c)
         == Run(nq, names2, qargs2, parms[UCount(names1)..],
                Run(nq, names1, qargs1, parms, vec, c), c)
    decreases |names1|
  {
    if names1 == [] {
      assert names1 + names2 == names2 && qargs1 + qargs2 == qargs2;
    } else {
      var name, x := names1[0], qargs1[0];
      var all, allArgs := names1 + names2, qargs1 + qargs2;
      assert all[0] == name && allArgs[0] == x;
      assert all[1..] == names1[1..] + names2 && allArgs[1..] == qargs1[1..] + qargs2;
      var next := ApplyGate(nq, name, x, parms, vec, c);
      var parms' := if name == "u" then parms[1..] else parms;
      RunUnfold(nq, all, allArgs, parms, vec, c);
      RunAppend(nq, names1[1..], qargs1[1..], names2, qargs2, parms', next, c);
      RunUnfold(nq, names1, qargs1, parms, vec, c);
      assert parms'[UCount(names1[1..])..] == parms[UCount(names1)..];
    }
  }

  /** An instruction whose name is not "cz", "h" or "u" changes nothing,
      wherever it stands in the circuit. */
  lemma RunIgnoresUnknown(nq: nat, names1: seq<string>, qargs1: seq<int>, name: string, x: int,
                          names2: seq<string>, qargs2: seq<int>,
                          parms: seq<Matrix2>, vec: seq<Complex>, c: real)
    requires |vec| == Pow(2, nq) && |qargs1| == |names1|
    requires name != "cz" && name != "h" && name != "u"
    requires CircuitOk(nq, names1 + names2, qargs1 + qargs2, |parms|)
    ensures CircuitOk(nq, names1 + [name] + names2, qargs1 + [x] + qargs2, |parms|)
    ensures Run(nq, names1 + [name] + names2, qargs1 + [x] + qargs2, parms, vec, c)
         == Run(nq, names1 + names2, qargs1 + qargs2, parms, vec, c)
  {
    RunAppend(nq, names1, qargs1, names2, qargs2, parms, vec, c);
    var mid := Run(nq, names1, qargs1, parms, vec, c);
    var tail := parms[UCount(names1)..];
    assert ([name] + names2)[1..] == names2 && ([x] + qargs2)[1..] == qargs2;
    assert CircuitOk(nq, [name] + names2, [x] + qargs2, |parms| - UCount(names1));
    AppendOk(nq, names1, qargs1, [name] + names2, [x] + qargs2, |parms|);
    assert names1 + [name] + names2 == names1 + ([name] + names2);
    assert qargs1 + [x] + qargs2 == qargs1 + ([x] + qargs2);
    RunAppend(nq, names1, qargs1, [name] + names2, [x] + qargs2, parms, vec, c);
  }

  /** Concatenating two runnable circuits gives a runnable circuit. */
  lemma {:induction false} AppendOk(nq: nat, names1: seq<string>, qargs1: seq<int>,
                                    names2: seq<string>, qargs2: seq<int>, nparms: int)
    requires |qargs1| == |names1| && CircuitOk(nq, names1, qargs1, nparms)
    requires CircuitOk(nq, names2, qargs2, nparms - UCount(names1))
    ensures CircuitOk(nq, names1 + names2, qargs1 + qargs2, nparms)
    decreases |names1|
  {
    if names1 == [] {
      assert names1 + names2 == names2 && qargs1 + qargs2 == qargs2;
    } else {
      assert (names1 + names2)[1..] == names1[1..] + names2;
      assert (qargs1 + qargs2)[1..] == qargs1[1..] + qargs2;
      AppendOk(nq, names1[1..], qargs1[1..], names2, qargs2,
               if names1[0] == "u" then nparms - 1 else nparms);
    }
  }

  /** The two-qubit circuit h(0), h(1), cz(0, 1), h(1) on |00> ends in the
      Bell state (c, 0, 0, c), i.e. (1/sqrt(2), 0, 0, 1/sqrt(2)). */
  lemma BellCircuit(c: real)
    requires c * c == 0.5
    ensures Run(2, ["h", "h", "cz", "h"], [0, 1, 2, 1], [], [One, Zero, Zero, Zero], c)
         == [OfReal(c), Zero, Zero, OfReal(c)]
  {
    BellRun([One, Zero, Zero, Zero], c);
    BellFirstH(c);
    BellSecondH(c);
    TwoQubitCZ([Half, Half, Half, Half]);
    BellLastH(c);
  }

  const Half := Complex(0.5, 0.0)

  lemma BellFirstH(c: real)
    ensures H(2, [One, Zero, Zero, Zero], 0, c) == [OfReal(c), OfReal(c), Zero, Zero]
  {
    TwoQubitH0([One, Zero, Zero, Zero], One, Zero, Zero, Zero, c);
    assert Scale(Add(One, Zero), c) == OfReal(c) && Scale(Sub(One, Zero), c) == OfReal(c);
    assert Scale(Add(Zero, Zero), c) == Zero && Scale(Sub(Zero, Zero), c) == Zero;
  }

  lemma BellSecondH(c: real)
    requires c * c == 0.5
    ensures H(2, [OfReal(c), OfReal(c), Zero, Zero], 1, c) == [Half, Half, Half, Half]
  {
    TwoQubitH1([OfReal(c), OfReal(c), Zero, Zero], OfReal(c), OfReal(c), Zero, Zero, c);
    assert Scale(Add(OfReal(c), Zero), c) == Half && Scale(Sub(OfReal(c), Zero), c) == Half;
  }

  lemma BellLastH(c: real)
    requires c * c == 0.5
    ensures H(2, [Half, Half, Half, Neg(Half)], 1, c) == [OfReal(c), Zero, Zero, OfReal(c)]
  {
    TwoQubitH1([Half, Half, Half, Neg(Half)], Half, Half, Half, Neg(Half), c);
    LastHEntries(c);
  }

  lemma LastHEntries(c: real)
    ensures Scale(Add(Half, Half), c) == OfReal(c) && Scale(Sub(Half, Half), c) == Zero
    ensures Scale(Add(Half, Neg(Half)), c) == Zero && Scale(Sub(Half, Neg(Half)), c) == OfReal(c)
  {
    HalfSums();
    ScaleUnits(c);
  }

  lemma HalfSums()
    ensures Add(Half, Half) == One && Sub(Half, Neg(Half)) == One
    ensures Sub(Half, Half) == Zero && Add(Half, Neg(Half)) == Zero
  {
  }

  lemma ScaleUnits(c: real)
    ensures Scale(One, c) == OfReal(c) && Scale(Zero, c) == Zero
  {
  }

  /** The Bell circuit unfolds to its four kernels. */
  lemma BellRun(v: seq<Complex>, c: real)
    requires |v| == 4
    ensures Run(2, ["h", "h", "cz", "h"], [0, 1, 2, 1], [], v, c)
         == H(2, CZ(H(2, H(2, v, 0, c), 1, c), 0, 1), 1, c)
  {
    TwoQubitBits();
    assert DecodeCZ(2, 2) == (0, 1);
    var names: seq<string> := ["h", "h", "cz", "h"];
    var qargs := [0, 1, 2, 1];
    assert names[1..] == ["h", "cz", "h"] && qargs[1..] == [1, 2, 1];
    assert names[1..][1..] == ["cz", "h"] && qargs[1..][1..] == [2, 1];
    assert names[1..][1..][1..] == ["h"] && qargs[1..][1..][1..] == [1];
  }

  lemma TwoQubitBits()
    ensures Pow(2, 0) == 1 && Pow(2, 1) == 2 && Pow(2, 2) == 4
    ensures Bit(0, 0) == 0 && Bit(1, 0) == 1 && Bit(2, 0) == 0 && Bit(3, 0) == 1
    ensures Bit(0, 1) == 0 && Bit(1, 1) == 0 && Bit(2, 1) == 1 && Bit(3, 1) == 1
  {
    assert Pow(2, 1) == 2;
  }

  /** h on qubit 0 of a two-qubit vector (a, b, e, f), written out. */
  lemma TwoQubitH0(v: seq<Complex>, a: Complex, b: Complex, e: Complex, f: Complex, c: real)
    requires v == [a, b, e, f]
    ensures H(2, v, 0, c) == [Scale(Add(a, b), c), Scale(Sub(a, b), c), Scale(Add(e, f), c), Scale(Sub(e, f), c)]
  {
    TwoQubitBits();
    var r := H(2, v, 0, c);
    assert r[0] == Scale(Add(v[0], v[1]), c) && r[1] == Scale(Sub(v[0], v[1]), c);
    assert r[2] == Scale(Add(v[2], v[3]), c) && r[3] == Scale(Sub(v[2], v[3]), c);
    SeqOfFour(r);
  }

  /** h on qubit 1 of a two-qubit vector (a, b, e, f), written out. */
  lemma TwoQubitH1(v: seq<Complex>, a: Complex, b: Complex, e: Complex, f: Complex, c: real)
    requires v == [a, b, e, f]
    ensures H(2, v, 1, c) == [Scale(Add(a, e), c), Scale(Add(b, f), c), Scale(Sub(a, e), c), Scale(Sub(b, f), c)]
  {
    TwoQubitBits();
    var r := H(2, v, 1, c);
    assert r[0] == Scale(Add(v[0], v[2]), c) && r[2] == Scale(Sub(v[0], v[2]), c);
    assert r[1] == Scale(Add(v[1], v[3]), c) && r[3] == Scale(Sub(v[1], v[3]), c);
    SeqOfFour(r);
  }

  /** cz(0, 1) on a two-qubit vector, written out. */
  lemma TwoQubitCZ(v: seq<Complex>)
    requires |v| == 4
    ensures CZ(v, 0, 1) == [v[0], v[1], v[2], Neg(v[3])]
  {
    TwoQubitBits();
    SeqOfFour(CZ(v, 0, 1));
  }

  lemma SeqOfFour(r: seq<Complex>)
    requires |r| == 4
    ensures r == [r[0], r[1], r[2], r[3]]
  {
  }
}
