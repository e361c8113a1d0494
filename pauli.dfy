/** Single-qubit Pauli labels and their composition.  A label is the integer
    x + 2 z with x-bit x and z-bit z, so 0 = I, 1 = X, 2 = Z and 3 = Y; a
    multi-qubit Pauli is packed into one integer, one base-4 digit per qubit,
    least significant qubit first.  Phases are not tracked by `Merge`. */
module Pauli {
  import opened Arith
  import opened Radix

  const I := 0
  const X := 1
  const Z := 2
  const Y := 3

  predicate IsLabel(p: int)
  {
    0 <= p < 4
  }

  predicate AllLabels(f: seq<int>)
  {
    forall k :: 0 <= k < |f| ==> IsLabel(f[k])
  }

  /** The x-bit (`p % 2 == 1`: X or Y) and the z-bit (`p // 2 == 1`: Z or Y)
      of a label. */
  predicate HasX(p: int)
  {
    p % 2 == 1
  }

  predicate HasZ(p: int)
  {
    p / 2 == 1
  }

  /** A label is determined by its two bits. */
  lemma LabelByBits(p: int, q: int)
    requires IsLabel(p) && IsLabel(q)
    requires HasX(p) == HasX(q) && HasZ(p) == HasZ(q)
    ensures p == q
  {
  }

  /** `pauli_merge`: the product of two Paulis up to phase, adding the x-bits
      and the z-bits mod 2.  Any integers are accepted. */
  function Merge(p1: int, p2: int): (r: int)
    ensures IsLabel(r)
  {
    var zbit := (p1 / 2 + p2 / 2) % 2;
    var xbit := (p1 % 2 + p2 % 2) % 2;
    xbit + 2 * zbit
  }

  /** Bitwise reading of the result: each bit of the product is the
      exclusive or of the factors' bits. */
  lemma MergeBits(p1: int, p2: int)
    requires IsLabel(p1) && IsLabel(p2)
    ensures HasX(Merge(p1, p2)) == (HasX(p1) != HasX(p2))
    ensures HasZ(Merge(p1, p2)) == (HasZ(p1) != HasZ(p2))
  {
    MergeParts(p1, p2);
    var x1, x2, z1, z2 := p1 % 2, p2 % 2, p1 / 2, p2 / 2;
    assert 0 <= x1 < 2 && 0 <= x2 < 2 && 0 <= z1 < 2 && 0 <= z2 < 2;
  }

  /** The two bits of `Merge(p1, p2)` for any integers. */
  lemma MergeParts(p1: int, p2: int)
    ensures Merge(p1, p2) % 2 == (p1 % 2 + p2 % 2) % 2
    ensures Merge(p1, p2) / 2 == (p1 / 2 + p2 / 2) % 2
  {
    var x, z := (p1 % 2 + p2 % 2) % 2, (p1 / 2 + p2 / 2) % 2;
    DivModUnique(Merge(p1, p2), 2, z, x);
  }

  lemma MergeCommutes(p1: int, p2: int)
    ensures Merge(p1, p2) == Merge(p2, p1)
  {
  }

  /** I is the identity on labels, on both sides. */
  lemma MergeIdentity(p: int)
    requires IsLabel(p)
    ensures Merge(p, I) == p && Merge(I, p) == p
  {
  }

  /** Every Pauli is its own inverse: merging the same q twice restores p. */
  lemma MergeSelfInverse(p: int, q: int)
    requires IsLabel(p)
    ensures Merge(Merge(p, q), q) == p
    ensures Merge(q, q) == I
  {
    var m := Merge(p, q);
    MergeParts(p, q);
    MergeParts(m, q);
    MergeParts(q, q);
    AddTwiceMod2(p % 2, q % 2);
    AddTwiceMod2(p / 2, q / 2);
    AddTwiceMod2(0, q % 2);
    AddTwiceMod2(0, q / 2);
    LabelByBits(Merge(m, q), p);
  }

  /** Adding b twice is adding nothing, mod 2. */
  lemma AddTwiceMod2(a: int, b: int)
    ensures ((a + b) % 2 + b) % 2 == a % 2
  {
    var k := (a + b) / 2;
    assert (a + b) % 2 == a + b - 2 * k;
    assert (a + b) % 2 + b == a + 2 * (b - k);
  }

  lemma MergeAssociative(a: int, b: int, c: int)
    ensures Merge(Merge(a, b), c) == Merge(a, Merge(b, c))
  {
    MergeParts(a, b);
    MergeParts(b, c);
    var xa, xb, xc := a % 2, b % 2, c % 2;
    var za, zb, zc := a / 2 % 2, b / 2 % 2, c / 2 % 2;
    assert (xa + xb) % 2 % 2 == (xa + xb) % 2;
    assert ((xa + xb) % 2 + xc) % 2 == (xa + (xb + xc) % 2) % 2;
    assert ((a / 2 + b / 2) % 2 + c / 2) % 2 == (a / 2 + (b / 2 + c / 2) % 2) % 2;
  }

  /** Two Paulis anticommute when their symplectic product
      x(p) z(q) + z(p) x(q) is odd. */
  predicate Anticommute(p: int, q: int)
  {
    (HasX(p) && HasZ(q)) != (HasZ(p) && HasX(q))
  }

  /** Two single-qubit Paulis anticommute exactly when both differ from I
      and from each other. */
  lemma AnticommuteLabels(p: int, q: int)
    requires IsLabel(p) && IsLabel(q)
    ensures Anticommute(p, q) <==> p != I && q != I && p != q
  {
    assert p == 0 || p == 1 || p == 2 || p == 3;
    assert q == 0 || q == 1 || q == 2 || q == 3;
  }

  /** Anticommutation with a fixed Pauli is linear in the other factor:
      it flips iff exactly one of the two factors anticommutes. */
  lemma AnticommuteMerge(p1: int, p2: int, q: int)
    requires IsLabel(p1) && IsLabel(p2) && IsLabel(q)
    ensures Anticommute(Merge(p1, p2), q) <==> (Anticommute(p1, q) != Anticommute(p2, q))
  {
    MergeBits(p1, p2);
  }

  /** `pauli_demux`: the nqb base-4 digits of p1, least significant first,
      filled into a fresh buffer by repeated `divmod(p1, 4)`. */
  method Demux(nqb: nat, p1: int) returns (plist: seq<int>)
    ensures plist == Digits(nqb, p1, 4)
    ensures |plist| == nqb && AllLabels(plist)
  {
    var buf := new int[nqb](_ => 0);
    var p := p1;
    var idx := 0;
    while idx < nqb
      invariant 0 <= idx <= nqb
      invariant buf[..idx] + Digits(nqb - idx, p, 4) == Digits(nqb, p1, 4)
    {
      var quot, rem := p / 4, p % 4;
      assert Digits(nqb - idx, p, 4) == [rem] + Digits(nqb - idx - 1, quot, 4);
      buf[idx] := rem;
      assert buf[..idx + 1] == buf[..idx] + [rem];
      p := quot;
      idx := idx + 1;
    }
    assert buf[..] == buf[..idx];
    plist := buf[..];
  }

  /** The digits recompose to p1 when 0 <= p1 < 4^nqb; for larger or negative
      p1 they recompose to p1 mod 4^nqb. */
  lemma DemuxRecomposes(nqb: nat, p1: int)
    ensures LittleEndian(Digits(nqb, p1, 4), 4) == p1 % Pow(4, nqb)
    ensures 0 <= p1 < Pow(4, nqb) ==> LittleEndian(Digits(nqb, p1, 4), 4) == p1
  {
    LittleEndianOfDigits(nqb, p1, 4);
    if 0 <= p1 < Pow(4, nqb) {
      DigitsRoundTrip(nqb, p1, 4);
    }
  }

  /** Every list of labels is the demultiplexing of exactly one integer below
      4^|d|, its little-endian value. */
  lemma DemuxOnto(d: seq<int>)
    requires AllLabels(d)
    ensures 0 <= LittleEndian(d, 4) < Pow(4, |d|)
    ensures Digits(|d|, LittleEndian(d, 4), 4) == d
  {
    LittleEndianBound(d, 4);
    DigitsOfLittleEndian(d, 4);
  }
}
