/** The kernels of numpyQC.py.  Each reshapes the state vector into a view
    and assigns to a slice of that view; the view shares the vector's
    storage, so the assignment changes `vec` in place.  A slice assignment
    evaluates its whole right-hand side before writing, which is what a
    Dafny `forall` statement does. */
module NumpyQC {
  import opened Arith
  import opened BitIndex
  import opened Amplitude
  import JaxQC

  // ---------------------------------------------------------------------
  // Views

  /** The flat index of element [a, b, c] of `vec.reshape(count, 2, count_r)`. */
  function View3(a: int, b: int, c: int, countR: int): int
  {
    a * (2 * countR) + b * countR + c
  }

  /** The flat index of element [a, b, c, d, e] of
      `vec.reshape(count_large, 2, count_small, 2, r)`. */
  function View5(a: int, b: int, c: int, d: int, e: int, countSmall: int, r: int): int
  {
    a * (2 * countSmall * 2 * r) + b * (countSmall * 2 * r) + c * (2 * r) + d * r + e
  }

  /** With count_r = 2^q, element [a, b, c] sits at the index whose bit q is b
      and whose other bits are a (above) and c (below). */
  lemma View3IsInsert(a: int, b: int, c: int, q: nat)
    requires (b == 0 || b == 1) && 0 <= c < Pow(2, q)
    ensures View3(a, b, c, Pow(2, q)) == Insert(a * Pow(2, q) + c, q, b)
  {
    var s := Pow(2, q);
    DivModUnique(a * s + c, s, a, c);
  }

  /** The five-dimensional view is the three-dimensional one nested: its inner
      block [c, d, e] is a view of its own. */
  lemma View5IsNested(a: int, b: int, c: int, d: int, e: int, countSmall: int, r: int)
    ensures View5(a, b, c, d, e, countSmall, r) == View3(a, b, View3(c, d, e, r), countSmall * 2 * r)
  {
    assert a * (2 * countSmall * 2 * r) == a * (2 * (countSmall * 2 * r));
  }

  /** The elements [a, b, c] with a < count, c < count_r cover [0, 2^n) once each. */
  lemma View3Bounds(a: int, b: int, c: int, q: nat, n: nat)
    requires q < n && (b == 0 || b == 1)
    requires 0 <= a < Pow(2, n - q - 1) && 0 <= c < Pow(2, q)
    ensures 0 <= a * Pow(2, q) + c < Pow(2, n - 1)
    ensures 0 <= View3(a, b, c, Pow(2, q)) < Pow(2, n)
    ensures Bit(View3(a, b, c, Pow(2, q)), q) == b
    ensures Remove(View3(a, b, c, Pow(2, q)), q) == a * Pow(2, q) + c
  {
    var s, t := Pow(2, q), Pow(2, n - q - 1);
    PowAdd(2, n - q - 1, q);
    assert n - q - 1 + q == n - 1;
    ViewRowBound(a, c, s, t);
    View3IsInsert(a, b, c, q);
    InsertRange(a * s + c, q, b, n - 1);
  }

  lemma ViewRowBound(a: int, c: int, s: int, t: int)
    requires 0 <= a < t && 0 <= c < s
    ensures 0 <= a * s + c < t * s
  {
    MulMonotone(a, t - 1, s);
    assert (t - 1) * s + s == t * s;
  }

  /** Every index below 2^n is element [a, Bit(x, q), c] of the view, for
      a = Remove(x, q) // 2^q and c = Remove(x, q) % 2^q. */
  lemma View3Onto(x: int, q: nat, n: nat)
    requires q < n && 0 <= x < Pow(2, n)
    ensures var s := Pow(2, q); var m := Remove(x, q);
      0 <= m / s < Pow(2, n - q - 1) && 0 <= m % s < s && View3(m / s, Bit(x, q), m % s, s) == x
  {
    var s, t := Pow(2, q), Pow(2, n - q - 1);
    var m := Remove(x, q);
    RemoveRange(x, q, n - 1);
    PowAdd(2, n - q - 1, q);
    assert n - q - 1 + q == n - 1;
    DivBelow(m, s, t);
    assert m == (m / s) * s + m % s;
    View3IsInsert(m / s, Bit(x, q), m % s, q);
    RemoveThenInsert(x, q);
  }

  /** The slice [:, b, :] lies in [0, 2^n), has bit q equal to b, and its
      elements are pairwise different cells. */
  lemma View3Slice(q: nat, n: nat, b: int)
    requires q < n && (b == 0 || b == 1)
    ensures forall a, c :: 0 <= a < Pow(2, n - q - 1) && 0 <= c < Pow(2, q) ==>
      0 <= View3(a, b, c, Pow(2, q)) < Pow(2, n) && Bit(View3(a, b, c, Pow(2, q)), q) == b
    ensures forall a1, c1, a2, c2 ::
      (0 <= a1 < Pow(2, n - q - 1) && 0 <= c1 < Pow(2, q) &&
       0 <= a2 < Pow(2, n - q - 1) && 0 <= c2 < Pow(2, q) &&
       View3(a1, b, c1, Pow(2, q)) == View3(a2, b, c2, Pow(2, q))) ==> a1 == a2 && c1 == c2
  {
    forall a, c | 0 <= a < Pow(2, n - q - 1) && 0 <= c < Pow(2, q)
      ensures 0 <= View3(a, b, c, Pow(2, q)) < Pow(2, n) && Bit(View3(a, b, c, Pow(2, q)), q) == b
    {
      View3Bounds(a, b, c, q, n);
    }
    var s := Pow(2, q);
    forall a1, c1, a2, c2 |
      0 <= a1 < Pow(2, n - q - 1) && 0 <= c1 < s &&
      0 <= a2 < Pow(2, n - q - 1) && 0 <= c2 < s &&
      View3(a1, b, c1, s) == View3(a2, b, c2, s)
      ensures a1 == a2 && c1 == c2
    {
      View3Inj(a1, c1, a2, c2, b, s);
    }
  }

  /** The slice [:, 1, :, 1, :] of `vec.reshape(count_large, 2, count_small, 2, -1)`
      for q0 > q1: the -1 dimension is 2^q1, and every element lies in
      [0, 2^n) with bits q0 and q1 set. */
  lemma View5Slice(q0: nat, q1: nat, n: nat)
    requires q1 < q0 < n
    ensures Pow(2, n) / (Pow(2, n - q0 - 1) * 2 * CountSmall(q0, q1) * 2) == Pow(2, q1)
    ensures forall a, c, e :: (0 <= a < Pow(2, n - q0 - 1) && 0 <= c < CountSmall(q0, q1) && 0 <= e < Pow(2, q1)) ==>
      var x := View5(a, 1, c, 1, e, CountSmall(q0, q1), Pow(2, q1));
      0 <= x < Pow(2, n) && Bit(x, q0) == 1 && Bit(x, q1) == 1
  {
    var cl, cs, r := Pow(2, n - q0 - 1), CountSmall(q0, q1), Pow(2, q1);
    PowSplit(q0, q1, n);
    RestDim(Pow(2, n), cl, cs, r);
    forall a, c, e | (0 <= a < Pow(2, n - q0 - 1) && 0 <= c < CountSmall(q0, q1) && 0 <= e < Pow(2, q1))
      ensures var x := View5(a, 1, c, 1, e, cs, r);
        0 <= x < Pow(2, n) && Bit(x, q0) == 1 && Bit(x, q1) == 1
    {
      View5Element(a, c, e, q0, q1, n);
    }
  }

  /** Distinct elements of cz's slice are distinct cells. */
  lemma View5Injective(q0: nat, q1: nat, n: nat)
    requires q1 < q0 < n
    ensures forall a1, c1, e1, a2, c2, e2 ::
      ((0 <= a1 < Pow(2, n - q0 - 1) && 0 <= c1 < CountSmall(q0, q1) && 0 <= e1 < Pow(2, q1)) && (0 <= a2 < Pow(2, n - q0 - 1) && 0 <= c2 < CountSmall(q0, q1) && 0 <= e2 < Pow(2, q1)) &&
       View5(a1, 1, c1, 1, e1, CountSmall(q0, q1), Pow(2, q1))
         == View5(a2, 1, c2, 1, e2, CountSmall(q0, q1), Pow(2, q1)))
      ==> a1 == a2 && c1 == c2 && e1 == e2
  {
    var cs, r := CountSmall(q0, q1), Pow(2, q1);
    forall a1, c1, e1, a2, c2, e2 |
      (0 <= a1 < Pow(2, n - q0 - 1) && 0 <= c1 < CountSmall(q0, q1) && 0 <= e1 < Pow(2, q1)) && (0 <= a2 < Pow(2, n - q0 - 1) && 0 <= c2 < CountSmall(q0, q1) && 0 <= e2 < Pow(2, q1)) &&
      View5(a1, 1, c1, 1, e1, cs, r) == View5(a2, 1, c2, 1, e2, cs, r)
      ensures a1 == a2 && c1 == c2 && e1 == e2
    {
      View5Element(a1, c1, e1, q0, q1, n);
      View5Element(a2, c2, e2, q0, q1, n);
      View3Inj(a1, View3(c1, 1, e1, r), a2, View3(c2, 1, e2, r), 1, Pow(2, q0));
      View3Inj(c1, e1, c2, e2, 1, r);
    }
  }

  /** Within one slice [_, b, _] the view index determines the element. */
  lemma View3Inj(a1: int, c1: int, a2: int, c2: int, b: int, s: int)
    requires s > 0 && 0 <= c1 < s && 0 <= c2 < s
    requires View3(a1, b, c1, s) == View3(a2, b, c2, s)
    ensures a1 == a2 && c1 == c2
  {
    assert View3(a1, b, c1, s) == (2 * a1 + b) * s + c1;
    assert View3(a2, b, c2, s) == (2 * a2 + b) * s + c2;
    DivModUnique(View3(a1, b, c1, s), s, 2 * a1 + b, c1);
    DivModUnique(View3(a2, b, c2, s), s, 2 * a2 + b, c2);
  }

  /** cz's `count_small = 2**(q0 - q1 - 1)`: the number of blocks of 2^(q1+1)
      amplitudes between two neighbouring values of bit q0. */
  function CountSmall(q0: nat, q1: nat): nat
    requires q1 < q0
  {
    Pow(2, q0 - q1 - 1)
  }

  /** 2^n = count_large * 2 * count_small * 2 * 2^q1 and 2^q0 = count_small * 2 * 2^q1. */
  lemma PowSplit(q0: nat, q1: nat, n: nat)
    requires q1 < q0 < n
    ensures CountSmall(q0, q1) * 2 * Pow(2, q1) == Pow(2, q0)
    ensures Pow(2, n) == Pow(2, n - q0 - 1) * 2 * CountSmall(q0, q1) * 2 * Pow(2, q1)
  {
    var cl, cs, r, s0 := Pow(2, n - q0 - 1), CountSmall(q0, q1), Pow(2, q1), Pow(2, q0);
    PowAdd(2, q0 - q1 - 1, q1 + 1);
    assert q0 - q1 - 1 + (q1 + 1) == q0;
    assert Pow(2, q1 + 1) == 2 * r;
    assert s0 == cs * (2 * r);
    PowAdd(2, n - q0 - 1, q0 + 1);
    assert n - q0 - 1 + (q0 + 1) == n;
    assert Pow(2, q0 + 1) == 2 * s0;
    assert Pow(2, n) == cl * (2 * s0);
    Regroup(cl, cs, r);
  }

  /** numpy's -1 dimension: the length divided by the product of the others. */
  lemma RestDim(len: int, cl: int, cs: int, r: int)
    requires cl > 0 && cs > 0 && r > 0 && len == cl * 2 * cs * 2 * r
    ensures len / (cl * 2 * cs * 2) == r
  {
    assert len == r * (cl * 2 * cs * 2) + 0;
    DivModUnique(len, cl * 2 * cs * 2, r, 0);
  }

  lemma Regroup(cl: int, cs: int, r: int)
    ensures cs * 2 * r == cs * (2 * r)
    ensures cl * 2 * cs * 2 * r == cl * (2 * (cs * (2 * r)))
  {
  }

  /** One element [a, 1, c, 1, e] of cz's slice: it is the nested view with
      inner element y = [c, 1, e], and it has bits q0 and q1 set. */
  lemma View5Element(a: int, c: int, e: int, q0: nat, q1: nat, n: nat)
    requires q1 < q0 < n
    requires 0 <= a < Pow(2, n - q0 - 1) && 0 <= c < CountSmall(q0, q1) && 0 <= e < Pow(2, q1)
    ensures var y := View3(c, 1, e, Pow(2, q1));
      && 0 <= y < Pow(2, q0) && Bit(y, q1) == 1
      && View5(a, 1, c, 1, e, CountSmall(q0, q1), Pow(2, q1)) == View3(a, 1, y, Pow(2, q0))
    ensures var x := View5(a, 1, c, 1, e, CountSmall(q0, q1), Pow(2, q1));
      0 <= x < Pow(2, n) && Bit(x, q0) == 1 && Bit(x, q1) == 1
  {
    var cs, r, s0 := CountSmall(q0, q1), Pow(2, q1), Pow(2, q0);
    PowSplit(q0, q1, n);
    View3Bounds(c, 1, e, q1, q0);
    var y := View3(c, 1, e, r);
    View5IsNested(a, 1, c, 1, e, cs, r);
    View3Bounds(a, 1, y, q0, n);
    View3IsInsert(a, 1, y, q0);
    InsertKeepsLowBits(a * s0 + y, q0, 1, q1);
    DivModUnique(a * s0 + y, s0, a, y);
    BitBelow(a * s0 + y, q1, q0);
  }

  /** Every index below 2^n with bits q0 and q1 set is an element of cz's slice. */
  lemma View5Onto(x: int, q0: nat, q1: nat, n: nat)
    requires q1 < q0 < n && 0 <= x < Pow(2, n) && Bit(x, q0) == 1 && Bit(x, q1) == 1
    ensures exists a, c, e :: ((0 <= a < Pow(2, n - q0 - 1) && 0 <= c < CountSmall(q0, q1) && 0 <= e < Pow(2, q1)) &&
      View5(a, 1, c, 1, e, CountSmall(q0, q1), Pow(2, q1)) == x)
  {
    var cs, r, s0 := CountSmall(q0, q1), Pow(2, q1), Pow(2, q0);
    var m := Remove(x, q0);
    View3Onto(x, q0, n);
    var a, y := m / s0, m % s0;
    BitBelow(m, q1, q0);
    RemoveKeepsLowBits(x, q0, q1);
    assert Bit(y, q1) == 1;
    PowSplit(q0, q1, n);
    View3Onto(y, q1, q0);
    var my := Remove(y, q1);
    var c, e := my / r, my % r;
    View5IsNested(a, 1, c, 1, e, cs, r);
  }

  // ---------------------------------------------------------------------
  // Kernels

  /** `z(n, qb0, vec)`: negates the slice [:, 1, :] of the (count, 2, count_r)
      view, i.e. every amplitude whose bit qb0 is set, and returns the view
      flattened again, which is `vec` itself. */
  method Z(n: nat, qb0: nat, vec: array<Complex>) returns (r: array<Complex>)
    requires qb0 < n && vec.Length == Pow(2, n)
    modifies vec
    ensures r == vec
    ensures vec[..] == JaxQC.Modulate1(old(vec[..]), JaxQC.ZDiag, qb0)
  {
    var count := Pow(2, n - qb0 - 1);
    var countR := Pow(2, qb0);
    ghost var v0 := vec[..];
    View3Slice(qb0, n, 1);
    forall a, c | 0 <= a < count && 0 <= c < countR {
      vec[View3(a, 1, c, countR)] := Neg(vec[View3(a, 1, c, countR)]);
    }
    ZResult(vec[..], v0, qb0, n);
    r := vec;
  }

  /** What z's slice assignment leaves behind. */
  lemma ZResult(cur: seq<Complex>, v0: seq<Complex>, q: nat, n: nat)
    requires q < n && |cur| == |v0| == Pow(2, n)
    requires forall a, c :: 0 <= a < Pow(2, n - q - 1) && 0 <= c < Pow(2, q) ==>
      0 <= View3(a, 1, c, Pow(2, q)) < |v0| &&
      cur[View3(a, 1, c, Pow(2, q))] == Neg(v0[View3(a, 1, c, Pow(2, q))])
    requires forall x ::
      (0 <= x < |cur| && forall a, c :: 0 <= a < Pow(2, n - q - 1) && 0 <= c < Pow(2, q) ==> View3(a, 1, c, Pow(2, q)) != x)
      ==> cur[x] == v0[x]
    ensures cur == JaxQC.Modulate1(v0, JaxQC.ZDiag, q)
  {
    var m := JaxQC.Modulate1(v0, JaxQC.ZDiag, q);
    var s := Pow(2, q);
    forall x | 0 <= x < |cur| ensures cur[x] == m[x] {
      View3Onto(x, q, n);
      if Bit(x, q) == 0 {
        forall a', c' | 0 <= a' < Pow(2, n - q - 1) && 0 <= c' < s
          ensures View3(a', 1, c', s) != x
        {
          View3Bounds(a', 1, c', q, n);
        }
      }
    }
  }

  /** `cz(n, qb0, qb1, vec)`: with q0 the larger and q1 the smaller qubit,
      negates the slice [:, 1, :, 1, :] of the five-dimensional view, i.e.
      every amplitude whose bits q0 and q1 are both set.  With equal qubits
      `count_small` is not an integer and the reshape fails, so the qubits
      must differ. */
  method CZ(n: nat, qb0: nat, qb1: nat, vec: array<Complex>)
    requires qb0 != qb1 && qb0 < n && qb1 < n && vec.Length == Pow(2, n)
    modifies vec
    ensures vec[..] == JaxQC.CZ(old(vec[..]), qb0, qb1)
  {
    var q0 := if qb0 > qb1 then qb0 else qb1;
    var q1 := if qb0 > qb1 then qb1 else qb0;
    var countLarge := Pow(2, n - q0 - 1);
    var countSmall := Pow(2, q0 - q1 - 1);
    var rest := vec.Length / (countLarge * 2 * countSmall * 2);
    ghost var v0 := vec[..];
    View5Slice(q0, q1, n);
    View5Injective(q0, q1, n);
    forall a, c, e | 0 <= a < countLarge && 0 <= c < countSmall && 0 <= e < rest {
      vec[View5(a, 1, c, 1, e, countSmall, rest)] := Neg(vec[View5(a, 1, c, 1, e, countSmall, rest)]);
    }
    CZResult(vec[..], v0, qb0, qb1, q0, q1, n);
  }

  /** What cz's slice assignment leaves behind. */
  lemma CZResult(cur: seq<Complex>, v0: seq<Complex>, qb0: nat, qb1: nat, q0: nat, q1: nat, n: nat)
    requires q1 < q0 < n && |cur| == |v0| == Pow(2, n)
    requires (q0 == qb0 && q1 == qb1) || (q0 == qb1 && q1 == qb0)
    requires forall a, c, e ::
      (0 <= a < Pow(2, n - q0 - 1) && 0 <= c < CountSmall(q0, q1) && 0 <= e < Pow(2, q1)) ==>
      var x := View5(a, 1, c, 1, e, CountSmall(q0, q1), Pow(2, q1));
      0 <= x < |v0| && cur[x] == Neg(v0[x])
    requires forall x ::
      (0 <= x < |cur| &&
       forall a, c, e :: (0 <= a < Pow(2, n - q0 - 1) && 0 <= c < CountSmall(q0, q1) && 0 <= e < Pow(2, q1)) ==>
         View5(a, 1, c, 1, e, CountSmall(q0, q1), Pow(2, q1)) != x)
      ==> cur[x] == v0[x]
    ensures cur == JaxQC.CZ(v0, qb0, qb1)
  {
    var r := JaxQC.CZ(v0, qb0, qb1);
    View5Slice(q0, q1, n);
    forall x | 0 <= x < |cur| ensures cur[x] == r[x] {
      if Bit(x, q0) == 1 && Bit(x, q1) == 1 {
        View5Onto(x, q0, q1, n);
      }
    }
  }

  /** `h(n, qb0, vec)`: first the slice [:, 0, :] becomes (v0 + v1) * sq2d, then
      the slice [:, 1, :] becomes the new [:, 0, :] minus sq2 * v1.  Element
      [a, b, c] of the view is the flat index x with bit qb0 equal to b, and
      its partner across the middle axis is x + 2^qb0 (`View3Slice`,
      `View3Onto`, `View3SliceIsBit`), so each slice assignment is written
      over the flat indices of its slice.  The source's
      `sq2d = 1/sqrt(2)` and `sq2 = sqrt(2)` are parameters here; with
      sq2 == 2 * sq2d the second step leaves (v0 - v1) * sq2d, and `HExact`
      shows that any vector this postcondition describes is JaxQC's h. */
  method H(n: nat, qb0: nat, vec: array<Complex>, sq2d: real, sq2: real)
    requires qb0 < n && vec.Length == Pow(2, n)
    modifies vec
    ensures forall x :: 0 <= x < vec.Length && Bit(x, qb0) == 0 ==>
      && x + Pow(2, qb0) < vec.Length
      && vec[x] == Scale(Add(old(vec[x]), old(vec[x + Pow(2, qb0)])), sq2d)
      && vec[x + Pow(2, qb0)] == Sub(vec[x], Scale(old(vec[x + Pow(2, qb0)]), sq2))
  {
    var countR := Pow(2, qb0);
    ghost var v0 := vec[..];
    SlicePartners(qb0, n);
    forall x | 0 <= x < vec.Length && Bit(x, qb0) == 0 {
      vec[x] := Scale(Add(vec[x], vec[x + countR]), sq2d);
    }
    ghost var v1 := vec[..];
    forall x | 0 <= x < vec.Length && Bit(x, qb0) == 1 {
      vec[x] := Sub(vec[x - countR], Scale(vec[x], sq2));
    }
    HResult(v0, v1, vec[..], qb0, n, sq2d, sq2);
  }

  /** What h's two slice assignments leave behind, pair by pair: v1 after
      the first, cur after the second. */
  lemma HResult(v0: seq<Complex>, v1: seq<Complex>, cur: seq<Complex>, q: nat, n: nat, sq2d: real, sq2: real)
    requires q < n && |v0| == |v1| == |cur| == Pow(2, n)
    requires forall x :: 0 <= x < |v0| && Bit(x, q) == 0 ==>
      x + Pow(2, q) < |v0| && v1[x] == Scale(Add(v0[x], v0[x + Pow(2, q)]), sq2d)
    requires forall x :: 0 <= x < |v0| && Bit(x, q) != 0 ==> v1[x] == v0[x]
    requires forall x :: 0 <= x < |v0| && Bit(x, q) == 1 ==>
      0 <= x - Pow(2, q) && cur[x] == Sub(v1[x - Pow(2, q)], Scale(v1[x], sq2))
    requires forall x :: 0 <= x < |v0| && Bit(x, q) != 1 ==> cur[x] == v1[x]
    ensures forall x :: 0 <= x < |cur| && Bit(x, q) == 0 ==>
      && x + Pow(2, q) < |cur|
      && cur[x] == Scale(Add(v0[x], v0[x + Pow(2, q)]), sq2d)
      && cur[x + Pow(2, q)] == Sub(cur[x], Scale(v0[x + Pow(2, q)], sq2))
  {
    forall x | 0 <= x < |cur| && Bit(x, q) == 0
      ensures x + Pow(2, q) < |cur|
      ensures cur[x] == Scale(Add(v0[x], v0[x + Pow(2, q)]), sq2d)
      ensures cur[x + Pow(2, q)] == Sub(cur[x], Scale(v0[x + Pow(2, q)], sq2))
    {
      PairPartner(x, q, n);
      assert x + Pow(2, q) - Pow(2, q) == x;
    }
  }

  /** The slice [:, b, :] of the (2^(n-q-1), 2, 2^q) view is the set of
      indices below 2^n whose bit q is b. */
  lemma View3SliceIsBit(q: nat, n: nat, b: int)
    requires q < n && (b == 0 || b == 1)
    ensures forall x :: 0 <= x < Pow(2, n) ==>
      (Bit(x, q) == b <==>
       exists a, c :: 0 <= a < Pow(2, n - q - 1) && 0 <= c < Pow(2, q) && View3(a, b, c, Pow(2, q)) == x)
  {
    View3Slice(q, n, b);
    forall x | 0 <= x < Pow(2, n) && Bit(x, q) == b
      ensures exists a, c :: 0 <= a < Pow(2, n - q - 1) && 0 <= c < Pow(2, q) && View3(a, b, c, Pow(2, q)) == x
    {
      View3Onto(x, q, n);
      var s := Pow(2, q);
      var a, c := Remove(x, q) / s, Remove(x, q) % s;
      assert View3(a, b, c, s) == x;
    }
  }

  /** Elements [a, 0, c] and [a, 1, c] of the view lie 2^q apart: every index
      with bit q clear has its partner 2^q above, and back. */
  lemma SlicePartners(q: nat, n: nat)
    requires q < n
    ensures forall x :: 0 <= x < Pow(2, n) && Bit(x, q) == 0 ==>
      x + Pow(2, q) < Pow(2, n) && Bit(x + Pow(2, q), q) == 1
    ensures forall x :: 0 <= x < Pow(2, n) && Bit(x, q) == 1 ==>
      0 <= x - Pow(2, q) && Bit(x - Pow(2, q), q) == 0
  {
    forall x | 0 <= x < Pow(2, n) && Bit(x, q) == 0
      ensures x + Pow(2, q) < Pow(2, n) && Bit(x + Pow(2, q), q) == 1
    {
      PairPartner(x, q, n);
    }
    forall x | 0 <= x < Pow(2, n) && Bit(x, q) == 1
      ensures 0 <= x - Pow(2, q) && Bit(x - Pow(2, q), q) == 0
    {
      PairPartnerDown(x, q, n);
    }
  }

  /** With sq2 == 2 * sq2d the two steps of h give JaxQC's h exactly. */
  lemma HExact(v0: seq<Complex>, cur: seq<Complex>, q: nat, n: nat, sq2d: real)
    requires q < n && |v0| == |cur| == Pow(2, n)
    requires forall x :: 0 <= x < |cur| && Bit(x, q) == 0 ==>
      && x + Pow(2, q) < |cur|
      && cur[x] == Scale(Add(v0[x], v0[x + Pow(2, q)]), sq2d)
      && cur[x + Pow(2, q)] == Sub(cur[x], Scale(v0[x + Pow(2, q)], 2.0 * sq2d))
    ensures cur == JaxQC.H(n, v0, q, sq2d)
  {
    var h := JaxQC.H(n, v0, q, sq2d);
    var s := Pow(2, q);
    forall x | 0 <= x < |cur| ensures cur[x] == h[x] {
      if Bit(x, q) == 0 {
        HSecondStep(v0[x], v0[x + s], sq2d);
      } else {
        PairPartnerDown(x, q, n);
        var y := x - s;
        HSecondStep(v0[y], v0[x], sq2d);
        assert y + s == x;
      }
    }
  }

  /** (a + b) d - 2 d b == (a - b) d. */
  lemma HSecondStep(a: Complex, b: Complex, d: real)
    ensures Sub(Scale(Add(a, b), d), Scale(b, 2.0 * d)) == Scale(Sub(a, b), d)
  {
  }
}
