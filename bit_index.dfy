/** Bit addressing of a 2^n amplitude vector: index x holds the basis state
    whose qubit q is bit q of x.  For a target qubit q the kernels use
    stripe = 2^q and stride = 2 * stripe; `Insert` and `Remove` are the
    two directions of "put a bit at position q" / "take bit q out". */
module BitIndex {
  import opened Arith

  /** Bit q of x, `(x // 2**q) % 2`. */
  function Bit(x: int, q: nat): (r: int)
    ensures r == 0 || r == 1
  {
    (x / Pow(2, q)) % 2
  }

  /** The index whose bit q is b and whose other bits are those of i, read
      with the bits at and above q moved up by one place. */
  function Insert(i: int, q: nat, b: int): (r: int)
    requires b == 0 || b == 1
    ensures Bit(r, q) == b
    ensures r % Pow(2, q) == i % Pow(2, q)
    ensures Remove(r, q) == i
    ensures i >= 0 ==> r >= 0
  {
    var s := Pow(2, q);
    InsertArith(i, s, b);
    (i / s) * (2 * s) + b * s + i % s
  }

  /** The arithmetic behind Insert, over an arbitrary positive stripe s. */
  lemma InsertArith(i: int, s: int, b: int)
    requires s > 0 && (b == 0 || b == 1)
    ensures var r := (i / s) * (2 * s) + b * s + i % s;
      && (r / s) % 2 == b && r % s == i % s
      && (r / (2 * s)) * s + r % s == i
      && (i >= 0 ==> r >= 0)
  {
    var a, c := i / s, i % s;
    InsertDivs(a, c, s, b);
    assert (2 * a + b) % 2 == b by {
      DivModUnique(2 * a + b, 2, a, b);
    }
    assert i == a * s + c;
    if i >= 0 {
      assert 0 <= a * (2 * s) by {
        MulMonotone(0, a, 2 * s);
      }
    }
  }

  /** Quotients and remainder of a * 2s + b * s + c for 0 <= c < s. */
  lemma InsertDivs(a: int, c: int, s: int, b: int)
    requires s > 0 && 0 <= c < s && (b == 0 || b == 1)
    ensures var r := a * (2 * s) + b * s + c;
      r / s == 2 * a + b && r % s == c && r / (2 * s) == a
  {
    var r := a * (2 * s) + b * s + c;
    if b == 0 {
      assert r == (2 * a) * s + c by {
        MulAssociates(a, 2, s);
      }
      DivModUnique(r, s, 2 * a, c);
      DivModUnique(r, 2 * s, a, c);
    } else {
      assert r == (2 * a + 1) * s + c by {
        MulAssociates(a, 2, s);
      }
      DivModUnique(r, s, 2 * a + 1, c);
      DivModUnique(r, 2 * s, a, s + c);
    }
  }

  /** x with bit q taken out: the bits above q move down by one place. */
  function Remove(x: int, q: nat): int
  {
    var s := Pow(2, q);
    (x / (2 * s)) * s + x % s
  }

  /** Removing bit q and putting the same bit back gives x again. */
  lemma RemoveThenInsert(x: int, q: nat)
    ensures Insert(Remove(x, q), q, Bit(x, q)) == x
  {
    var s := Pow(2, q);
    var m, c := x / s, x % s;
    var b := Bit(x, q);
    assert x == m * s + c;
    assert m == 2 * (m / 2) + b;
    assert x == (m / 2) * (2 * s) + (b * s + c);
    DivModUnique(x, 2 * s, m / 2, b * s + c);
    var i := Remove(x, q);
    assert i == (m / 2) * s + c;
    DivModUnique(i, s, m / 2, c);
  }

  /** Insert is injective in both its index and its bit. */
  lemma InsertInjective(i1: int, b1: int, i2: int, b2: int, q: nat)
    requires b1 == 0 || b1 == 1
    requires b2 == 0 || b2 == 1
    requires Insert(i1, q, b1) == Insert(i2, q, b2)
    ensures i1 == i2 && b1 == b2
  {
  }

  /** Every x with bit q equal to b is the Insert of its Remove. */
  lemma InsertOnto(x: int, q: nat, b: int)
    requires b == 0 || b == 1
    requires Bit(x, q) == b
    ensures Insert(Remove(x, q), q, b) == x
  {
    RemoveThenInsert(x, q);
  }

  /** Inserting a bit at a position q <= m takes [0, 2^m) into [0, 2^(m+1)). */
  lemma InsertRange(i: int, q: nat, b: int, m: nat)
    requires b == 0 || b == 1
    requires 0 <= i < Pow(2, m) && q <= m
    ensures 0 <= Insert(i, q, b) < Pow(2, m + 1)
  {
    var s, t := Pow(2, q), Pow(2, m - q);
    PowAdd(2, m - q, q);
    InsertBound(i, s, t, b);
  }

  lemma InsertBound(i: int, s: int, t: int, b: int)
    requires s > 0 && 0 <= i < t * s && (b == 0 || b == 1)
    ensures (i / s) * (2 * s) + b * s + i % s < 2 * (t * s)
  {
    var a := i / s;
    DivBelow(i, s, t);
    assert b * s + i % s < 2 * s by {
      if b == 0 { assert b * s == 0; } else { assert b * s == s; }
    }
    assert a * (2 * s) + 2 * s == (a + 1) * (2 * s);
    MulMonotone(a + 1, t, 2 * s);
    assert t * (2 * s) == 2 * (t * s);
  }

  /** Removing a bit at a position q <= m takes [0, 2^(m+1)) into [0, 2^m). */
  lemma RemoveRange(x: int, q: nat, m: nat)
    requires 0 <= x < Pow(2, m + 1) && q <= m
    ensures 0 <= Remove(x, q) < Pow(2, m)
  {
    var s, t := Pow(2, q), Pow(2, m - q);
    PowAdd(2, m - q, q);
    RemoveBound(x, s, t);
  }

  lemma RemoveBound(x: int, s: int, t: int)
    requires s > 0 && 0 <= x < 2 * (t * s)
    ensures 0 <= (x / (2 * s)) * s + x % s < t * s
  {
    assert 2 * (t * s) == t * (2 * s) by {
      MulAssociates(2, t, s);
      MulAssociates(t, 2, s);
    }
    DivBelow(x, 2 * s, t);
    var a, c := x / (2 * s), x % s;
    assert a * s + c < (a + 1) * s by {
      MulSucc(a, s);
    }
    assert (a + 1) * s <= t * s by {
      MulMonotone(a + 1, t, s);
    }
    assert 0 <= a * s by {
      MulMonotone(0, a, s);
    }
  }

  /** A bit below position q depends only on the remainder modulo 2^q. */
  lemma BitBelow(x: int, p: nat, q: nat)
    requires p < q
    ensures Bit(x, p) == Bit(x % Pow(2, q), p)
  {
    var s, h := Pow(2, p), Pow(2, q - p - 1);
    PowAdd(2, q - p, p);
    assert Pow(2, q - p) == 2 * h;
    BitBelowArith(x, s, h);
  }

  lemma BitBelowArith(x: int, s: int, h: int)
    requires s > 0 && h > 0
    ensures (x / s) % 2 == ((x % ((2 * h) * s)) / s) % 2
  {
    var t := 2 * h;
    var bigQ, r := x / (t * s), x % (t * s);
    var r1, r0 := r / s, r % s;
    assert x == bigQ * (t * s) + r;
    assert bigQ * (t * s) + r1 * s == (bigQ * t + r1) * s;
    DivModUnique(x, s, bigQ * t + r1, r0);
    assert bigQ * t + r1 == (bigQ * h + r1 / 2) * 2 + r1 % 2;
    DivModUnique(bigQ * t + r1, 2, bigQ * h + r1 / 2, r1 % 2);
  }

  /** Inserting at q leaves every bit below q as it was. */
  lemma InsertKeepsLowBits(i: int, q: nat, b: int, p: nat)
    requires b == 0 || b == 1
    requires p < q
    ensures Bit(Insert(i, q, b), p) == Bit(i, p)
  {
    BitBelow(Insert(i, q, b), p, q);
    BitBelow(i, p, q);
  }

  /** Removing at q leaves every bit below q as it was. */
  lemma RemoveKeepsLowBits(x: int, q: nat, p: nat)
    requires p < q
    ensures Bit(Remove(x, q), p) == Bit(x, p)
  {
    RemoveThenInsert(x, q);
    InsertKeepsLowBits(Remove(x, q), q, Bit(x, q), p);
  }

  /** In a vector of 2^n entries, an index x with bit q clear has its
      partner x + 2^q in range, with bit q set and the same other bits. */
  lemma PairPartner(x: int, q: nat, n: nat)
    requires 0 <= x < Pow(2, n) && q < n && Bit(x, q) == 0
    ensures 0 <= x + Pow(2, q) < Pow(2, n)
    ensures Bit(x + Pow(2, q), q) == 1 && Remove(x + Pow(2, q), q) == Remove(x, q)
  {
    var r := Remove(x, q);
    InsertOnto(x, q, 0);
    InsertStep(r, q);
    RemoveRange(x, q, n - 1);
    InsertRange(r, q, 1, n - 1);
  }

  /** Setting the inserted bit adds 2^q. */
  lemma InsertStep(i: int, q: nat)
    ensures Insert(i, q, 1) == Insert(i, q, 0) + Pow(2, q)
  {
  }

  /** An index x with bit q set has its partner x - 2^q with bit q clear. */
  lemma PairPartnerDown(x: int, q: nat, n: nat)
    requires 0 <= x < Pow(2, n) && q < n && Bit(x, q) == 1
    ensures 0 <= x - Pow(2, q) && Bit(x - Pow(2, q), q) == 0
    ensures Remove(x - Pow(2, q), q) == Remove(x, q)
  {
    InsertOnto(x, q, 1);
    InsertStep(Remove(x, q), q);
    RemoveRange(x, q, n - 1);
    InsertRange(Remove(x, q), q, 0, n - 1);
  }
}
