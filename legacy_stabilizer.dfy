/** The earlier four-gate Pauli-frame rules, gate table ['h', 'cx', 'cz', 's'].
    They are the rules of `PauliFrame` under a renumbering (code 3 is S
    here), without phases and without the Pauli gates.  Its `pauli_merge`
    and `pauli_demux` are the ones of `Pauli`, line for line. */
module LegacyStabilizer {
  import opened Pauli
  import opened PauliFrame

  /** The gate of `PauliFrame` that a legacy code denotes; any other code
      does nothing, like code 8 there. */
  function LegacyOp(op: int): (r: int)
    ensures r == H || r == CX || r == CZ || r == S || r == 8
    ensures Arity(r) == (if op == 1 || op == 2 then 2 else if op == 0 || op == 3 then 1 else 0)
  {
    if op == 0 then H else if op == 1 then CX else if op == 2 then CZ else if op == 3 then S else 8
  }

  /** The legacy `pauli_commute`: updates `pvec` in place and returns nothing. */
  method LegacyCommute(pvec: array<int>, op: int, qargs: seq<int>)
    requires ArgsOk(LegacyOp(op), qargs, pvec.Length)
    modifies pvec
    ensures pvec[..] == Commute(old(pvec[..]), LegacyOp(op), qargs, 0).frame
  {
    if op == 0 {
      var qb := qargs[0];
      if pvec[qb] == 1 {
        pvec[qb] := 2;
      } else if pvec[qb] == 2 {
        pvec[qb] := 1;
      }
    } else if op == 1 {
      var src, trg := qargs[0], qargs[1];
      var newtrg, newsrc;
      if pvec[src] % 2 == 1 {
        newtrg := Merge(pvec[trg], 1);
      } else {
        newtrg := pvec[trg];
      }
      if pvec[trg] / 2 == 1 {
        newsrc := Merge(pvec[src], 2);
      } else {
        newsrc := pvec[src];
      }
      pvec[src] := newsrc;
      pvec[trg] := newtrg;
    } else if op == 2 {
      var src, trg := qargs[0], qargs[1];
      var newtrg, newsrc;
      if pvec[src] % 2 == 1 {
        newtrg := Merge(pvec[trg], 2);
      } else {
        newtrg := pvec[trg];
      }
      if pvec[trg] % 2 == 1 {
        newsrc := Merge(pvec[src], 2);
      } else {
        newsrc := pvec[src];
      }
      pvec[src] := newsrc;
      pvec[trg] := newtrg;
    } else if op == 3 {
      var zbit := pvec[qargs[0]] / 2;
      var xbit := pvec[qargs[0]] % 2;
      zbit := (zbit + xbit) % 2;
      pvec[qargs[0]] := 2 * zbit + xbit;
    }
  }

  /** The legacy rules on labels, bit by bit: H swaps the x- and z-bits, CX
      sets x_t += x_c and z_c += z_t, CZ sets z_t += x_c and z_c += x_t, and
      S (code 3) sets z += x; only the addressed labels change. */
  lemma LegacyRules(f: seq<int>, op: int, qargs: seq<int>)
    requires ArgsOk(LegacyOp(op), qargs, |f|) && DistinctArgs(LegacyOp(op), qargs) && AllLabels(f)
    ensures var r := Commute(f, LegacyOp(op), qargs, 0).frame;
      (op == 0 ==> HasX(r[qargs[0]]) == HasZ(f[qargs[0]]) && HasZ(r[qargs[0]]) == HasX(f[qargs[0]])) &&
      (op == 1 ==>
        HasX(r[qargs[1]]) == (HasX(f[qargs[1]]) != HasX(f[qargs[0]])) && HasZ(r[qargs[1]]) == HasZ(f[qargs[1]]) &&
        HasX(r[qargs[0]]) == HasX(f[qargs[0]]) && HasZ(r[qargs[0]]) == (HasZ(f[qargs[0]]) != HasZ(f[qargs[1]]))) &&
      (op == 2 ==>
        HasX(r[qargs[1]]) == HasX(f[qargs[1]]) && HasZ(r[qargs[1]]) == (HasZ(f[qargs[1]]) != HasX(f[qargs[0]])) &&
        HasX(r[qargs[0]]) == HasX(f[qargs[0]]) && HasZ(r[qargs[0]]) == (HasZ(f[qargs[0]]) != HasX(f[qargs[1]]))) &&
      (op == 3 ==> HasX(r[qargs[0]]) == HasX(f[qargs[0]]) && HasZ(r[qargs[0]]) == (HasZ(f[qargs[0]]) != HasX(f[qargs[0]]))) &&
      (!(0 <= op <= 3) ==> r == f)
  {
    if op == 0 {
      HRule(f[qargs[0]]);
    } else if op == 1 {
      CXRule(f[qargs[0]], f[qargs[1]]);
    } else if op == 2 {
      CZRule(f[qargs[0]], f[qargs[1]]);
    } else if op == 3 {
      SRule(f[qargs[0]]);
    }
  }

  /** Each legacy gate undoes itself on a frame of labels. */
  lemma LegacyCommuteTwice(f: seq<int>, op: int, qargs: seq<int>)
    requires ArgsOk(LegacyOp(op), qargs, |f|) && DistinctArgs(LegacyOp(op), qargs) && AllLabels(f)
    ensures Commute(Commute(f, LegacyOp(op), qargs, 0).frame, LegacyOp(op), qargs, 0).frame == f
  {
    CommuteTwice(f, LegacyOp(op), qargs, 0);
  }
}
