/** Commuting a Pauli frame through one Clifford gate.  A frame holds one
    label per qubit; gate codes follow the gate table
    ['h', 'cx', 'cz', 'x', 'y', 'z', 's', 'sdg'].  The global phase
    picked up is kept as an exponent k of i (0: 1, 1: i, 2: -1, 3: -i). */
module PauliFrame {
  import opened Pauli

  const H := 0
  const CX := 1
  const CZ := 2
  const PauliX := 3
  const PauliY := 4
  const PauliZ := 5
  const S := 6
  const Sdg := 7

  /** Phase exponents: 1, i, -1 and -i. */
  const PlusOne := 0
  const PlusI := 1
  const MinusOneP := 2
  const MinusI := 3

  /** Multiplying two phases adds their exponents mod 4. */
  function PhaseMul(a: int, b: int): (r: int)
    ensures 0 <= r < 4
  {
    (a + b) % 4
  }

  /** The label of the Pauli gate with code 3, 4 or 5 (X, Y, Z). */
  function PauliOf(op: int): (r: int)
    requires PauliX <= op <= PauliZ
    ensures IsLabel(r) && r != I
  {
    if op == PauliX then X else if op == PauliY then Y else Z
  }

  /** `get_phase_1qb`: the phase picked up by label `pterm` through gate `op`. */
  function GetPhase1(pterm: int, op: int): (r: int)
    ensures 0 <= r < 4
  {
    if op == H then (if pterm == 3 then MinusOneP else PlusOne)
    else if op == PauliX then (if pterm == 1 || pterm == 0 then PlusOne else MinusOneP)
    else if op == PauliY then (if pterm == 3 || pterm == 0 then PlusOne else MinusOneP)
    else if op == PauliZ then (if pterm == 2 || pterm == 0 then PlusOne else MinusOneP)
    else if op == S then (if pterm % 2 == 1 then MinusI else PlusOne)
    else if op == Sdg then (if pterm % 2 == 1 then PlusI else PlusOne)
    else PlusOne
  }

  /** Through a Pauli gate a label picks up -1 exactly when it anticommutes
      with that Pauli, that is when it is neither I nor the gate's own Pauli. */
  lemma PhaseOfPauliGate(p: int, op: int)
    requires IsLabel(p) && PauliX <= op <= PauliZ
    ensures GetPhase1(p, op) == (if Anticommute(p, PauliOf(op)) then MinusOneP else PlusOne)
    ensures GetPhase1(p, op) == MinusOneP <==> p != I && p != PauliOf(op)
  {
    AnticommuteLabels(p, PauliOf(op));
  }

  /** Through H only Y picks up a sign; through S and Sdg a label picks up
      -i or +i exactly when its x-bit is set. */
  lemma PhaseOfCliffordGate(p: int)
    requires IsLabel(p)
    ensures GetPhase1(p, H) == MinusOneP <==> HasX(p) && HasZ(p)
    ensures GetPhase1(p, H) != MinusOneP ==> GetPhase1(p, H) == PlusOne
    ensures GetPhase1(p, S) == (if HasX(p) then MinusI else PlusOne)
    ensures GetPhase1(p, Sdg) == (if HasX(p) then PlusI else PlusOne)
    ensures PhaseMul(GetPhase1(p, S), GetPhase1(p, Sdg)) == PlusOne
  {
  }

  /** The H rule: X and Z are exchanged, I and Y are kept. */
  function HLabel(p: int): int
  {
    if p == 1 then 2 else if p == 2 then 1 else p
  }

  /** The S and Sdg rule: the x-bit is kept and z := z xor x. */
  function SLabel(p: int): int
  {
    var zbit := p / 2;
    var xbit := p % 2;
    2 * ((zbit + xbit) % 2) + xbit
  }

  /** The CX rules: the target gains X when the control carries X, and the
      control gains Z when the target carries Z. */
  function CXTarget(src: int, trg: int): int
  {
    if HasX(src) then Merge(trg, X) else trg
  }

  function CXControl(src: int, trg: int): int
  {
    if HasZ(trg) then Merge(src, Z) else src
  }

  /** The CZ rule: each side gains Z when the other side carries X. */
  function CZTarget(src: int, trg: int): int
  {
    if HasX(src) then Merge(trg, Z) else trg
  }

  /** H exchanges the x-bit and the z-bit, so applying it twice is the identity. */
  lemma HRule(p: int)
    requires IsLabel(p)
    ensures IsLabel(HLabel(p))
    ensures HasX(HLabel(p)) == HasZ(p) && HasZ(HLabel(p)) == HasX(p)
    ensures HLabel(HLabel(p)) == p
  {
  }

  /** S keeps the x-bit and adds it to the z-bit; twice, it restores the label. */
  lemma SRule(p: int)
    requires IsLabel(p)
    ensures IsLabel(SLabel(p))
    ensures HasX(SLabel(p)) == HasX(p) && HasZ(SLabel(p)) == (HasZ(p) != HasX(p))
    ensures SLabel(SLabel(p)) == p
  {
    if p == 0 {
    } else if p == 1 {
      assert SLabel(p) == 3;
    } else if p == 2 {
    } else {
      assert SLabel(p) == 1;
    }
  }

  /** CX on bits: x_t += x_c and z_c += z_t, the other two bits unchanged. */
  lemma CXRule(c: int, t: int)
    requires IsLabel(c) && IsLabel(t)
    ensures HasX(CXTarget(c, t)) == (HasX(t) != HasX(c)) && HasZ(CXTarget(c, t)) == HasZ(t)
    ensures HasX(CXControl(c, t)) == HasX(c) && HasZ(CXControl(c, t)) == (HasZ(c) != HasZ(t))
  {
    MergeBits(t, X);
    MergeBits(c, Z);
  }

  /** CZ on bits: z_t += x_c and z_c += x_t, the x-bits unchanged. */
  lemma CZRule(c: int, t: int)
    requires IsLabel(c) && IsLabel(t)
    ensures HasX(CZTarget(c, t)) == HasX(t) && HasZ(CZTarget(c, t)) == (HasZ(t) != HasX(c))
    ensures HasX(CZTarget(t, c)) == HasX(c) && HasZ(CZTarget(t, c)) == (HasZ(c) != HasX(t))
  {
    MergeBits(t, Z);
    MergeBits(c, Z);
  }

  /** The number of qubit arguments a gate code reads. */
  function Arity(op: int): nat
  {
    if op == CX || op == CZ then 2
    else if op == H || PauliX <= op <= Sdg then 1
    else 0
  }

  /** The qubit arguments a gate reads are indices of the frame. */
  predicate ArgsOk(op: int, qargs: seq<int>, n: int)
  {
    Arity(op) <= |qargs| && forall k :: 0 <= k < Arity(op) ==> 0 <= qargs[k] < n
  }

  /** The frame after the gate, and the phase exponent it picked up. */
  datatype Commuted = Commuted(frame: seq<int>, phase: int)

  /** `pauli_commute` on a frame value.  The two-qubit rules read both labels
      before writing either, and write the control first, so that with
      `qargs[0] == qargs[1]` the target's value wins. */
  function Commute(f: seq<int>, op: int, qargs: seq<int>, mode: int): (r: Commuted)
    requires ArgsOk(op, qargs, |f|)
    ensures |r.frame| == |f| && 0 <= r.phase < 4
    ensures forall k :: 0 <= k < |f| && k !in qargs[..Arity(op)] ==> r.frame[k] == f[k]
    ensures AllLabels(f) ==> AllLabels(r.frame)
  {
    if op == H then
      var q := qargs[0];
      Commuted(f[q := HLabel(f[q])], GetPhase1(f[q], op))
    else if op == CX then
      var src, trg := qargs[0], qargs[1];
      Commuted(f[src := CXControl(f[src], f[trg])][trg := CXTarget(f[src], f[trg])], PlusOne)
    else if op == CZ then
      var src, trg := qargs[0], qargs[1];
      var phase := if f[src] % 2 == 1 && f[trg] % 2 == 1 then MinusOneP else PlusOne;
      Commuted(f[src := CZTarget(f[trg], f[src])][trg := CZTarget(f[src], f[trg])], phase)
    else if PauliX <= op <= PauliZ then
      var q := qargs[0];
      if mode == 0 then Commuted(f, GetPhase1(f[q], op))
      else Commuted(f[q := Merge(f[q], PauliOf(op))], PlusOne)
    else if op == S || op == Sdg then
      var q := qargs[0];
      Commuted(f[q := SLabel(f[q])], GetPhase1(f[q], op))
    else
      Commuted(f, PlusOne)
  }

  /** `pauli_commute` on the caller's buffer: `pvec` is updated in place and
      the phase exponent is returned. */
  method PauliCommute(pvec: array<int>, op: int, qargs: seq<int>, mode: int) returns (phase: int)
    requires ArgsOk(op, qargs, pvec.Length)
    modifies pvec
    ensures pvec[..] == Commute(old(pvec[..]), op, qargs, mode).frame
    ensures phase == Commute(old(pvec[..]), op, qargs, mode).phase
  {
    phase := PlusOne;
    if op == H {
      var qb := qargs[0];
      phase := GetPhase1(pvec[qb], op);
      if pvec[qb] == 1 {
        pvec[qb] := 2;
      } else if pvec[qb] == 2 {
        pvec[qb] := 1;
      }
    } else if op == CX {
      var src, trg := qargs[0], qargs[1];
      var newtrg, newsrc;
      if pvec[src] % 2 == 1 {
        newtrg := Merge(pvec[trg], X);
      } else {
        newtrg := pvec[trg];
      }
      if pvec[trg] / 2 == 1 {
        newsrc := Merge(pvec[src], Z);
      } else {
        newsrc := pvec[src];
      }
      pvec[src] := newsrc;
      pvec[trg] := newtrg;
    } else if op == CZ {
      var src, trg := qargs[0], qargs[1];
      var newtrg, newsrc;
      if pvec[src] % 2 == 1 {
        newtrg := Merge(pvec[trg], Z);
      } else {
        newtrg := pvec[trg];
      }
      if pvec[trg] % 2 == 1 {
        newsrc := Merge(pvec[src], Z);
      } else {
        newsrc := pvec[src];
      }
      if pvec[src] % 2 == 1 && pvec[trg] % 2 == 1 {
        phase := MinusOneP;
      }
      pvec[src] := newsrc;
      pvec[trg] := newtrg;
    } else if PauliX <= op <= PauliZ {
      if mode == 0 {
        phase := GetPhase1(pvec[qargs[0]], op);
      } else {
        pvec[qargs[0]] := Merge(pvec[qargs[0]], PauliOf(op));
      }
    } else if op == S || op == Sdg {
      phase := GetPhase1(pvec[qargs[0]], op);
      var zbit := pvec[qargs[0]] / 2;
      var xbit := pvec[qargs[0]] % 2;
      zbit := (zbit + xbit) % 2;
      pvec[qargs[0]] := 2 * zbit + xbit;
    }
  }

  /** CX never changes the phase; CZ gives -1 exactly when both labels
      carry an X. */
  lemma TwoQubitPhase(f: seq<int>, op: int, qargs: seq<int>, mode: int)
    requires ArgsOk(op, qargs, |f|) && (op == CX || op == CZ)
    ensures op == CX ==> Commute(f, op, qargs, mode).phase == PlusOne
    ensures op == CZ ==>
      (Commute(f, op, qargs, mode).phase == if HasX(f[qargs[0]]) && HasX(f[qargs[1]]) then MinusOneP else PlusOne)
  {
  }

  /** Gates with distinct qubit arguments; CX and CZ on one qubit are not
      Clifford gates. */
  predicate DistinctArgs(op: int, qargs: seq<int>)
    requires Arity(op) <= |qargs|
  {
    Arity(op) == 2 ==> qargs[0] != qargs[1]
  }

  /** In mode 0 the all-I frame passes through every gate unchanged and
      with phase 1. */
  lemma CommuteIdentityFrame(f: seq<int>, op: int, qargs: seq<int>)
    requires ArgsOk(op, qargs, |f|)
    requires forall k :: 0 <= k < |f| ==> f[k] == I
    ensures Commute(f, op, qargs, 0).frame == f
    ensures Commute(f, op, qargs, 0).phase == PlusOne
  {
  }

  /** Through a Pauli gate in mode 0 the frame is unchanged and the phase
      is -1 exactly when the addressed label anticommutes with the gate;
      in any other mode the gate's Pauli is merged in and the phase is 1. */
  lemma CommutePauliGate(f: seq<int>, op: int, qargs: seq<int>, mode: int)
    requires ArgsOk(op, qargs, |f|) && PauliX <= op <= PauliZ && AllLabels(f)
    ensures mode == 0 ==> Commute(f, op, qargs, mode).frame == f
    ensures mode == 0 ==>
      (Commute(f, op, qargs, mode).phase == MinusOneP <==> Anticommute(f[qargs[0]], PauliOf(op)))
    ensures mode != 0 ==> Commute(f, op, qargs, mode).phase == PlusOne
    ensures mode != 0 ==> Commute(f, op, qargs, mode).frame[qargs[0]] == Merge(f[qargs[0]], PauliOf(op))
  {
    PhaseOfPauliGate(f[qargs[0]], op);
  }

  /** Every rule undoes itself on labels: commuting twice through the same
      gate gives the frame back (CX and CZ on distinct qubits). */
  lemma CommuteTwice(f: seq<int>, op: int, qargs: seq<int>, mode: int)
    requires ArgsOk(op, qargs, |f|) && DistinctArgs(op, qargs) && AllLabels(f)
    ensures Commute(Commute(f, op, qargs, mode).frame, op, qargs, mode).frame == f
  {
    var g := Commute(f, op, qargs, mode).frame;
    var h := Commute(g, op, qargs, mode).frame;
    if op == H {
      HRule(f[qargs[0]]);
      assert h == f;
    } else if op == CX {
      CXInvolution(f[qargs[0]], f[qargs[1]]);
      assert h == f;
    } else if op == CZ {
      CZInvolution(f[qargs[0]], f[qargs[1]]);
      assert h == f;
    } else if PauliX <= op <= PauliZ {
      if mode != 0 {
        MergeSelfInverse(f[qargs[0]], PauliOf(op));
        assert h == f;
      }
    } else if op == S || op == Sdg {
      SRule(f[qargs[0]]);
      assert h == f;
    }
  }

  /** CX applied twice to a control label c and a target label t gives them back. */
  lemma CXInvolution(c: int, t: int)
    requires IsLabel(c) && IsLabel(t)
    ensures CXControl(CXControl(c, t), CXTarget(c, t)) == c
    ensures CXTarget(CXControl(c, t), CXTarget(c, t)) == t
  {
    CXRule(c, t);
    CXRule(CXControl(c, t), CXTarget(c, t));
    LabelByBits(CXControl(CXControl(c, t), CXTarget(c, t)), c);
    LabelByBits(CXTarget(CXControl(c, t), CXTarget(c, t)), t);
  }

  /** CZ applied twice to labels c and t gives them back. */
  lemma CZInvolution(c: int, t: int)
    requires IsLabel(c) && IsLabel(t)
    ensures CZTarget(CZTarget(c, t), CZTarget(t, c)) == c
    ensures CZTarget(CZTarget(t, c), CZTarget(c, t)) == t
  {
    CZRule(c, t);
    CZRule(CZTarget(t, c), CZTarget(c, t));
    LabelByBits(CZTarget(CZTarget(c, t), CZTarget(t, c)), c);
    LabelByBits(CZTarget(CZTarget(t, c), CZTarget(c, t)), t);
  }

  /** Label-wise product of two frames of one length. */
  function MergeFrames(a: seq<int>, b: seq<int>): (r: seq<int>)
    requires |a| == |b|
    ensures |r| == |a| && AllLabels(r)
    ensures forall k :: 0 <= k < |a| ==> r[k] == Merge(a[k], b[k])
  {
    seq(|a|, k requires 0 <= k < |a| => Merge(a[k], b[k]))
  }

  /** Conjugation by a Clifford gate respects products: commuting the product
      of two frames gives the product of the commuted frames (mode 0, or any
      gate other than X, Y, Z; CX and CZ on distinct qubits). */
  lemma CommuteRespectsMerge(a: seq<int>, b: seq<int>, op: int, qargs: seq<int>, mode: int)
    requires |a| == |b| && AllLabels(a) && AllLabels(b)
    requires ArgsOk(op, qargs, |a|) && DistinctArgs(op, qargs)
    requires mode == 0 || !(PauliX <= op <= PauliZ)
    ensures Commute(MergeFrames(a, b), op, qargs, mode).frame
      == MergeFrames(Commute(a, op, qargs, mode).frame, Commute(b, op, qargs, mode).frame)
  {
    var m := MergeFrames(a, b);
    if op == H {
      var q := qargs[0];
      MergeHomomorphic1(a[q], b[q], 0);
      MergeFramesUpdate(a, b, q, HLabel(a[q]), HLabel(b[q]));
    } else if op == CX {
      var s, t := qargs[0], qargs[1];
      CXControlMerge(a[s], a[t], b[s], b[t]);
      CXTargetMerge(a[s], a[t], b[s], b[t]);
      var a1, b1 := a[s := CXControl(a[s], a[t])], b[s := CXControl(b[s], b[t])];
      MergeFramesUpdate(a, b, s, a1[s], b1[s]);
      MergeFramesUpdate(a1, b1, t, CXTarget(a[s], a[t]), CXTarget(b[s], b[t]));
    } else if op == CZ {
      var s, t := qargs[0], qargs[1];
      CZTargetMerge(a[t], a[s], b[t], b[s]);
      CZTargetMerge(a[s], a[t], b[s], b[t]);
      var a1, b1 := a[s := CZTarget(a[t], a[s])], b[s := CZTarget(b[t], b[s])];
      MergeFramesUpdate(a, b, s, a1[s], b1[s]);
      MergeFramesUpdate(a1, b1, t, CZTarget(a[s], a[t]), CZTarget(b[s], b[t]));
    } else if op == S || op == Sdg {
      var q := qargs[0];
      MergeHomomorphic1(a[q], b[q], 1);
      MergeFramesUpdate(a, b, q, SLabel(a[q]), SLabel(b[q]));
    }
  }

  /** Merging two frames after updating the same qubit in each is updating
      their merge at that qubit. */
  lemma MergeFramesUpdate(a: seq<int>, b: seq<int>, q: int, x: int, y: int)
    requires |a| == |b| && 0 <= q < |a|
    ensures MergeFrames(a[q := x], b[q := y]) == MergeFrames(a, b)[q := Merge(x, y)]
  {
  }

  /** HLabel (rule 0) and SLabel (rule 1) respect Merge. */
  lemma MergeHomomorphic1(p: int, q: int, rule: int)
    requires IsLabel(p) && IsLabel(q)
    ensures rule == 0 ==> HLabel(Merge(p, q)) == Merge(HLabel(p), HLabel(q))
    ensures rule == 1 ==> SLabel(Merge(p, q)) == Merge(SLabel(p), SLabel(q))
  {
    var m := Merge(p, q);
    MergeBits(p, q);
    if rule == 0 {
      HRule(p);
      HRule(q);
      HRule(m);
      MergeBits(HLabel(p), HLabel(q));
      LabelByBits(HLabel(m), Merge(HLabel(p), HLabel(q)));
    } else if rule == 1 {
      SRule(p);
      SRule(q);
      SRule(m);
      MergeBits(SLabel(p), SLabel(q));
      LabelByBits(SLabel(m), Merge(SLabel(p), SLabel(q)));
    }
  }

  /** The rules of CX and CZ respect Merge: each output label is linear in
      the pair (control, target).  Here (c1, t1) and (c2, t2) are two pairs
      of labels and the left-hand sides act on their label-wise product. */
  lemma CXControlMerge(c1: int, t1: int, c2: int, t2: int)
    requires IsLabel(c1) && IsLabel(t1) && IsLabel(c2) && IsLabel(t2)
    ensures CXControl(Merge(c1, c2), Merge(t1, t2)) == Merge(CXControl(c1, t1), CXControl(c2, t2))
  {
    MergeBits(c1, c2);
    MergeBits(t1, t2);
    CXRule(c1, t1);
    CXRule(c2, t2);
    CXRule(Merge(c1, c2), Merge(t1, t2));
    MergeBits(CXControl(c1, t1), CXControl(c2, t2));
    LabelByBits(CXControl(Merge(c1, c2), Merge(t1, t2)), Merge(CXControl(c1, t1), CXControl(c2, t2)));
  }

  lemma CXTargetMerge(c1: int, t1: int, c2: int, t2: int)
    requires IsLabel(c1) && IsLabel(t1) && IsLabel(c2) && IsLabel(t2)
    ensures CXTarget(Merge(c1, c2), Merge(t1, t2)) == Merge(CXTarget(c1, t1), CXTarget(c2, t2))
  {
    MergeBits(c1, c2);
    MergeBits(t1, t2);
    CXRule(c1, t1);
    CXRule(c2, t2);
    CXRule(Merge(c1, c2), Merge(t1, t2));
    MergeBits(CXTarget(c1, t1), CXTarget(c2, t2));
    LabelByBits(CXTarget(Merge(c1, c2), Merge(t1, t2)), Merge(CXTarget(c1, t1), CXTarget(c2, t2)));
  }

  /** CZ's rule, used for both of its outputs with the roles swapped. */
  lemma CZTargetMerge(c1: int, t1: int, c2: int, t2: int)
    requires IsLabel(c1) && IsLabel(t1) && IsLabel(c2) && IsLabel(t2)
    ensures CZTarget(Merge(c1, c2), Merge(t1, t2)) == Merge(CZTarget(c1, t1), CZTarget(c2, t2))
  {
    MergeBits(c1, c2);
    MergeBits(t1, t2);
    CZRule(c1, t1);
    CZRule(c2, t2);
    CZRule(Merge(c1, c2), Merge(t1, t2));
    MergeBits(CZTarget(c1, t1), CZTarget(c2, t2));
    LabelByBits(CZTarget(Merge(c1, c2), Merge(t1, t2)), Merge(CZTarget(c1, t1), CZTarget(c2, t2)));
  }
}
