/** Propagating a Pauli frame through a whole classically controlled, noisy
    Clifford circuit.  A program is a list of instructions: gate codes 0..8
    (conditionally) commute the frame, code 9 measures and resets a qubit,
    code 10 is a guard that fails when a qubit's label is one of the listed
    values, and every noisy instruction merges the next noise integer, split
    into base-4 digits, into the labels of its qubits. */
module Propagation {
  import opened Arith
  import opened Radix
  import opened Pauli
  import opened PauliFrame

  const Measure := 9
  const Guard := 10

  /** One row of the circuit arrays: the gate code (`opnames`), whether it is
      noisy (`noiseid`), its classical condition (`condval`, `contype`,
      `conbits`) and its qubit and classical-bit arguments (`opqargs`,
      `opcargs`).  For a guard, `conbits` lists the forbidden labels. */
  datatype Instruction = Instruction(
    name: int, noisy: bool,
    condval: int, contype: int, conbits: seq<int>,
    qargs: seq<int>, cargs: seq<int>)

  /** Every entry of `idx` indexes a sequence of length n. */
  predicate Indices(idx: seq<int>, n: int)
  {
    forall k :: 0 <= k < |idx| ==> 0 <= idx[k] < n
  }

  /** The register bits selected by `conbits`, in that order. */
  function Gather(cvals: seq<int>, conbits: seq<int>): (r: seq<int>)
    requires Indices(conbits, |cvals|)
    ensures |r| == |conbits|
    ensures forall k :: 0 <= k < |conbits| ==> r[k] == cvals[conbits[k]]
  {
    seq(|conbits|, k requires 0 <= k < |conbits| => cvals[conbits[k]])
  }

  /** The value a condition compares: the selected bits read little-endian,
      sum of 2^idx * cvals[conbits[idx]]. */
  function CondValue(cvals: seq<int>, conbits: seq<int>): (r: int)
    requires Indices(conbits, |cvals|)
    ensures AllBits(cvals) ==> 0 <= r < Pow(2, |conbits|)
  {
    var d := Gather(cvals, conbits);
    if AllBits(cvals) then
      assert AllDigits(d, 2);
      LittleEndianBound(d, 2);
      LittleEndian(d, 2)
    else
      LittleEndian(d, 2)
  }

  /** Whether a gate with this condition is applied. */
  predicate Fires(v: int, condval: int, contype: int)
  {
    if contype == 1 then v == condval
    else if contype == 2 then v != condval
    else contype == 0
  }

  predicate AllBits(c: seq<int>)
  {
    forall k :: 0 <= k < |c| ==> 0 <= c[k] < 2
  }

  /** Over a register of bits the condition value is the number whose
      binary digits are the selected bits, least significant first. */
  lemma CondValueIsBinary(cvals: seq<int>, conbits: seq<int>)
    requires Indices(conbits, |cvals|) && AllBits(cvals)
    ensures 0 <= CondValue(cvals, conbits) < Pow(2, |conbits|)
    ensures Digits(|conbits|, CondValue(cvals, conbits), 2) == Gather(cvals, conbits)
  {
    var g := Gather(cvals, conbits);
    assert AllDigits(g, 2);
    LittleEndianBound(g, 2);
    DigitsOfLittleEndian(g, 2);
  }

  /** `check_condition`: accumulates the selected bits into `val` and
      compares it with `condval` according to `contype`. */
  method CheckCondition(cvals: array<int>, condval: int, contype: int, conbits: seq<int>)
    returns (goflag: bool)
    requires Indices(conbits, cvals.Length)
    ensures goflag <==>
      contype == 0 ||
      (contype == 1 && CondValue(cvals[..], conbits) == condval) ||
      (contype == 2 && CondValue(cvals[..], conbits) != condval)
  {
    ghost var g := Gather(cvals[..], conbits);
    var val := 0;
    var idx := 0;
    while idx < |conbits|
      invariant 0 <= idx <= |conbits|
      invariant val + Pow(2, idx) * LittleEndian(g[idx..], 2) == LittleEndian(g, 2)
    {
      assert g[idx..][1..] == g[idx + 1..];
      AccumulateDigit(Pow(2, idx), g[idx], LittleEndian(g[idx + 1..], 2));
      val := val + Pow(2, idx) * cvals[conbits[idx]];
      idx := idx + 1;
    }
    goflag := false;
    if contype == 1 {
      goflag := val == condval;
    } else if contype == 2 {
      goflag := val != condval;
    } else if contype == 0 {
      goflag := true;
    }
  }

  /** Adding one digit of weight w to the accumulated value. */
  lemma AccumulateDigit(w: int, d: int, rest: int)
    ensures w * (d + 2 * rest) == w * d + (2 * w) * rest
  {
  }

  /** The state `propagate` carries: the frame, the classical register, the
      phase exponent and the number of noise integers used so far. */
  datatype State = State(pvec: seq<int>, carr: seq<int>, phase: int, idxNoise: nat)

  /** A run either completes or raises "Does not commute!" at a guard; in
      both cases the buffers hold the state reached. */
  datatype Outcome = Completed(state: State) | Raised(state: State)

  /** What an instruction needs of its arguments: the qubits a gate reads,
      the condition's register bits, the measured qubit and its classical
      bit, the guarded qubit, and under noise every qubit argument. */
  predicate InstructionOk(ins: Instruction, nq: int, nc: int)
  {
    (ins.name < Measure ==> ArgsOk(ins.name, ins.qargs, nq) && Indices(ins.conbits, nc)) &&
    (ins.name == Measure ==>
      |ins.qargs| >= 1 && 0 <= ins.qargs[0] < nq && |ins.cargs| >= 1 && 0 <= ins.cargs[0] < nc) &&
    (ins.name == Guard ==> |ins.qargs| >= 1 && 0 <= ins.qargs[0] < nq) &&
    (ins.noisy ==> Indices(ins.qargs, nq))
  }

  predicate ProgramOk(prog: seq<Instruction>, nq: int, nc: int)
  {
    forall i :: 0 <= i < |prog| ==> InstructionOk(prog[i], nq, nc)
  }

  /** The number of noisy instructions, one noise integer each. */
  function NoisyCount(prog: seq<Instruction>): nat
  {
    if prog == [] then 0 else (if prog[0].noisy then 1 else 0) + NoisyCount(prog[1..])
  }

  /** Merging the digits into the addressed labels one after the other, in
      argument order (a repeated qubit is merged twice). */
  function ApplyNoise(f: seq<int>, qargs: seq<int>, digits: seq<int>): (r: seq<int>)
    requires |qargs| == |digits| && Indices(qargs, |f|)
    ensures |r| == |f|
    ensures forall k :: 0 <= k < |f| && k !in qargs ==> r[k] == f[k]
    ensures AllLabels(f) ==> AllLabels(r)
    decreases |qargs|
  {
    if qargs == [] then f
    else
      var m := |qargs| - 1;
      var g := ApplyNoise(f, qargs[..m], digits[..m]);
      g[qargs[m] := Merge(g[qargs[m]], digits[m])]
  }

  /** The gate part of one instruction, before its noise. */
  function Gate(ins: Instruction, s: State, mode: int): (o: Outcome)
    requires InstructionOk(ins, |s.pvec|, |s.carr|)
    ensures |o.state.pvec| == |s.pvec| && |o.state.carr| == |s.carr|
    ensures o.state.idxNoise == s.idxNoise
    ensures ins.name != Measure ==> o.state.carr == s.carr
  {
    if ins.name < Measure then
      if Fires(CondValue(s.carr, ins.conbits), ins.condval, ins.contype) then
        var c := Commute(s.pvec, ins.name, ins.qargs, mode);
        Completed(s.(pvec := c.frame, phase := PhaseMul(s.phase, c.phase)))
      else Completed(s)
    else if ins.name == Measure then
      var q, cb := ins.qargs[0], ins.cargs[0];
      Completed(s.(carr := s.carr[cb := s.pvec[q] % 2], pvec := s.pvec[q := I]))
    else if ins.name == Guard then
      if s.pvec[ins.qargs[0]] in ins.conbits then Raised(s) else Completed(s)
    else Completed(s)
  }

  /** The noise part of one instruction: the next noise integer, demultiplexed
      over the instruction's qubits. */
  function Noise(ins: Instruction, noise: seq<int>, s: State): (t: State)
    requires Indices(ins.qargs, |s.pvec|) || !ins.noisy
    requires ins.noisy ==> s.idxNoise < |noise|
    ensures |t.pvec| == |s.pvec| && t.carr == s.carr && t.phase == s.phase
    ensures t.idxNoise == s.idxNoise + (if ins.noisy then 1 else 0)
  {
    if ins.noisy then
      var digits := Digits(|ins.qargs|, noise[s.idxNoise], 4);
      s.(pvec := ApplyNoise(s.pvec, ins.qargs, digits), idxNoise := s.idxNoise + 1)
    else s
  }

  /** One instruction: its gate, then, unless the guard raised, its noise. */
  function Step(ins: Instruction, noise: seq<int>, s: State, mode: int): (o: Outcome)
    requires InstructionOk(ins, |s.pvec|, |s.carr|)
    requires ins.noisy ==> s.idxNoise < |noise|
    ensures |o.state.pvec| == |s.pvec| && |o.state.carr| == |s.carr|
    ensures ins.name != Measure ==> o.state.carr == s.carr
  {
    var g := Gate(ins, s, mode);
    if g.Raised? then g else Completed(Noise(ins, noise, g.state))
  }

  /** The whole program, stopping at the first guard that raises. */
  function Run(prog: seq<Instruction>, noise: seq<int>, s: State, mode: int): (o: Outcome)
    requires ProgramOk(prog, |s.pvec|, |s.carr|)
    requires s.idxNoise + NoisyCount(prog) <= |noise|
    ensures |o.state.pvec| == |s.pvec| && |o.state.carr| == |s.carr|
    ensures (forall i :: 0 <= i < |prog| ==> prog[i].name != Measure) ==> o.state.carr == s.carr
    decreases |prog|
  {
    if prog == [] then Completed(s)
    else
      var o := Step(prog[0], noise, s, mode);
      if o.Raised? then o
      else
        NoiseIndexAfterStep(prog[0], noise, s, mode);
        Run(prog[1..], noise, o.state, mode)
  }

  /** A completed step uses one noise integer if and only if it is noisy. */
  lemma NoiseIndexAfterStep(ins: Instruction, noise: seq<int>, s: State, mode: int)
    requires InstructionOk(ins, |s.pvec|, |s.carr|)
    requires ins.noisy ==> s.idxNoise < |noise|
    requires Step(ins, noise, s, mode).Completed?
    ensures Step(ins, noise, s, mode).state.idxNoise == s.idxNoise + (if ins.noisy then 1 else 0)
  {
  }

  /** The gate part of one iteration of `propagate` on the buffers. */
  method GateOnBuffers(pvec: array<int>, carr: array<int>, ins: Instruction, mode: int,
                       phase0: int, ghost idxNoise: nat)
    returns (raised: bool, phase: int)
    requires pvec != carr
    requires InstructionOk(ins, pvec.Length, carr.Length)
    modifies pvec, carr
    ensures var o := Gate(ins, State(old(pvec[..]), old(carr[..]), phase0, idxNoise), mode);
      raised == o.Raised? && pvec[..] == o.state.pvec && carr[..] == o.state.carr && phase == o.state.phase
  {
    raised := false;
    phase := phase0;
    if ins.name < Measure {
      var doGate := CheckCondition(carr, ins.condval, ins.contype, ins.conbits);
      if doGate {
        var p := PauliCommute(pvec, ins.name, ins.qargs, mode);
        phase := PhaseMul(phase, p);
      }
    } else if ins.name == Measure {
      carr[ins.cargs[0]] := pvec[ins.qargs[0]] % 2;
      pvec[ins.qargs[0]] := I;
    } else if ins.name == Guard {
      var k := 0;
      while k < |ins.conbits|
        invariant 0 <= k <= |ins.conbits|
        invariant pvec[ins.qargs[0]] !in ins.conbits[..k]
      {
        if pvec[ins.qargs[0]] == ins.conbits[k] {
          raised := true;
          return;
        }
        assert ins.conbits[..k + 1] == ins.conbits[..k] + [ins.conbits[k]];
        k := k + 1;
      }
      assert ins.conbits[..k] == ins.conbits;
    }
  }

  /** The noise part of one iteration: demultiplex `noisevalue` over the
      instruction's qubits and merge each digit into its qubit's label. */
  method NoiseOnBuffer(pvec: array<int>, qargs: seq<int>, noisevalue: int)
    requires Indices(qargs, pvec.Length)
    modifies pvec
    ensures pvec[..] == ApplyNoise(old(pvec[..]), qargs, Digits(|qargs|, noisevalue, 4))
  {
    var pchar := Demux(|qargs|, noisevalue);
    ghost var g := pvec[..];
    var c := 0;
    while c < |pchar|
      invariant 0 <= c <= |pchar|
      invariant pvec[..] == ApplyNoise(g, qargs[..c], pchar[..c])
    {
      ApplyNoiseSnoc(g, qargs, pchar, c);
      pvec[qargs[c]] := Merge(pvec[qargs[c]], pchar[c]);
      c := c + 1;
    }
    assert qargs[..c] == qargs && pchar[..c] == pchar;
  }

  /** Merging one more digit extends the noise by one update. */
  lemma ApplyNoiseSnoc(f: seq<int>, qargs: seq<int>, digits: seq<int>, c: int)
    requires |qargs| == |digits| && Indices(qargs, |f|) && 0 <= c < |qargs|
    ensures var g := ApplyNoise(f, qargs[..c], digits[..c]);
      ApplyNoise(f, qargs[..c + 1], digits[..c + 1]) == g[qargs[c] := Merge(g[qargs[c]], digits[c])]
  {
    var q, d := qargs[..c + 1], digits[..c + 1];
    assert q[..c] == qargs[..c] && d[..c] == digits[..c];
    assert q[c] == qargs[c] && d[c] == digits[c];
    assert |q| - 1 == c;
  }

  /** `propagate`: runs the program on the caller's buffers `pvec` and
      `carr`, returning whether a guard raised and the accumulated phase. */
  method Propagate(pvec: array<int>, carr: array<int>, noisearray: seq<int>,
                   prog: seq<Instruction>, mode: int)
    returns (raised: bool, phase: int)
    requires pvec != carr
    requires ProgramOk(prog, pvec.Length, carr.Length)
    requires NoisyCount(prog) <= |noisearray|
    modifies pvec, carr
    ensures var out := Run(prog, noisearray, State(old(pvec[..]), old(carr[..]), PlusOne, 0), mode);
      raised == out.Raised? && pvec[..] == out.state.pvec && carr[..] == out.state.carr &&
      (!raised ==> phase == out.state.phase)
  {
    ghost var start := State(pvec[..], carr[..], PlusOne, 0);
    var idxNoise := 0;
    phase := PlusOne;
    var idx := 0;
    while idx < |prog|
      invariant 0 <= idx <= |prog|
      invariant idxNoise + NoisyCount(prog[idx..]) == NoisyCount(prog)
      invariant Run(prog, noisearray, start, mode)
        == Run(prog[idx..], noisearray, State(pvec[..], carr[..], phase, idxNoise), mode)
    {
      var ins := prog[idx];
      ghost var before := State(pvec[..], carr[..], phase, idxNoise);
      assert prog[idx..][0] == ins && prog[idx..][1..] == prog[idx + 1..];
      assert InstructionOk(ins, pvec.Length, carr.Length);
      raised, phase := GateOnBuffers(pvec, carr, ins, mode, phase, idxNoise);
      if raised {
        return;
      }
      if ins.noisy {
        NoiseOnBuffer(pvec, ins.qargs, noisearray[idxNoise]);
        idxNoise := idxNoise + 1;
      }
      assert Step(ins, noisearray, before, mode) == Completed(State(pvec[..], carr[..], phase, idxNoise));
      idx := idx + 1;
    }
    raised := false;
  }

  /** One sample of `propagate_all_samples`: the program run in mode 0 from
      the all-I frame and a zero register. */
  function Sample(prog: seq<Instruction>, noisearray: seq<int>, qlen: nat, clen: nat): (o: Outcome)
    requires ProgramOk(prog, qlen, clen) && NoisyCount(prog) <= |noisearray|
    ensures |o.state.pvec| == qlen && |o.state.carr| == clen
    ensures AllLabels(o.state.pvec) && AllBits(o.state.carr)
    ensures o.Completed? ==> o.state.idxNoise == NoisyCount(prog)
  {
    var s := State(Zeros(qlen), Zeros(clen), PlusOne, 0);
    RunKeepsLabels(prog, noisearray, s, 0);
    RunUsesNoise(prog, noisearray, s, 0);
    Run(prog, noisearray, s, 0)
  }

  function Zeros(n: nat): (r: seq<int>)
    ensures |r| == n && forall k :: 0 <= k < n ==> r[k] == 0
  {
    seq(n, _ => 0)
  }

  /** `propagate_all_samples`: one run per noise array, each on fresh zero
      buffers, with the final frames and registers collected row by row.
      The samples run one after the other; the first guard that raises ends
      the call, and the source's result `checks` is all zero. */
  method PropagateAllSamples(qlen: nat, clen: nat, noisearrays: seq<seq<int>>, prog: seq<Instruction>)
    returns (raised: bool, checks: seq<int>, pvecs: seq<seq<int>>, carrs: seq<seq<int>>)
    requires ProgramOk(prog, qlen, clen)
    requires forall i :: 0 <= i < |noisearrays| ==> NoisyCount(prog) <= |noisearrays[i]|
    ensures raised <==> exists i :: 0 <= i < |noisearrays| && Sample(prog, noisearrays[i], qlen, clen).Raised?
    ensures !raised ==> |checks| == |pvecs| == |carrs| == |noisearrays|
    ensures !raised ==> forall i :: 0 <= i < |checks| ==> checks[i] == 0
    ensures !raised ==> forall i :: 0 <= i < |noisearrays| ==>
      pvecs[i] == Sample(prog, noisearrays[i], qlen, clen).state.pvec &&
      carrs[i] == Sample(prog, noisearrays[i], qlen, clen).state.carr
  {
    var count := |noisearrays|;
    pvecs := seq(count, _ => Zeros(qlen));
    carrs := seq(count, _ => Zeros(clen));
    checks := Zeros(count);
    var idx := 0;
    while idx < count
      invariant 0 <= idx <= count
      invariant |pvecs| == |carrs| == count
      invariant forall i :: 0 <= i < idx ==> !Sample(prog, noisearrays[i], qlen, clen).Raised?
      invariant forall i :: 0 <= i < idx ==>
        pvecs[i] == Sample(prog, noisearrays[i], qlen, clen).state.pvec &&
        carrs[i] == Sample(prog, noisearrays[i], qlen, clen).state.carr
    {
      var pvec := new int[qlen](_ => 0);
      var carr := new int[clen](_ => 0);
      ghost var out := Sample(prog, noisearrays[idx], qlen, clen);
      assert out == Run(prog, noisearrays[idx], State(pvec[..], carr[..], PlusOne, 0), 0) by {
        assert pvec[..] == Zeros(qlen) && carr[..] == Zeros(clen);
      }
      var r, _ := Propagate(pvec, carr, noisearrays[idx], prog, 0);
      assert r == out.Raised? && pvec[..] == out.state.pvec && carr[..] == out.state.carr;
      if r {
        raised := true;
        return;
      }
      ghost var pvecs0, carrs0 := pvecs, carrs;
      pvecs := pvecs[idx := pvec[..]];
      carrs := carrs[idx := carr[..]];
      forall i | 0 <= i < idx + 1
        ensures !Sample(prog, noisearrays[i], qlen, clen).Raised?
        ensures pvecs[i] == Sample(prog, noisearrays[i], qlen, clen).state.pvec
        ensures carrs[i] == Sample(prog, noisearrays[i], qlen, clen).state.carr
      {
        if i < idx {
          assert pvecs[i] == pvecs0[i] && carrs[i] == carrs0[i];
        }
      }
      idx := idx + 1;
    }
    raised := false;
  }

  /** Labels stay in 0..3 and register entries in 0..1 through every
      instruction. */
  lemma StepKeepsLabels(ins: Instruction, noise: seq<int>, s: State, mode: int)
    requires InstructionOk(ins, |s.pvec|, |s.carr|)
    requires ins.noisy ==> s.idxNoise < |noise|
    requires AllLabels(s.pvec) && AllBits(s.carr)
    ensures AllLabels(Step(ins, noise, s, mode).state.pvec)
    ensures AllBits(Step(ins, noise, s, mode).state.carr)
  {
  }

  lemma {:induction false} RunKeepsLabels(prog: seq<Instruction>, noise: seq<int>, s: State, mode: int)
    requires ProgramOk(prog, |s.pvec|, |s.carr|)
    requires s.idxNoise + NoisyCount(prog) <= |noise|
    requires AllLabels(s.pvec) && AllBits(s.carr)
    ensures AllLabels(Run(prog, noise, s, mode).state.pvec)
    ensures AllBits(Run(prog, noise, s, mode).state.carr)
    decreases |prog|
  {
    if prog != [] {
      var o := Step(prog[0], noise, s, mode);
      StepKeepsLabels(prog[0], noise, s, mode);
      if o.Completed? {
        NoiseIndexAfterStep(prog[0], noise, s, mode);
        assert ProgramOk(prog[1..], |o.state.pvec|, |o.state.carr|) by {
          forall i | 0 <= i < |prog[1..]|
            ensures InstructionOk(prog[1..][i], |o.state.pvec|, |o.state.carr|)
          {
            assert prog[1..][i] == prog[i + 1];
          }
        }
        RunKeepsLabels(prog[1..], noise, o.state, mode);
      }
    }
  }

  /** Noise integers are used strictly in order, one per noisy instruction:
      a completed run uses exactly one per noisy instruction, a raised run no
      more. */
  lemma {:induction false} RunUsesNoise(prog: seq<Instruction>, noise: seq<int>, s: State, mode: int)
    requires ProgramOk(prog, |s.pvec|, |s.carr|)
    requires s.idxNoise + NoisyCount(prog) <= |noise|
    ensures var o := Run(prog, noise, s, mode);
      s.idxNoise <= o.state.idxNoise <= s.idxNoise + NoisyCount(prog) &&
      (o.Completed? ==> o.state.idxNoise == s.idxNoise + NoisyCount(prog))
    decreases |prog|
  {
    if prog != [] {
      var o := Step(prog[0], noise, s, mode);
      if o.Completed? {
        NoiseIndexAfterStep(prog[0], noise, s, mode);
        assert ProgramOk(prog[1..], |o.state.pvec|, |o.state.carr|) by {
          forall i | 0 <= i < |prog[1..]|
            ensures InstructionOk(prog[1..][i], |o.state.pvec|, |o.state.carr|)
          {
            assert prog[1..][i] == prog[i + 1];
          }
        }
        RunUsesNoise(prog[1..], noise, o.state, mode);
      }
    }
  }

  /** With distinct qubit arguments, digit k lands on qubit `qargs[k]`. */
  lemma {:induction false} NoiseLands(f: seq<int>, qargs: seq<int>, digits: seq<int>)
    requires |qargs| == |digits| && Indices(qargs, |f|)
    requires forall i, j :: 0 <= i < j < |qargs| ==> qargs[i] != qargs[j]
    ensures forall k :: 0 <= k < |qargs| ==>
      ApplyNoise(f, qargs, digits)[qargs[k]] == Merge(f[qargs[k]], digits[k])
    decreases |qargs|
  {
    if qargs != [] {
      var m := |qargs| - 1;
      var front, dfront := qargs[..m], digits[..m];
      assert forall i, j :: 0 <= i < j < |front| ==> front[i] != front[j] by {
        forall i, j | 0 <= i < j < |front| ensures front[i] != front[j] {
          assert front[i] == qargs[i] && front[j] == qargs[j];
        }
      }
      NoiseLands(f, front, dfront);
      var g := ApplyNoise(f, front, dfront);
      assert ApplyNoise(f, qargs, digits) == g[qargs[m] := Merge(g[qargs[m]], digits[m])];
      forall k | 0 <= k < |qargs|
        ensures ApplyNoise(f, qargs, digits)[qargs[k]] == Merge(f[qargs[k]], digits[k])
      {
        if k < m {
          assert front[k] == qargs[k] && dfront[k] == digits[k];
          assert qargs[k] != qargs[m];
        } else {
          assert qargs[m] !in front by {
            forall i | 0 <= i < |front| ensures front[i] != qargs[m] {
              assert front[i] == qargs[i];
            }
          }
        }
      }
    }
  }

  /** Measurement copies the label's x-bit into the classical bit and resets
      the label to I; nothing else changes. */
  lemma GateMeasure(ins: Instruction, s: State, mode: int)
    requires InstructionOk(ins, |s.pvec|, |s.carr|) && ins.name == Measure
    ensures var o := Gate(ins, s, mode);
      o.Completed? &&
      o.state.carr[ins.cargs[0]] == (if HasX(s.pvec[ins.qargs[0]]) then 1 else 0) &&
      o.state.pvec[ins.qargs[0]] == I &&
      (forall k :: 0 <= k < |s.pvec| && k != ins.qargs[0] ==> o.state.pvec[k] == s.pvec[k]) &&
      (forall k :: 0 <= k < |s.carr| && k != ins.cargs[0] ==> o.state.carr[k] == s.carr[k]) &&
      o.state.phase == s.phase
  {
  }

  /** A guard fails exactly when the guarded label is one of the listed
      values, and changes nothing; a gate whose condition does not fire
      changes nothing either. */
  lemma GateGuardAndCondition(ins: Instruction, s: State, mode: int)
    requires InstructionOk(ins, |s.pvec|, |s.carr|)
    ensures ins.name == Guard ==>
      (Gate(ins, s, mode).Raised? <==> s.pvec[ins.qargs[0]] in ins.conbits) &&
      Gate(ins, s, mode).state == s
    ensures ins.name < Measure && !Fires(CondValue(s.carr, ins.conbits), ins.condval, ins.contype) ==>
      Gate(ins, s, mode) == Completed(s)
  {
  }

  /** Some guard of the program forbids the label I. */
  predicate GuardForbidsIdentity(prog: seq<Instruction>)
  {
    exists i :: 0 <= i < |prog| && prog[i].name == Guard && I in prog[i].conbits
  }

  predicate AllIdentity(f: seq<int>)
  {
    forall k :: 0 <= k < |f| ==> f[k] == I
  }

  /** All-I noise digits leave any frame of labels unchanged. */
  lemma {:induction false} NoiseOfZero(f: seq<int>, qargs: seq<int>, digits: seq<int>)
    requires |qargs| == |digits| && Indices(qargs, |f|)
    requires AllLabels(f) && forall k :: 0 <= k < |digits| ==> digits[k] == 0
    ensures ApplyNoise(f, qargs, digits) == f
    decreases |qargs|
  {
    if qargs != [] {
      var m := |qargs| - 1;
      NoiseOfZero(f, qargs[..m], digits[..m]);
      MergeIdentity(f[qargs[m]]);
    }
  }

  /** So a zero noise integer leaves any frame of labels unchanged. */
  lemma NoiseIntegerZero(f: seq<int>, qargs: seq<int>)
    requires Indices(qargs, |f|) && AllLabels(f)
    ensures ApplyNoise(f, qargs, Digits(|qargs|, 0, 4)) == f
  {
    DigitsOfZero(|qargs|);
    NoiseOfZero(f, qargs, Digits(|qargs|, 0, 4));
  }

  /** In mode 0, with every noise integer used equal to 0, the all-I frame
      and a zero register are never changed and no phase is picked up; the
      run raises exactly when some guard lists I. */
  lemma {:induction false} RunFromIdentity(prog: seq<Instruction>, noise: seq<int>, s: State)
    requires ProgramOk(prog, |s.pvec|, |s.carr|)
    requires s.idxNoise + NoisyCount(prog) <= |noise|
    requires forall k :: s.idxNoise <= k < s.idxNoise + NoisyCount(prog) ==> noise[k] == 0
    requires AllIdentity(s.pvec) && AllIdentity(s.carr) && 0 <= s.phase < 4
    ensures var o := Run(prog, noise, s, 0);
      o.state.pvec == s.pvec && o.state.carr == s.carr && o.state.phase == s.phase &&
      (o.Raised? <==> GuardForbidsIdentity(prog))
    decreases |prog|
  {
    if prog != [] {
      var ins := prog[0];
      StepFromIdentity(ins, noise, s);
      GuardForbidsTail(prog);
      if !Step(ins, noise, s, 0).Raised? {
        var o := Step(ins, noise, s, 0);
        ProgramOkTail(prog, |o.state.pvec|, |o.state.carr|);
        RunFromIdentity(prog[1..], noise, o.state);
      }
    }
  }

  /** One instruction on the identity frame, with a zero noise integer if it
      is noisy: it raises exactly when it is a guard that forbids I, and
      otherwise only the noise index moves. */
  lemma StepFromIdentity(ins: Instruction, noise: seq<int>, s: State)
    requires InstructionOk(ins, |s.pvec|, |s.carr|)
    requires ins.noisy ==> s.idxNoise < |noise| && noise[s.idxNoise] == 0
    requires AllIdentity(s.pvec) && AllIdentity(s.carr) && 0 <= s.phase < 4
    ensures Step(ins, noise, s, 0)
      == if ins.name == Guard && I in ins.conbits then Raised(s)
         else Completed(s.(idxNoise := s.idxNoise + (if ins.noisy then 1 else 0)))
  {
    var g := Gate(ins, s, 0);
    if ins.name < Measure {
      CommuteIdentityFrame(s.pvec, ins.name, ins.qargs);
    }
    assert g.state == s;
    if ins.noisy {
      NoiseIntegerZero(s.pvec, ins.qargs);
    }
  }

  /** The tail of a well-formed program is well formed. */
  lemma ProgramOkTail(prog: seq<Instruction>, qlen: int, clen: int)
    requires prog != [] && ProgramOk(prog, qlen, clen)
    ensures ProgramOk(prog[1..], qlen, clen)
  {
    forall i | 0 <= i < |prog[1..]| ensures InstructionOk(prog[1..][i], qlen, clen) {
      assert prog[1..][i] == prog[i + 1];
    }
  }

  /** A program forbids I at some guard iff its first instruction does or its
      tail does. */
  lemma GuardForbidsTail(prog: seq<Instruction>)
    requires prog != []
    ensures GuardForbidsIdentity(prog)
      <==> (prog[0].name == Guard && I in prog[0].conbits) || GuardForbidsIdentity(prog[1..])
  {
    if GuardForbidsIdentity(prog) {
      var i :| 0 <= i < |prog| && prog[i].name == Guard && I in prog[i].conbits;
      if i != 0 {
        assert prog[1..][i - 1] == prog[i];
      }
    }
    if GuardForbidsIdentity(prog[1..]) {
      var i :| 0 <= i < |prog[1..]| && prog[1..][i].name == Guard && I in prog[1..][i].conbits;
      assert prog[i + 1] == prog[1..][i];
    }
  }

  lemma {:induction false} DigitsOfZero(n: nat)
    ensures Digits(n, 0, 4) == Zeros(n)
  {
    if n > 0 {
      DigitsOfZero(n - 1);
    }
  }

  /** Without noise, every sample of `propagate_all_samples` ends with the
      all-I frame and a zero register (unless a guard forbids I). */
  lemma NoiselessSample(prog: seq<Instruction>, noisearray: seq<int>, qlen: nat, clen: nat)
    requires ProgramOk(prog, qlen, clen) && NoisyCount(prog) == 0
    ensures Sample(prog, noisearray, qlen, clen).state.pvec == Zeros(qlen)
    ensures Sample(prog, noisearray, qlen, clen).state.carr == Zeros(clen)
    ensures Sample(prog, noisearray, qlen, clen).Raised? <==> GuardForbidsIdentity(prog)
  {
    RunFromIdentity(prog, noisearray, State(Zeros(qlen), Zeros(clen), PlusOne, 0));
  }
}
