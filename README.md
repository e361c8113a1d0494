# PQsim core in Dafny

PQsim simulates noisy quantum circuits in two ways. This project models and proves properties of both.

**Pauli-frame propagation** (`pqsim/experimental/stabilizerQC.py`, plus the older four-gate version in `experimental/stabilizerQC.py`):

- A frame is a list of single-qubit Pauli labels, 0 = I, 1 = X, 2 = Z and 3 = Y. Each label is the integer x + 2z, where x is its x-bit and z its z-bit.
- The frame is pushed through a Clifford circuit. Codes 0..7 are the gates h, cx, cz, x, y, z, s and sdg.
- Each gate may be classically conditioned on register bits read little-endian.
- Code 9 measures a qubit and resets it. Code 10 is a guard: it raises when a qubit carries a forbidden label.
- A noisy instruction takes the next integer from the noise array and splits it into base-4 digits. Each digit is merged into one of the instruction's qubits.
- The global phase is tracked as an exponent of i, mod 4.

**Statevector backends**, three implementations of the same gates on state vectors of 2^n complex amplitudes:

- `experimental/jaxQC.py` computes every output amplitude from the input, index by index. Here its functions are the reference definitions (`JaxQC`).
- `numbaQC.py` loops over amplitude pairs and updates the array in place. Each method is proved equal to the matching `JaxQC` function.
- `numpyQC.py` assigns through reshaped views. A view assignment becomes a Dafny `forall` statement over the indices of the slice, and each method is proved against `JaxQC`.

Modules:

- `Arith`: powers and division facts.
- `Radix`: little-endian digits.
- `BitIndex`: reading, inserting and removing one bit of an index.
- `Amplitude`: exact complex numbers over `real`.
- `Pauli`, `PauliFrame`, `LegacyStabilizer`, `Propagation`: the frame engine.
- `JaxQC`, `NumbaQC`, `NumpyQC`: the backends.

## Model

| member | source | states |
|---|---|---|
| Pauli.Merge | pqsim/experimental/stabilizerQC.py:6-19 | the product of any two integers is a label 0..3 |
| Pauli.MergeBits | pqsim/experimental/stabilizerQC.py:6-19 | each bit of a product of labels is the exclusive or of the factors' bits |
| Pauli.MergeCommutes | experimental/stabilizerQC.py:3-16 | merging is commutative, for any integers |
| Pauli.MergeIdentity | pqsim/experimental/stabilizerQC.py:6-19 | I is a two-sided identity on labels |
| Pauli.MergeSelfInverse | pqsim/experimental/stabilizerQC.py:6-19 | every Pauli squares to I, so merging q twice restores p |
| Pauli.MergeAssociative | pqsim/experimental/stabilizerQC.py:6-19 | merging is associative, for any integers |
| Pauli.AnticommuteLabels | pqsim/experimental/stabilizerQC.py:43-57 | two labels anticommute iff both differ from I and from each other |
| Pauli.AnticommuteMerge | pqsim/experimental/stabilizerQC.py:6-19 | anticommuting with a fixed Pauli is linear over merge |
| Pauli.Demux | pqsim/experimental/stabilizerQC.py:22-32 | the buffer holds the nqb base-4 digits of p1, least significant first, each a label |
| Pauli.DemuxRecomposes | pqsim/experimental/stabilizerQC.py:22-32 | the digits recompose to p1 mod 4^nqb, and to p1 itself when 0 <= p1 < 4^nqb |
| Pauli.DemuxOnto | experimental/stabilizerQC.py:18-28 | every list of labels is the demultiplexing of its own value, which lies below 4^length |
| PauliFrame.GetPhase1 | pqsim/experimental/stabilizerQC.py:35-71 | the phase is one of 1, i, -1, -i, as an exponent 0..3 |
| PauliFrame.PhaseOfPauliGate | pqsim/experimental/stabilizerQC.py:43-57 | passing a label through X, Y or Z gives -1 iff the label anticommutes with that gate, i.e. it is neither I nor the gate's own Pauli |
| PauliFrame.PhaseOfCliffordGate | pqsim/experimental/stabilizerQC.py:38-69 | H gives -1 exactly on Y and 1 otherwise; S gives -i and Sdg gives +i exactly when the x-bit is set; the S and Sdg phases cancel |
| PauliFrame.HRule | pqsim/experimental/stabilizerQC.py:84-90 | H swaps the x-bit and the z-bit and is an involution on labels |
| PauliFrame.CXRule | pqsim/experimental/stabilizerQC.py:92-107 | CX adds the control's x-bit to the target and the target's z-bit to the control |
| PauliFrame.CZRule | pqsim/experimental/stabilizerQC.py:109-126 | CZ adds each qubit's x-bit to the other qubit's z-bit |
| PauliFrame.SRule | pqsim/experimental/stabilizerQC.py:146-151 | S and Sdg add the x-bit to the z-bit and are involutions on labels |
| PauliFrame.Commute | pqsim/experimental/stabilizerQC.py:74-153 | the frame keeps its length, the phase is 0..3, qubits outside the gate's arguments do not change, and labels stay labels |
| PauliFrame.PauliCommute | pqsim/experimental/stabilizerQC.py:74-153 | the in-place update leaves the buffer equal to the rule's frame and returns the rule's phase |
| PauliFrame.TwoQubitPhase | pqsim/experimental/stabilizerQC.py:92-126 | CX has no phase; CZ gives -1 iff both qubits have their x-bit set |
| PauliFrame.CommuteIdentityFrame | pqsim/experimental/stabilizerQC.py:74-153 | in mode 0 the all-I frame passes every gate unchanged and with phase 1 |
| PauliFrame.CommutePauliGate | pqsim/experimental/stabilizerQC.py:128-144 | mode 0: a Pauli gate leaves the frame alone and gives -1 iff it anticommutes with the qubit's label; mode 1: it merges its Pauli into the label with no phase |
| PauliFrame.CommuteTwice | pqsim/experimental/stabilizerQC.py:74-153 | on distinct arguments every gate's frame rule undoes itself |
| PauliFrame.CXInvolution | pqsim/experimental/stabilizerQC.py:92-107 | the CX label rule applied twice restores both labels |
| PauliFrame.CZInvolution | pqsim/experimental/stabilizerQC.py:109-126 | the CZ label rule applied twice restores both labels |
| PauliFrame.CommuteRespectsMerge | pqsim/experimental/stabilizerQC.py:74-153 | for label frames of equal length, on distinct in-range arguments, in mode 0 or for a gate other than X, Y, Z: propagating a product of frames gives the product of the propagated frames. In mode 1 a Pauli gate merges a fixed Pauli, which is not linear |
| PauliFrame.MergeHomomorphic1 | pqsim/experimental/stabilizerQC.py:84-151 | the H and S label rules respect merging |
| PauliFrame.CXControlMerge | pqsim/experimental/stabilizerQC.py:101-104 | the CX control rule respects merging |
| PauliFrame.CXTargetMerge | pqsim/experimental/stabilizerQC.py:96-99 | the CX target rule respects merging |
| PauliFrame.CZTargetMerge | pqsim/experimental/stabilizerQC.py:113-121 | the CZ rule respects merging |
| LegacyStabilizer.LegacyOp | experimental/stabilizerQC.py:1 | each legacy code denotes one of H, CX, CZ, S or no gate, with arity 1, 2, 2, 1 for codes 0..3 and 0 otherwise. The exact assignment (0 is h, 1 is cx, 2 is cz, 3 is s) is the content of `LegacyStabilizer.LegacyRules` |
| LegacyStabilizer.LegacyCommute | experimental/stabilizerQC.py:30-78 | the legacy in-place update equals the current rule for the same gate on the frame |
| LegacyStabilizer.LegacyRules | experimental/stabilizerQC.py:30-78 | the legacy rules bit by bit: H swaps the bits, CX and CZ add bits between the two qubits, S adds x to z, unknown codes change nothing |
| LegacyStabilizer.LegacyCommuteTwice | experimental/stabilizerQC.py:30-78 | each legacy gate undoes itself on a frame of labels |
| Propagation.CondValue | pqsim/experimental/stabilizerQC.py:166-168 | `val` is the selected register bits read little-endian; over a register of bits it lies below 2^(number of selected bits) |
| Propagation.CondValueIsBinary | pqsim/experimental/stabilizerQC.py:166-168 | the condition value lies below 2^bit count, and its binary digits are exactly the selected register bits |
| Propagation.CheckCondition | pqsim/experimental/stabilizerQC.py:156-178 | the gate fires iff contype is 0, or 1 with value equal to condval, or 2 with value different; any other contype never fires |
| Propagation.ApplyNoise | pqsim/experimental/stabilizerQC.py:210-216 | noise keeps the frame length and the labels, and touches only the instruction's qubits |
| Propagation.NoiseLands | pqsim/experimental/stabilizerQC.py:215-216 | on distinct qubits, digit k of the noise is merged into qubit argument k |
| Propagation.NoiseOfZero | pqsim/experimental/stabilizerQC.py:210-216 | all-I noise digits leave any frame of labels unchanged |
| Propagation.NoiseIntegerZero | pqsim/experimental/stabilizerQC.py:210-216 | a zero noise integer, demultiplexed over any in-range qubits, leaves any frame of labels unchanged |
| Propagation.Gate | pqsim/experimental/stabilizerQC.py:196-208 | the gate part of one instruction: codes below 9 commute the frame when their condition fires, 9 measures and resets, 10 checks the guard, others do nothing. Buffer lengths and the noise counter are kept, and only a measurement writes the register |
| Propagation.Noise | pqsim/experimental/stabilizerQC.py:210-216 | the noise part of one instruction: it uses one noise integer iff the instruction is noisy, and leaves the register and the phase alone |
| Propagation.Step | pqsim/experimental/stabilizerQC.py:195-216 | one loop iteration, the gate and then, unless the guard raised, the noise. Lengths are kept, and only a measurement writes the register |
| Propagation.Run | pqsim/experimental/stabilizerQC.py:195-216 | the whole loop, stopping at the first guard that raises. Lengths are kept, and a program without measurements never writes the register |
| Propagation.NoiseIndexAfterStep | pqsim/experimental/stabilizerQC.py:210-213 | an instruction uses one noise integer iff it is noisy, even when its gate does not fire |
| Propagation.GateMeasure | pqsim/experimental/stabilizerQC.py:201-203 | a measurement stores the qubit's x-bit in its classical bit and resets the qubit to I; nothing else changes |
| Propagation.GateGuardAndCondition | pqsim/experimental/stabilizerQC.py:196-208 | a guard raises iff the qubit's label is listed and changes nothing; a gate whose condition fails changes nothing |
| Propagation.GateOnBuffers | pqsim/experimental/stabilizerQC.py:196-208 | the in-place gate step leaves the buffers, the phase and the raise flag equal to the reference step |
| Propagation.NoiseOnBuffer | pqsim/experimental/stabilizerQC.py:210-216 | merging one noise integer in place gives the reference noise step |
| Propagation.Propagate | pqsim/experimental/stabilizerQC.py:181-218 | after the loop the buffers equal the whole program's run from phase 1; it raises iff the run stops at a guard; if not, the returned phase is the run's |
| Propagation.StepKeepsLabels | pqsim/experimental/stabilizerQC.py:195-216 | every instruction keeps the frame's labels and the register's bits |
| Propagation.RunKeepsLabels | pqsim/experimental/stabilizerQC.py:195-216 | a whole run keeps the frame's labels and the register's bits |
| Propagation.RunUsesNoise | pqsim/experimental/stabilizerQC.py:210-213 | a run uses at most one noise integer per noisy instruction, in order, and all of them when it completes |
| Propagation.StepFromIdentity | pqsim/experimental/stabilizerQC.py:195-216 | with zero noise, an instruction on the all-I frame and zero register changes nothing; only a guard that lists I raises |
| Propagation.RunFromIdentity | pqsim/experimental/stabilizerQC.py:181-218 | with zero noise, a run from the all-I frame keeps frame, register and phase, and raises iff some guard forbids I |
| Propagation.Sample | pqsim/experimental/stabilizerQC.py:232-235 | one sample runs the program in mode 0 from zero buffers. It ends with qlen labels and clen bits, and, if it completes, it has used one noise integer per noisy instruction |
| Propagation.PropagateAllSamples | pqsim/experimental/stabilizerQC.py:221-240 | it raises iff some sample's run raises; otherwise row i holds sample i's final frame and register, run from zero buffers, and `checks` is all zero |
| Propagation.NoiselessSample | pqsim/experimental/stabilizerQC.py:221-240 | a sample with all-zero noise ends in the zero frame and zero register, and raises iff some guard forbids I |
| JaxQC.TargetState | experimental/jaxQC.py:59 | `(i mod 2^(q+1)) // 2^q` is bit q of the index |
| JaxQC.Idx0 | experimental/jaxQC.py:48 | `idx0` is the index with bit q cleared, and `idx0 + strip` the index with bit q set |
| JaxQC.Idx0Facts | experimental/jaxQC.py:61 | both partners lie in the vector, and `idx0` (or its partner) is the index itself when bit q is 0 (or 1) |
| JaxQC.CZ | experimental/jaxQC.py:23-37 | an amplitude is negated iff both qubits' bits of its index are 1 |
| JaxQC.H | experimental/jaxQC.py:40-51 | each amplitude pair (bit q = 0, bit q = 1) becomes (a + b, a - b) scaled by c |
| JaxQC.HPairs | experimental/jaxQC.py:40-51 | the same pair law for the per-index formula with `sgn` and `idx0` |
| JaxQC.U | experimental/jaxQC.py:54-63 | each amplitude pair (a, b) becomes (op00 a + op01 b, op10 a + op11 b) |
| JaxQC.UPairs | experimental/jaxQC.py:54-63 | the same pair law for the per-index formula with `targState` and `idx0` |
| JaxQC.Modulate1 | experimental/jaxQC.py:66-73 | each amplitude is multiplied by the modulator entry of its qubit's bit |
| JaxQC.Modulate2 | experimental/jaxQC.py:76-89 | each amplitude is multiplied by the modulator entry 2 b2 + b1 of its two bits |
| JaxQC.CZSymmetric | experimental/jaxQC.py:23-37 | CZ does not depend on the order of its qubits |
| JaxQC.CZInvolution | experimental/jaxQC.py:23-37 | CZ applied twice is the identity |
| JaxQC.CZIsModulate2 | experimental/jaxQC.py:76-89 | CZ is modulate_2qb with the diagonal (1, 1, 1, -1) |
| JaxQC.CZSameQubitIsZ | experimental/jaxQC.py:23-37 | CZ on one qubit twice is Z on that qubit |
| JaxQC.ZInvolution | experimental/jaxQC.py:66-73 | modulating with Z twice is the identity |
| JaxQC.HInvolution | experimental/jaxQC.py:40-51 | when c * c = 1/2, H applied twice is the identity |
| JaxQC.HIsU | experimental/jaxQC.py:54-63 | H is u with the matrix c [[1, 1], [1, -1]] |
| JaxQC.DecodeCZ | experimental/jaxQC.py:10-11 | both decoded qubits are below nq |
| JaxQC.DecodeCZInverts | experimental/jaxQC.py:10-11 | decoding q0 + nq q1 gives back (q0, q1) for q0, q1 < nq |
| JaxQC.DecodeCZOnto | experimental/jaxQC.py:10-11 | each argument in 0..nq^2-1 is the encoding of its decoded pair |
| JaxQC.Run | experimental/jaxQC.py:5-20 | a circuit keeps the vector's length |
| JaxQC.DoCirc | experimental/jaxQC.py:5-20 | the loop computes the circuit's reference run, consuming one matrix per `u` |
| JaxQC.RunAppend | experimental/jaxQC.py:5-20 | running two circuits one after the other equals running their concatenation, with the second using the remaining matrices |
| JaxQC.RunIgnoresUnknown | experimental/jaxQC.py:8-18 | a gate name other than cz, h and u is skipped |
| JaxQC.BellCircuit | experimental/jaxQC.py:5-20 | h 0, h 1, cz (0, 1), h 1 on the state 00 gives (c, 0, 0, c) |
| JaxQC.BellRun | experimental/jaxQC.py:5-20 | that circuit is the composition of its four gates |
| NumbaQC.PairLow | numbaQC.py:38-40 | `j` is i with a 0 inserted at bit q, and `k = j + stripe` is i with a 1 inserted |
| NumbaQC.PairInRange | numbaQC.py:37-40 | each iteration addresses two amplitudes of the vector, with bit q 0 and 1, both mapping back to i |
| NumbaQC.PairsDisjoint | numbaQC.py:37-43 | different iterations touch disjoint pairs, so the parallel loop has no conflicting writes |
| NumbaQC.PairOnto | numbaQC.py:37-43 | every amplitude belongs to the pair of exactly one iteration |
| NumbaQC.CZAddress | numbaQC.py:17-26 | the address `l` built from `quot1`, `j` and `k` is i with a 1 bit inserted at q0 and then at q1 |
| NumbaQC.CZAddressInRange | numbaQC.py:17-26 | `l` lies in the vector, has both bits set and maps back to i |
| NumbaQC.CZAddressInjective | numbaQC.py:17-28 | different iterations negate different amplitudes |
| NumbaQC.CZAddressOnto | numbaQC.py:17-28 | every amplitude with both bits set is negated by some iteration |
| NumbaQC.CZ | numbaQC.py:4-28 | the in-place loop leaves the vector equal to the reference CZ, for either order of the qubits |
| NumbaQC.H | numbaQC.py:31-43 | the in-place loop leaves the vector equal to the reference H with scale c |
| NumbaQC.Apply1 | numbaQC.py:46-57 | the in-place loop leaves the vector equal to the reference u with the same matrix |
| NumpyQC.View3IsInsert | numpyQC.py:19-21 | element (a, b, c) of the `(count, 2, count_r)` view is the flat index a 2^q + c with b inserted at bit q |
| NumpyQC.View3Bounds | numpyQC.py:19-21 | every view element is in the vector and has bit q equal to its middle coordinate |
| NumpyQC.View3Onto | numpyQC.py:19-21 | every flat index is one view element |
| NumpyQC.View3Slice | numpyQC.py:19-21 | the slice `[:, b, :]` is in range and addresses each index once |
| NumpyQC.View3SliceIsBit | numpyQC.py:32-35 | the slice `[:, b, :]` is exactly the set of indices whose bit q is b |
| NumpyQC.View5IsNested | numpyQC.py:12-13 | the five-way view is the three-way view of the big qubit nested with that of the small one |
| NumpyQC.View5Slice | numpyQC.py:9-13 | the `-1` dimension is 2^min(qb0, qb1), and slice `[:, 1, :, 1, :]` has both bits set |
| NumpyQC.View5Injective | numpyQC.py:9-13 | the slice `[:, 1, :, 1, :]` addresses each index once |
| NumpyQC.View5Element | numpyQC.py:9-13 | an element of that slice is a three-way view element whose inner index has the small qubit's bit set |
| NumpyQC.View5Onto | numpyQC.py:9-13 | every index with both bits set is in the slice |
| NumpyQC.Z | numpyQC.py:15-23 | the vector is updated in place to the reference Z modulation, and the result is the same buffer |
| NumpyQC.ZResult | numpyQC.py:15-23 | negating the slice `[:, 1, :]` and keeping the rest is the reference Z |
| NumpyQC.CZ | numpyQC.py:3-13 | the in-place slice negation equals the reference CZ, for either order of the qubits |
| NumpyQC.CZResult | numpyQC.py:3-13 | negating the slice `[:, 1, :, 1, :]` and keeping the rest is the reference CZ |
| NumpyQC.H | numpyQC.py:25-35 | after the two slice assignments, each pair (a, b) holds (a + b) sq2d in the 0-slot and that value minus sq2 b in the 1-slot |
| NumpyQC.HResult | numpyQC.py:32-35 | two successive slice assignments compose to that pair law |
| NumpyQC.HExact | numpyQC.py:25-35 | when sq2 = 2 sq2d, any vector obeying that pair law is the reference H with scale sq2d |

## Left out

- Floating point. Amplitudes are exact complex numbers over `real`, and 1/√2 is a parameter (`c`, `sq2d`), since √2 has no exact value. Where two constants must agree, this is stated as a requirement: `c * c == 1/2` for H twice, and `sq2 == 2 * sq2d` for the numpy H.
- Phases. The values 1., -1., 1.j and -1.j are modelled as exponents of i, mod 4, and the running product as addition mod 4.
- Integer widths. The `int16`/`int8` buffers are unbounded integers. All stored values are labels 0..3, bits, or 0.
- Parallelism and JIT. The numba `prange` loops run sequentially. `NumbaQC.PairsDisjoint` and `NumbaQC.CZAddressInjective` show that the iterations touch disjoint amplitudes, so any order gives the same result. `propagate_all_samples` is modelled sequentially as well.
- The numba `modulate_2qb` (numbaQC.py:60-69) reads an undefined variable `l` and never uses `stripe_1`/`stripe_0`, so it has no meaning to model. The jax `modulate_2qb` is modelled instead.
- Bad arguments. Negative or out-of-range qubit indices, classical bits and conbits are excluded by requirements (`ArgsOk`, `InstructionOk`), because Python's negative indexing and out-of-range exceptions are not modelled. Under noise, every qubit argument must be in range. Noise arrays must hold one integer per noisy instruction.
- Propagation.Propagate: when a guard raises, the source returns no phase, so the contract says nothing about `phase` in that case.
- Propagation.PropagateAllSamples: the source raises from a parallel loop, and its result is then undefined. The model runs the samples in order, stops at the first sample that raises, and reports `raised`. On a normal return it matches the source.
- The arguments `idx_qlog`, `syndromes` and `logicalops` of `propagate_all_samples` are unused by the source and are not modelled. `checks` is returned all zero, as the source allocates it and never writes it.
- The parallel instruction arrays (`opnames`, `noiseid`, `condval`, `contype`, `conbits`, `opqargs`, `opcargs`) become one sequence of `Instruction` records.
- The legacy file calls `np.zeros` without importing numpy. The model treats it as the intended zero buffer. Its `pauli_merge` and `pauli_demux` are textually the current ones, so they are modelled once, by `Pauli.Merge` and `Pauli.Demux`.
- NumpyQC.H: the method's contract states the source's two-step pair law. Equality with the reference Hadamard is the lemma `NumpyQC.HExact`, not an `ensures` of the method, and it requires `sq2 == 2 * sq2d`.
- JaxQC.DoCirc: the `idx_arr` index vector is not a parameter; each index is the position in the sequence. jax's `jit` tracing is not modelled.
- The user interface (`pqsim/ui.py`, `ui.py`), noise-model helpers (`experimental/noise.py`), `setup.py` and the examples are outside the modelled core.
- `h 0`, `h 1`, `cz 0 1`, `h 1` on |00⟩ yields the Bell state (c, 0, 0, c) (`JaxQC.BellCircuit`). The vector (.5, .5, .5, -.5) is the state after the cz, before the last h.
- `do_circ` skips gate names other than cz, h and u. It does not reject them (`JaxQC.RunIgnoresUnknown`).
- `propagate_all_samples` never writes `checks`, so it is returned all zero.
