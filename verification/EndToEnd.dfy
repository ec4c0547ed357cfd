/** Circuits generated, run on the compressed register, and read: what comes out. */
module EndToEnd {
  import opened Amplitudes
  import opened Bits
  import opened PairKernels
  import opened BasisLists
  import opened StateOps
  import opened GateMatch
  import opened ChunkStores
  import opened CompressedBackend
  import opened Registers
  import opened Circuits
  import opened CircuitBuilders
  import opened Simulator
  import opened OperationLaws
  import opened QftCorrectness
  import opened QftSuperpositions
  import opened GroverCorrectness

  /** The QFT of any state, run through chunks, cache, batches and overlay and exported. */
  method SimulateQft<P>(num: Numerics, codec: Codec<P>, chunkStates: nat, cacheSlots: nat, n: nat, v: Vec,
                        cis: nat -> Amp)
    returns (out: Vec)
    requires chunkStates >= 1 && cacheSlots >= 2 && codec.Lossless() && n <= 31 && IsRegister(v, n) && HalfTurns(cis)
    ensures out == FourierTransform(v, n, cis, num.invSqrt(2))
  {
    hide RunOps, QftOps, OpAccepted, OpWellFormed, FourierTransform, QuantumRegister.Abs, CompressedStateBackend.Abs;
    var circuit := new Circuit(n);
    circuit.AppendQft(cis);
    assert circuit.operations == QftOps(n, cis);
    QftTransforms(v, n, cis, num);
    AcceptedAreWellFormed(circuit.operations, n);
    var run := Simulate(circuit, InitialState.Amplitudes(n, v), num, codec, chunkStates, cacheSlots);
    out := run.reg.Amplitudes();
  }

  /**
   * A circuit of gates, run through chunks, cache, batches and overlay and exported: each operation has multiplied its
   * matrix onto its qubits.
   */
  method RunGates<P>(reg: QuantumRegister<P>, ops: seq<Operation>) returns (out: Vec, ghost trace: seq<Vec>)
    requires reg.Valid() && AllAccepted(ops, reg.backend.numQubits) && GatesOnly(ops)
    modifies reg, reg.backend`batchDepth, reg.backend.cache, reg.backend.store`payloads
    ensures reg.Valid() && out == reg.Logical()
    ensures MatrixTrace(trace, ops, reg.backend.numQubits, reg.backend.num)
    ensures trace[0] == old(reg.Logical()) && trace[|ops|] == out
  {
    hide RunOps, OpAccepted, OpWellFormed, MatrixTrace, QuantumRegister.Abs, CompressedStateBackend.Abs;
    AcceptedAreWellFormed(ops, reg.backend.numQubits);
    trace := RunIsMatrixTrace(ops, reg.Logical(), reg.backend.numQubits, reg.backend.num);
    var ok := Run(reg, ops);
    out := reg.Amplitudes();
  }

  /** Both readings of a register agree with what it shows. */
  method ReadOut<P>(reg: QuantumRegister<P>) returns (out: Vec, total: real)
    requires reg.Valid()
    ensures out == reg.Logical() && total == Prob(out)
  {
    hide QuantumRegister.Abs, CompressedStateBackend.Abs, Prob;
    out := reg.Amplitudes();
    total := reg.TotalProbability();
  }

  /**
   * A Grover search, run and read: the total probability read is 1, and the exported amplitudes of the marked states
   * carry sin^2((2k + 1) theta) of it, for k the whole part of pi / 4 * sqrt(N / m).
   */
  method SimulateGrover<P>(num: Numerics, codec: Codec<P>, chunkStates: nat, cacheSlots: nat, n: nat,
                           markedStates: seq<nat>, materialized: bool, pi: real, sqrt: real -> real, ghost e: Amp)
    returns (out: Vec, total: real, ghost rounds: nat)
    requires chunkStates >= 1 && cacheSlots >= 2 && codec.Lossless() && n <= 31 && num.Exact()
    requires ListFits(markedStates, n) && IsAngle(e, Pow2(n) as real, |SortUnique(markedStates)| as real)
    ensures |out| == Pow2(n) && total == 1.0
    ensures forall i | 0 <= i < |SortUnique(markedStates)| :: SortUnique(markedStates)[i] < Pow2(n)
    ensures var p := Pow(e, 2 * rounds + 1); ListedProbability(out, SortUnique(markedStates)) == Sq(p.im)
    ensures RoundsFit(rounds, Pow2(n), |SortUnique(markedStates)|, pi, sqrt)
  {
    hide RunOps, GroverOps, OpAccepted, Pow, SortUnique, Prob, ListedProbability, Sq, RoundsFit, IsAngle;
    hide QuantumRegister.Abs, CompressedStateBackend.Abs;
    var reg;
    reg, rounds := RunGrover(num, codec, chunkStates, cacheSlots, n, markedStates, materialized, pi, sqrt);
    GroverSucceeds(n, markedStates, materialized, rounds, num, e);
    out, total := ReadOut(reg);
  }

  /** The circuit generated and run. */
  method RunGrover<P>(num: Numerics, codec: Codec<P>, chunkStates: nat, cacheSlots: nat, n: nat,
                      markedStates: seq<nat>, materialized: bool, pi: real, sqrt: real -> real)
    returns (reg: QuantumRegister<P>, ghost rounds: nat)
    requires chunkStates >= 1 && cacheSlots >= 2 && codec.Lossless() && n <= 31 && ListFits(markedStates, n)
    ensures reg.Valid() && AllAccepted(GroverOps(n, markedStates, materialized, rounds), n)
    ensures reg.Logical() == RunOps(GroverOps(n, markedStates, materialized, rounds), BasisVec(n, 0), n, num)
    ensures RoundsFit(rounds, Pow2(n), |SortUnique(markedStates)|, pi, sqrt)
  {
    hide RunOps, GroverOps, OpAccepted, OpWellFormed, SortUnique, RoundsFit;
    hide QuantumRegister.Abs, CompressedStateBackend.Abs;
    var circuit := new Circuit(n);
    var appended;
    appended, rounds := circuit.AppendGrover(markedStates, materialized, pi, sqrt);
    assert circuit.operations == GroverOps(n, markedStates, materialized, rounds);
    GroverIsTwoLevel(n, markedStates, materialized, rounds, num);
    AcceptedAreWellFormed(circuit.operations, n);
    assert ZeroVec(n)[0 := ONE] == BasisVec(n, 0);
    var run := Simulate(circuit, Basis(n, 0), num, codec, chunkStates, cacheSlots);
    reg := run.reg;
  }

  /** How diffusions are carried out does not change which operations run, or the state after them. */
  lemma FlagsDoNotStop(a: seq<Operation>, b: seq<Operation>, v: Vec, n: nat, num: Numerics)
    requires IsRegister(v, n) && SameUpToFlags(a, b)
    ensures Executed(a, n) == Executed(b, n)
    ensures RunOps(a[..Executed(a, n)], v, n, num) == RunOps(b[..Executed(b, n)], v, n, num)
  {
    var k := Executed(a, n);
    assert forall i | 0 <= i < k :: OpAccepted(a[..k][i], n);
    ExecutedIs(b, n, k);
    FlagsDoNotMatter(a[..k], b[..k], v, n, num);
  }

  /** Two registers with nothing in common. */
  ghost predicate Apart<P, Q>(one: QuantumRegister<P>, other: QuantumRegister<Q>) {
    {one, one.backend, one.backend.cache, one.backend.store} !!
    {other, other.backend, other.backend.cache, other.backend.store}
  }

  /**
   * One list of operations with its diffusions lazy or materialised in any pattern, on two registers of any
   * geometry that show the same state: the same operations are accepted, and the same state results.
   */
  method RunEitherWay<P, Q>(one: QuantumRegister<P>, other: QuantumRegister<Q>, a: seq<Operation>, b: seq<Operation>)
    returns (ok: (bool, bool))
    requires one.Valid() && other.Valid() && Apart(one, other)
    requires one.backend.numQubits == other.backend.numQubits && one.backend.num == other.backend.num
    requires one.Logical() == other.Logical() && SameUpToFlags(a, b)
    requires forall i | 0 <= i < |a| :: OpWellFormed(a[i])
    modifies one, one.backend`batchDepth, one.backend.cache, one.backend.store`payloads
    modifies other, other.backend`batchDepth, other.backend.cache, other.backend.store`payloads
    ensures one.Valid() && other.Valid() && one.Logical() == other.Logical() && ok.0 == ok.1
  {
    hide RunOps, OpAccepted, QuantumRegister.Abs, CompressedStateBackend.Abs;
    var n := one.backend.numQubits;
    FlagsDoNotStop(a, b, one.Logical(), n, one.backend.num);
    var ok0 := Run(one, a);
    var ok1 := Run(other, b);
    ExecutedIs(a, n, Executed(a, n));
    ExecutedIs(b, n, Executed(b, n));
    ok := (ok0, ok1);
  }

  /** And registers that show the same state are indistinguishable by their readings. */
  method ReadBoth<P, Q>(one: QuantumRegister<P>, other: QuantumRegister<Q>, rnd: real)
    returns (totals: (real, real), measured: (Measured, Measured))
    requires one.Valid() && other.Valid() && one.Logical() == other.Logical() && 0.0 <= rnd < 1.0
    ensures totals.0 == totals.1 && measured.0 == measured.1
  {
    hide QuantumRegister.Abs, CompressedStateBackend.Abs, Prob, MeasureUnchecked;
    var total0 := one.TotalProbability();
    var total1 := other.TotalProbability();
    var state0 := one.MeasureState(rnd);
    var state1 := other.MeasureState(rnd);
    totals, measured := (total0, total1), (state0, state1);
  }
}
