/** The simulator: a circuit run on a register inside one operation batch. */
module Simulator {
  import opened Amplitudes
  import opened Bits
  import opened BasisLists
  import opened StateOps
  import opened GateMatch
  import opened CompressedBackend
  import opened Registers
  import opened Circuits
  import opened CircuitBuilders
  import opened ChunkStores
  import opened Options

  /** `executeOperation`: `ok` is false when the register rejects the operation. */
  method Execute<P>(reg: QuantumRegister<P>, op: Operation) returns (ok: bool)
    requires reg.Valid() && OpWellFormed(op)
    modifies reg, reg.backend.cache, reg.backend.store`payloads
    ensures reg.Valid() && (ok <==> OpAccepted(op, reg.backend.numQubits))
    ensures reg.Logical() ==
            if ok then OpEffect(op, old(reg.Logical()), reg.backend.numQubits, reg.backend.num) else old(reg.Logical())
    ensures op.OpInvert? ==> reg.overlay.active == !op.materialized
  {
    hide QuantumRegister.Abs, CompressedStateBackend.Abs;
    hide Hadamard, PauliX, ControlledNot, ControlledPhase, Swap, DispatchedGate, PhaseFlip, InvertWith;
    ok := true;
    match op {
      case OpH(q) => ok := reg.ApplyHadamard(q);
      case OpX(q) => ok := reg.ApplyPauliX(q);
      case OpCNot(c, t) => ok := reg.ApplyControlledNot(c, t);
      case OpPhase(c, t, phase) => ok := reg.ApplyControlledPhaseShift(c, t, phase);
      case OpSwap(a, b) => ok := reg.ApplySwap(a, b);
      case OpGate(g, targets) => ok := reg.ApplyGate(g, targets);
      case OpFlip(s) => ok := reg.PhaseFlipBasisState(s);
      case OpInvert(materialized) => reg.InversionAboutMean(materialized);
    }
  }

  /** The operations before the first one the register rejects. */
  ghost function Executed(ops: seq<Operation>, n: nat): (k: nat)
    ensures k <= |ops| && AllAccepted(ops[..k], n) && (k < |ops| ==> !OpAccepted(ops[k], n))
  {
    if ops == [] then 0
    else
      var l := |ops| - 1;
      var k := Executed(ops[..l], n);
      assert ops[..l][..k] == ops[..k];
      if k == l && OpAccepted(ops[l], n) then l + 1 else k
  }

  /**
   * `Simulator::run` on its working register: the batch it opens is closed again on success and after a rejected
   * operation alike, and the register then shows the state after the operations before the first rejected one.
   */
  method Run<P>(reg: QuantumRegister<P>, ops: seq<Operation>) returns (ok: bool)
    requires reg.Valid() && forall i | 0 <= i < |ops| :: OpWellFormed(ops[i])
    modifies reg, reg.backend`batchDepth, reg.backend.cache, reg.backend.store`payloads
    ensures reg.Valid() && reg.backend.batchDepth == old(reg.backend.batchDepth)
    ensures ok <==> AllAccepted(ops, reg.backend.numQubits)
    ensures reg.Logical() ==
            RunOps(ops[..Executed(ops, reg.backend.numQubits)], old(reg.Logical()),
                   reg.backend.numQubits, reg.backend.num)
  {
    hide QuantumRegister.Abs, CompressedStateBackend.Abs, OpEffect;
    ghost var v, n, num := reg.Logical(), reg.backend.numQubits, reg.backend.num;
    reg.BeginOperationBatch();
    ok := true;
    var idx: nat := 0;
    while ok && idx < |ops|
      invariant idx <= |ops| && reg.Valid() && reg.backend.batchDepth == old(reg.backend.batchDepth) + 1
      invariant AllAccepted(ops[..idx], n) && reg.Logical() == RunOps(ops[..idx], v, n, num)
      invariant !ok ==> idx < |ops| && !OpAccepted(ops[idx], n)
      decreases |ops| - idx, ok
    {
      ok := Execute(reg, ops[idx]);
      if ok {
        assert ops[..idx + 1] == ops[..idx] + [ops[idx]];
        RunSnoc(ops[..idx], ops[idx], v, n, num);
        idx := idx + 1;
      }
    }
    var closed := reg.EndOperationBatch();
    ExecutedIs(ops, n, idx);
  }

  lemma ExecutedIs(ops: seq<Operation>, n: nat, k: nat)
    requires k <= |ops| && AllAccepted(ops[..k], n) && (k < |ops| ==> !OpAccepted(ops[k], n))
    ensures k == Executed(ops, n) && (k == |ops| <==> AllAccepted(ops, n))
  {
    var e := Executed(ops, n);
    assert forall i | 0 <= i < e :: ops[..e][i] == ops[i];
    assert forall i | 0 <= i < k :: ops[..k][i] == ops[i];
    assert ops[..|ops|] == ops;
  }

  lemma AcceptedAreWellFormed(ops: seq<Operation>, n: nat)
    requires AllAccepted(ops, n)
    ensures forall i | 0 <= i < |ops| :: OpWellFormed(ops[i])
    ensures Executed(ops, n) == |ops| && ops[..|ops|] == ops
  {
    assert ops[..|ops|] == ops;
    ExecutedIs(ops, n, |ops|);
    hide OpAccepted;
    forall i | 0 <= i < |ops|
      ensures OpWellFormed(ops[i])
    {
      AcceptedIsWellFormed(ops[i], n);
    }
  }

  lemma AcceptedIsWellFormed(op: Operation, n: nat)
    requires OpAccepted(op, n)
    ensures OpWellFormed(op)
  {
  }

  // ------------------------------------------------------------- initial states

  /** The descriptions of an initial state that do not hold a register already. */
  datatype InitialState =
    | Basis(qubits: nat, state: nat)
    | BasisAmplitude(qubits: nat, state: nat, amp: Amp)
    | UniformSubset(qubits: nat, states: seq<nat>)
    | Amplitudes(qubits: nat, amplitudes: Vec)

  ghost predicate Describes(initial: InitialState) {
    match initial
    case Basis(n, s) => s < Pow2(n)
    case BasisAmplitude(n, s, _) => s < Pow2(n)
    case UniformSubset(n, states) => ListFits(states, n)
    case Amplitudes(n, v) => |v| == Pow2(n)
  }

  /** The vector an initial state describes. */
  ghost function InitialVec(initial: InitialState, num: Numerics): (v: Vec)
    requires Describes(initial)
    ensures |v| == Pow2(initial.qubits)
  {
    match initial
    case Basis(n, s) => ZeroVec(n)[s := ONE]
    case BasisAmplitude(n, s, a) => ZeroVec(n)[s := a]
    case UniformSubset(n, states) => UniformVec(n, states, num.invSqrt(|SortUnique(states)|))
    case Amplitudes(_, v) => v
  }

  /** The amplitude each description gives each state. */
  lemma InitialAmplitude(initial: InitialState, num: Numerics, s: nat)
    requires Describes(initial) && s < Pow2(initial.qubits)
    ensures var a := InitialVec(initial, num)[s];
            match initial
            case Basis(_, state) => a == if s == state then Amp(1.0, 0.0) else Amp(0.0, 0.0)
            case BasisAmplitude(_, state, amp) => a == if s == state then amp else Amp(0.0, 0.0)
            case UniformSubset(_, states) =>
              a == if s in states then Amp(num.invSqrt(|set u | u in states|), 0.0) else Amp(0.0, 0.0)
            case Amplitudes(_, v) => a == v[s]
  {
    hide SortUnique;
    if initial.UniformSubset? {
      SortUniqueCount(initial.states);
    }
  }

  /** `materialize`: a new register that shows the described vector; a bad description makes none. */
  method Materialize<P>(initial: InitialState, num: Numerics, codec: Codec<P>, chunkStates: nat, cacheSlots: nat)
    returns (reg: Option<QuantumRegister<P>>)
    requires chunkStates >= 1 && cacheSlots >= 2 && codec.Lossless() && initial.qubits <= 31
    ensures reg.Some? == Describes(initial)
    ensures reg.Some? ==> reg.value.IsNew(num, initial.qubits) && fresh(reg.value) && fresh(reg.value.Parts())
    ensures reg.Some? ==> reg.value.Logical() == InitialVec(initial, num)
  {
    hide QuantumRegister.Abs, CompressedStateBackend.Abs, UniformVec, SortUnique;
    match initial {
      case Basis(n, s) =>
        reg := QuantumRegister.FromBasis(num, codec, chunkStates, cacheSlots, n, s, ONE);
      case BasisAmplitude(n, s, a) =>
        reg := QuantumRegister.FromBasis(num, codec, chunkStates, cacheSlots, n, s, a);
      case UniformSubset(n, states) =>
        reg := QuantumRegister.FromBasis(num, codec, chunkStates, cacheSlots, n, 0, ONE);
        var ok := reg.value.InitUniformSuperposition(states);
        if !ok { reg := None; }
      case Amplitudes(n, v) =>
        reg := QuantumRegister.FromAmplitudes(num, codec, chunkStates, cacheSlots, n, v);
    }
  }

  datatype RunResult<P> = CountsDiffer | NoState | Stopped | Completed(reg: QuantumRegister<P>)

  /** `Simulator::run`: the circuit on a new register; a rejected operation ends the run without a result. */
  method Simulate<P>(circuit: Circuit, initial: InitialState, num: Numerics, codec: Codec<P>, chunkStates: nat,
                     cacheSlots: nat)
    returns (r: RunResult<P>)
    requires chunkStates >= 1 && cacheSlots >= 2 && codec.Lossless() && initial.qubits <= 31
    requires forall i | 0 <= i < |circuit.operations| :: OpWellFormed(circuit.operations[i])
    ensures r.CountsDiffer? <==> circuit.qubits != initial.qubits
    ensures r.NoState? <==> circuit.qubits == initial.qubits && !Describes(initial)
    ensures r.Completed? <==>
              circuit.qubits == initial.qubits && Describes(initial) && AllAccepted(circuit.operations, circuit.qubits)
    ensures r.Completed? ==> r.reg.IsNew(num, circuit.qubits) && fresh(r.reg) && fresh(r.reg.Parts())
    ensures r.Completed? ==>
              r.reg.Logical() == RunOps(circuit.operations, InitialVec(initial, num), circuit.qubits, num)
  {
    hide QuantumRegister.Abs, CompressedStateBackend.Abs, RunOps, OpAccepted, OpWellFormed, InitialVec, Describes;
    if circuit.qubits != initial.qubits { return CountsDiffer; }
    var made := Materialize(initial, num, codec, chunkStates, cacheSlots);
    if made.None? { return NoState; }
    ghost var v := made.value.Logical();
    var ok := Run(made.value, circuit.operations);
    if !ok { return Stopped; }
    AcceptedAreWellFormed(circuit.operations, circuit.qubits);
    r := Completed(made.value);
  }
}
