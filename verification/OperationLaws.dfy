/** What each circuit operation means, as a matrix on its qubits or state by state. */
module OperationLaws {
  import opened Amplitudes
  import opened PairKernels
  import opened Gates
  import opened StateOps
  import opened KernelMatrices
  import opened GateMatch
  import opened GateLaws
  import opened Circuits

  /** Every gate operation is its matrix on its qubits, in the order control before target. */
  lemma OperationMeans(op: Operation, v: Vec, n: nat, num: Numerics)
    requires IsRegister(v, n) && OpAccepted(op, n)
    ensures var w := OpEffect(op, v, n, num);
            match op
            case OpH(q) =>
              GateFits(HadamardGate(num.invSqrt(2)), [q], n) && w == ApplyGate(v, n, HadamardGate(num.invSqrt(2)), [q])
            case OpX(q) => GateFits(PAULI_X, [q], n) && w == ApplyGate(v, n, PAULI_X, [q])
            case OpCNot(c, t) => GateFits(CONTROLLED_NOT, [c, t], n) && w == ApplyGate(v, n, CONTROLLED_NOT, [c, t])
            case OpPhase(c, t, phase) =>
              && GateFits(ControlledPhaseGate(phase), [c, t], n)
              && w == ApplyGate(v, n, ControlledPhaseGate(phase), [c, t])
            case OpSwap(a, b) => GateFits(SWAP, [a, b], n) && w == ApplyGate(v, n, SWAP, [a, b])
            case OpGate(g, targets) =>
              && GateFits(RouteMatrix(g, |targets|, num), targets, n)
              && w == ApplyGate(v, n, RouteMatrix(g, |targets|, num), targets)
            case OpFlip(s) => forall u: nat | u < |v| :: w[u] == if u == s then Amp(-v[u].re, -v[u].im) else v[u]
            case OpInvert(_) => true
  {
    hide Hadamard, PauliX, ControlledNot, ControlledPhase, Swap, DispatchedGate, ApplyGate, RouteMatrix, Mean;
    match op
    case OpH(q) => HadamardIsMatrix(v, n, q, num.invSqrt(2));
    case OpX(q) => PauliXIsMatrix(v, n, q);
    case OpCNot(c, t) => ControlledNotIsMatrix(v, n, c, t);
    case OpPhase(c, t, phase) => ControlledPhaseIsMatrix(v, n, c, t, phase);
    case OpSwap(a, b) => SwapIsMatrix(v, n, a, b);
    case OpGate(g, targets) => DispatchIsRouteMatrix(v, n, g, targets, num);
    case _ =>
  }

  /** A diffusion reflects about the amplitude that, times the number of states, is the sum of all. */
  lemma DiffusionMeans(materialized: bool, v: Vec, n: nat, num: Numerics, mean: Amp, u: nat)
    requires IsRegister(v, n) && u < |v|
    requires Amp(mean.re * (|v| as real), mean.im * (|v| as real)) == Sum(v)
    ensures OpEffect(OpInvert(materialized), v, n, num)[u] == Amp(2.0 * mean.re - v[u].re, 2.0 * mean.im - v[u].im)
  {
    hide Mean, Sum, InvertWith;
    MeanReflectionLaw(v, mean, u);
  }

  // --------------------------------------------------------------------- runs

  ghost predicate GatesOnly(ops: seq<Operation>) {
    forall i | 0 <= i < |ops| :: !ops[i].OpFlip? && !ops[i].OpInvert?
  }

  /** The matrix of a gate operation. */
  function MatrixOf(op: Operation, num: Numerics): QuantumGate
    requires !op.OpFlip? && !op.OpInvert? && OpWellFormed(op)
  {
    match op
    case OpH(_) => HadamardGate(num.invSqrt(2))
    case OpX(_) => PAULI_X
    case OpCNot(_, _) => CONTROLLED_NOT
    case OpPhase(_, _, phase) => ControlledPhaseGate(phase)
    case OpSwap(_, _) => SWAP
    case OpGate(g, targets) => RouteMatrix(g, |targets|, num)
  }

  function QubitsOf(op: Operation): seq<nat>
    requires !op.OpFlip? && !op.OpInvert?
  {
    match op
    case OpH(q) => [q]
    case OpX(q) => [q]
    case OpCNot(c, t) => [c, t]
    case OpPhase(c, t, _) => [c, t]
    case OpSwap(a, b) => [a, b]
    case OpGate(_, targets) => targets
  }

  lemma GateIsMatrix(op: Operation, v: Vec, n: nat, num: Numerics)
    requires IsRegister(v, n) && OpAccepted(op, n) && !op.OpFlip? && !op.OpInvert?
    ensures GateFits(MatrixOf(op, num), QubitsOf(op), n)
    ensures OpEffect(op, v, n, num) == ApplyGate(v, n, MatrixOf(op, num), QubitsOf(op))
  {
    hide OpEffect, ApplyGate, RouteMatrix, GateFits;
    OperationMeans(op, v, n, num);
  }

  /** Between each operation of an accepted gate circuit and the next lies one application of its matrix. */
  lemma RunStepMeans(ops: seq<Operation>, k: nat, v: Vec, n: nat, num: Numerics)
    requires IsRegister(v, n) && AllAccepted(ops, n) && GatesOnly(ops) && k < |ops|
    ensures GateFits(MatrixOf(ops[k], num), QubitsOf(ops[k]), n)
    ensures RunOps(ops[..k + 1], v, n, num) ==
            ApplyGate(RunOps(ops[..k], v, n, num), n, MatrixOf(ops[k], num), QubitsOf(ops[k]))
  {
    hide OpEffect, ApplyGate, MatrixOf, QubitsOf, GateFits;
    assert ops[..k + 1] == ops[..k] + [ops[k]];
    RunSnoc(ops[..k], ops[k], v, n, num);
    GateIsMatrix(ops[k], RunOps(ops[..k], v, n, num), n, num);
  }

  /** A history of states in which each gate operation is one application of its matrix. */
  ghost predicate MatrixTrace(trace: seq<Vec>, ops: seq<Operation>, n: nat, num: Numerics) {
    && |trace| == |ops| + 1
    && forall k | 0 <= k < |ops| ::
         && IsRegister(trace[k], n) && !ops[k].OpFlip? && !ops[k].OpInvert? && OpWellFormed(ops[k])
         && GateFits(MatrixOf(ops[k], num), QubitsOf(ops[k]), n)
         && trace[k + 1] == ApplyGate(trace[k], n, MatrixOf(ops[k], num), QubitsOf(ops[k]))
  }

  /** Running a gate circuit is applying the matrices one after the other. */
  lemma RunIsMatrixTrace(ops: seq<Operation>, v: Vec, n: nat, num: Numerics) returns (trace: seq<Vec>)
    requires IsRegister(v, n) && AllAccepted(ops, n) && GatesOnly(ops)
    ensures MatrixTrace(trace, ops, n, num) && trace[0] == v && trace[|ops|] == RunOps(ops, v, n, num)
  {
    hide OpEffect, ApplyGate, MatrixOf, QubitsOf;
    trace := seq(|ops| + 1, k requires 0 <= k <= |ops| => RunOps(ops[..k], v, n, num));
    forall k | 0 <= k < |ops|
      ensures GateFits(MatrixOf(ops[k], num), QubitsOf(ops[k]), n)
      ensures trace[k + 1] == ApplyGate(trace[k], n, MatrixOf(ops[k], num), QubitsOf(ops[k]))
    {
      RunStepMeans(ops, k, v, n, num);
    }
    assert ops[..0] == [] && ops[..|ops|] == ops;
  }
}
