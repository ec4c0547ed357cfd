/** Circuit operations and what running them means. */
module Circuits {
  import opened Amplitudes
  import opened Bits
  import opened PairKernels
  import opened Gates
  import opened StateOps
  import opened GateMatch

  datatype Operation =
    | OpH(target: nat)
    | OpX(target: nat)
    | OpCNot(control: nat, target: nat)
    /** `phase` is (cos theta, sin theta). */
    | OpPhase(control: nat, target: nat, phase: Amp)
    | OpSwap(first: nat, second: nat)
    | OpGate(gate: QuantumGate, targets: seq<nat>)
    | OpFlip(state: nat)
    | OpInvert(materialized: bool)

  /** The register's argument validation. */
  ghost predicate OpAccepted(op: Operation, n: nat) {
    match op
    case OpH(q) => q < n
    case OpX(q) => q < n
    case OpCNot(c, t) => c < n && t < n && c != t
    case OpPhase(c, t, _) => c < n && t < n && c != t
    case OpSwap(a, b) => a < n && b < n && a != b
    case OpGate(g, targets) => GateFits(g, targets, n)
    case OpFlip(s) => s < Pow2(n)
    case OpInvert(_) => true
  }

  ghost predicate OpWellFormed(op: Operation) {
    op.OpGate? ==> op.gate.Square()
  }

  /** The state vector after one operation, whichever way a diffusion is carried out. */
  ghost function OpEffect(op: Operation, v: Vec, n: nat, num: Numerics): (w: Vec)
    requires IsRegister(v, n) && OpAccepted(op, n)
    ensures IsRegister(w, n)
  {
    match op
    case OpH(q) => Hadamard(v, n, q, num.invSqrt(2))
    case OpX(q) => PauliX(v, n, q)
    case OpCNot(c, t) => ControlledNot(v, n, c, t)
    case OpPhase(c, t, phase) => ControlledPhase(v, n, c, t, phase)
    case OpSwap(a, b) => Swap(v, n, a, b)
    case OpGate(g, targets) => DispatchedGate(v, n, g, targets, num)
    case OpFlip(s) => PhaseFlip(v, s)
    case OpInvert(_) => InvertWith(v, Mean(v))
  }

  ghost predicate AllAccepted(ops: seq<Operation>, n: nat) {
    forall i | 0 <= i < |ops| :: OpAccepted(ops[i], n)
  }

  ghost function RunOps(ops: seq<Operation>, v: Vec, n: nat, num: Numerics): (w: Vec)
    requires IsRegister(v, n) && AllAccepted(ops, n)
    ensures IsRegister(w, n)
  {
    if ops == [] then v
    else OpEffect(ops[|ops| - 1], RunOps(ops[..|ops| - 1], v, n, num), n, num)
  }

  lemma RunSnoc(ops: seq<Operation>, op: Operation, v: Vec, n: nat, num: Numerics)
    requires IsRegister(v, n) && AllAccepted(ops, n) && OpAccepted(op, n)
    ensures AllAccepted(ops + [op], n)
    ensures RunOps(ops + [op], v, n, num) == OpEffect(op, RunOps(ops, v, n, num), n, num)
  {
    hide OpEffect, OpAccepted;
    assert (ops + [op])[..|ops|] == ops;
  }

  lemma {:induction false} RunConcat(a: seq<Operation>, b: seq<Operation>, v: Vec, n: nat, num: Numerics)
    requires IsRegister(v, n) && AllAccepted(a, n) && AllAccepted(b, n)
    ensures AllAccepted(a + b, n)
    ensures RunOps(a + b, v, n, num) == RunOps(b, RunOps(a, v, n, num), n, num)
  {
    hide OpEffect, OpAccepted;
    if b == [] {
      assert a + b == a;
    } else {
      var l := |b| - 1;
      RunConcat(a, b[..l], v, n, num);
      assert (a + b)[..|a + b| - 1] == a + b[..l];
    }
  }

  // ------------------------------------------------------ lazy or materialised

  /** The same operations, up to how their diffusions are carried out. */
  ghost predicate SameUpToFlags(a: seq<Operation>, b: seq<Operation>) {
    |a| == |b| && forall i | 0 <= i < |a| :: a[i] == b[i] || (a[i].OpInvert? && b[i].OpInvert?)
  }

  /** Flipping `materialized` on any diffusions of a circuit leaves the final vector unchanged. */
  lemma {:induction false} FlagsDoNotMatter(a: seq<Operation>, b: seq<Operation>, v: Vec, n: nat, num: Numerics)
    requires IsRegister(v, n) && AllAccepted(a, n) && SameUpToFlags(a, b)
    ensures AllAccepted(b, n) && RunOps(a, v, n, num) == RunOps(b, v, n, num)
  {
    if a != [] {
      FlagsDoNotMatter(a[..|a| - 1], b[..|b| - 1], v, n, num);
    }
  }
}
