/** The QFT circuit on an arbitrary state: it is linear, so its action on basis states decides it. */
module QftSuperpositions {
  import opened Amplitudes
  import opened Bits
  import opened PairKernels
  import opened GateBlocks
  import opened StateOps
  import opened KernelMatrices
  import opened GateMatch
  import opened Circuits
  import opened CircuitBuilders
  import opened QftCorrectness

  /** `v` plus `c` times `w`. */
  function Comb(v: Vec, c: Amp, w: Vec): (u: Vec)
    requires |v| == |w|
    ensures |u| == |v|
  {
    seq(|v|, s requires 0 <= s < |v| => Add(v[s], Mul(c, w[s])))
  }

  // ---------------------------------------------------------------- operations

  lemma ScaleComb(a: Amp, b: Amp, c: Amp, x: Amp, y: Amp, h: real)
    ensures Scale(Add(Add(a, Mul(c, x)), Add(b, Mul(c, y))), h) == Add(Scale(Add(a, b), h), Mul(c, Scale(Add(x, y), h)))
    ensures Scale(Sub(Add(a, Mul(c, x)), Add(b, Mul(c, y))), h) == Add(Scale(Sub(a, b), h), Mul(c, Scale(Sub(x, y), h)))
  {
    MulScale(c, Add(x, y), h);
    MulScale(c, Sub(x, y), h);
    MulAdd(c, x, y);
    MulSub(c, x, y);
    hide Mul;
    RegroupSums(a, b, Mul(c, x), Mul(c, y), h);
  }

  lemma MulScale(c: Amp, x: Amp, h: real)
    ensures Mul(c, Scale(x, h)) == Scale(Mul(c, x), h)
  {
  }

  lemma MulSub(c: Amp, x: Amp, y: Amp)
    ensures Mul(c, Sub(x, y)) == Sub(Mul(c, x), Mul(c, y))
  {
  }

  lemma RegroupSums(a: Amp, b: Amp, x: Amp, y: Amp, h: real)
    ensures Scale(Add(Add(a, x), Add(b, y)), h) == Add(Scale(Add(a, b), h), Scale(Add(x, y), h))
    ensures Scale(Sub(Add(a, x), Add(b, y)), h) == Add(Scale(Sub(a, b), h), Scale(Sub(x, y), h))
  {
  }

  lemma HadamardComb(v: Vec, c: Amp, w: Vec, n: nat, q: nat, h: real)
    requires IsRegister(v, n) && IsRegister(w, n) && q < n
    ensures Hadamard(Comb(v, c, w), n, q, h) == Comb(Hadamard(v, n, q, h), c, Hadamard(w, n, q, h))
  {
    hide Mul, Add, Sub, Scale, HadamardKernel, SetTo, PairAt;
    var k, f, u := BitOf(q, n), HadamardKernel(h), Comb(v, c, w);
    forall s: nat | s < |v|
      ensures Hadamard(u, n, q, h)[s] == Comb(Hadamard(v, n, q, h), c, Hadamard(w, n, q, h))[s]
    {
      var s0, s1 := SetTo(s, k, false), SetTo(s, k, true);
      PairAtForced(u, n, k, f, s);
      PairAtForced(v, n, k, f, s);
      PairAtForced(w, n, k, f, s);
      HadamardOut(h, s0, s1, u[s0], u[s1]);
      HadamardOut(h, s0, s1, v[s0], v[s1]);
      HadamardOut(h, s0, s1, w[s0], w[s1]);
      ScaleComb(v[s0], v[s1], c, w[s0], w[s1], h);
    }
  }

  lemma MulComb(p: Amp, a: Amp, c: Amp, x: Amp)
    ensures Mul(p, Add(a, Mul(c, x))) == Add(Mul(p, a), Mul(c, Mul(p, x)))
  {
    MulAdd(p, a, Mul(c, x));
    MulAssoc(p, c, x);
    MulAssoc(c, p, x);
    MulComm(p, c);
  }

  lemma PhaseComb(v: Vec, c: Amp, w: Vec, n: nat, a: nat, t: nat, phase: Amp)
    requires IsRegister(v, n) && IsRegister(w, n) && a < n && t < n && a != t
    ensures ControlledPhase(Comb(v, c, w), n, a, t, phase) ==
            Comb(ControlledPhase(v, n, a, t, phase), c, ControlledPhase(w, n, a, t, phase))
  {
    hide Mul, Add, PhaseKernel, PairAt, Bit;
    var u := Comb(v, c, w);
    forall s: nat | s < |v|
      ensures ControlledPhase(u, n, a, t, phase)[s] ==
              Comb(ControlledPhase(v, n, a, t, phase), c, ControlledPhase(w, n, a, t, phase))[s]
    {
      ControlledPhaseAt(u, n, a, t, phase, s);
      ControlledPhaseAt(v, n, a, t, phase, s);
      ControlledPhaseAt(w, n, a, t, phase, s);
      MulComb(phase, v[s], c, w[s]);
    }
  }

  lemma SwapComb(v: Vec, c: Amp, w: Vec, n: nat, a: nat, b: nat)
    requires IsRegister(v, n) && IsRegister(w, n) && a < n && b < n && a != b
    ensures Swap(Comb(v, c, w), n, a, b) == Comb(Swap(v, n, a, b), c, Swap(w, n, a, b))
  {
    hide Mul, Add, ControlledNot, ExchangeBits;
    var u := Comb(v, c, w);
    forall s: nat | s < |v|
      ensures Swap(u, n, a, b)[s] == Comb(Swap(v, n, a, b), c, Swap(w, n, a, b))[s]
    {
      SwapPermutes(u, n, a, b, s);
      SwapPermutes(v, n, a, b, s);
      SwapPermutes(w, n, a, b, s);
    }
  }

  // ---------------------------------------------------------------------- runs

  /** Made of the operations the QFT uses. */
  ghost predicate FourierOps(ops: seq<Operation>) {
    forall i | 0 <= i < |ops| :: ops[i].OpH? || ops[i].OpPhase? || ops[i].OpSwap?
  }

  lemma {:induction false} PhasesAreFourier(target: nat, m: nat, cis: nat -> Amp)
    ensures FourierOps(QftPhases(target, m, cis))
  {
    if m > 0 {
      PhasesAreFourier(target, m - 1, cis);
    }
  }

  lemma {:induction false} StagesAreFourier(n: nat, k: nat, cis: nat -> Amp)
    requires k <= n
    ensures FourierOps(QftStages(n, k, cis))
  {
    if k > 0 {
      StagesAreFourier(n, k - 1, cis);
      PhasesAreFourier(k - 1, n - k, cis);
    }
  }

  lemma {:induction false} SwapsAreFourier(n: nat, k: nat)
    requires k <= n
    ensures FourierOps(QftSwaps(n, k))
  {
    if k > 0 {
      SwapsAreFourier(n, k - 1);
    }
  }

  lemma QftIsFourierOps(n: nat, cis: nat -> Amp)
    ensures FourierOps(QftOps(n, cis))
  {
    StagesAreFourier(n, n, cis);
    SwapsAreFourier(n, n / 2);
  }

  lemma OpComb(op: Operation, v: Vec, c: Amp, w: Vec, n: nat, num: Numerics)
    requires IsRegister(v, n) && IsRegister(w, n) && OpAccepted(op, n) && (op.OpH? || op.OpPhase? || op.OpSwap?)
    ensures OpEffect(op, Comb(v, c, w), n, num) == Comb(OpEffect(op, v, n, num), c, OpEffect(op, w, n, num))
  {
    hide Comb, Hadamard, ControlledPhase, Swap;
    match op
    case OpH(q) => HadamardComb(v, c, w, n, q, num.invSqrt(2));
    case OpPhase(a, t, phase) => PhaseComb(v, c, w, n, a, t, phase);
    case OpSwap(a, b) => SwapComb(v, c, w, n, a, b);
  }

  /** Running such operations is linear. */
  lemma {:induction false} RunComb(ops: seq<Operation>, v: Vec, c: Amp, w: Vec, n: nat, num: Numerics)
    requires IsRegister(v, n) && IsRegister(w, n) && AllAccepted(ops, n) && FourierOps(ops)
    ensures RunOps(ops, Comb(v, c, w), n, num) == Comb(RunOps(ops, v, n, num), c, RunOps(ops, w, n, num))
  {
    hide Comb, OpEffect, OpAccepted;
    if ops != [] {
      var l := |ops| - 1;
      RunComb(ops[..l], v, c, w, n, num);
      OpComb(ops[l], RunOps(ops[..l], v, n, num), c, RunOps(ops[..l], w, n, num), n, num);
    }
  }

  lemma DoubleIsZero(a: Amp)
    requires a == Add(a, Mul(ONE, a))
    ensures a == ZERO
  {
  }

  lemma RunZero(ops: seq<Operation>, n: nat, num: Numerics)
    requires AllAccepted(ops, n) && FourierOps(ops)
    ensures RunOps(ops, ZeroVec(n), n, num) == ZeroVec(n)
  {
    hide RunOps, OpAccepted, Mul, Add;
    var z := ZeroVec(n);
    MulUnit(ZERO);
    AddZero(ZERO);
    assert Comb(z, ONE, z) == z;
    RunComb(ops, z, ONE, z, n, num);
    var r := RunOps(ops, z, n, num);
    forall s: nat | s < |r|
      ensures r[s] == ZERO
    {
      assert r[s] == Comb(r, ONE, r)[s];
      DoubleIsZero(r[s]);
    }
  }

  // ------------------------------------------------------------------ transform

  /** The first `k` terms of the transform of `v` at `y`. */
  function FourierSum(v: Vec, n: nat, y: nat, cis: nat -> Amp, h: real, k: nat): Amp
    requires k <= |v|
  {
    if k == 0 then ZERO
    else Add(FourierSum(v, n, y, cis, h, k - 1), Mul(v[k - 1], FourierAmp(n, k - 1, y, cis, h)))
  }

  /** The Fourier transform of a state: at `y` the sum over x of v[x] * h^n * w^(x * y). */
  function FourierTransform(v: Vec, n: nat, cis: nat -> Amp, h: real): (u: Vec)
    requires IsRegister(v, n)
    ensures |u| == |v|
  {
    seq(|v|, y requires 0 <= y => FourierSum(v, n, y, cis, h, |v|))
  }

  /** The first `k` amplitudes of `v`, zero elsewhere. */
  function Leading(v: Vec, k: nat): (u: Vec)
    ensures |u| == |v|
  {
    seq(|v|, s requires 0 <= s < |v| => if s < k then v[s] else ZERO)
  }

  lemma LeadingStep(v: Vec, n: nat, k: nat)
    requires IsRegister(v, n) && k < |v|
    ensures Leading(v, k + 1) == Comb(Leading(v, k), v[k], BasisVec(n, k))
  {
    hide Mul, Add;
    MulUnit(v[k]);
    forall s: nat | s < |v|
      ensures Leading(v, k + 1)[s] == Comb(Leading(v, k), v[k], BasisVec(n, k))[s]
    {
      AddZero(v[s]);
      AddZero(ZERO);
    }
  }

  lemma {:induction false} RunLeading(v: Vec, n: nat, k: nat, y: nat, cis: nat -> Amp, num: Numerics)
    requires IsRegister(v, n) && k <= |v| && y < |v| && HalfTurns(cis) && AllAccepted(QftOps(n, cis), n)
    ensures RunOps(QftOps(n, cis), Leading(v, k), n, num)[y] == FourierSum(v, n, y, cis, num.invSqrt(2), k)
  {
    hide RunOps, QftOps, OpAccepted, FourierAmp, Mul, Add;
    QftIsFourierOps(n, cis);
    if k == 0 {
      assert Leading(v, 0) == ZeroVec(n);
      RunZero(QftOps(n, cis), n, num);
    } else {
      RunLeading(v, n, k - 1, y, cis, num);
      LeadingStep(v, n, k - 1);
      RunComb(QftOps(n, cis), Leading(v, k - 1), v[k - 1], BasisVec(n, k - 1), n, num);
      QftIsFourierVec(n, k - 1, cis, num);
    }
  }

  /** The generated QFT circuit takes every state of every register to its Fourier transform. */
  lemma QftTransforms(v: Vec, n: nat, cis: nat -> Amp, num: Numerics)
    requires IsRegister(v, n) && HalfTurns(cis)
    ensures AllAccepted(QftOps(n, cis), n)
    ensures RunOps(QftOps(n, cis), v, n, num) == FourierTransform(v, n, cis, num.invSqrt(2))
  {
    hide RunOps, QftOps, OpAccepted, FourierSum;
    QftIsFourierVec(n, 0, cis, num);
    assert Leading(v, |v|) == v;
    forall y: nat | y < |v|
      ensures RunOps(QftOps(n, cis), v, n, num)[y] == FourierSum(v, n, y, cis, num.invSqrt(2), |v|)
    {
      RunLeading(v, n, |v|, y, cis, num);
    }
  }
}
