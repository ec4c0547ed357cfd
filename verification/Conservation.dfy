/** Total probability is conserved by every run of the unitary operations. */
module Conservation {
  import opened Amplitudes
  import opened Bits
  import opened PairKernels
  import opened StateOps
  import opened BasisLists
  import opened Gates
  import opened GateBlocks
  import opened BlockEngine
  import opened GateMatch
  import opened Circuits
  import opened GroverCorrectness

  // ------------------------------------------------------------------ kernels

  /** A kernel keeps the probability of every pair. */
  ghost predicate KeepsPairs(f: PairFn) {
    forall s0: nat, s1: nat, a, b :: var o := f(s0, s1, a, b); NormSq(o.a0) + NormSq(o.a1) == NormSq(a) + NormSq(b)
  }

  lemma PairKept(f: PairFn, s0: nat, s1: nat, a: Amp, b: Amp)
    requires KeepsPairs(f)
    ensures var o := f(s0, s1, a, b); NormSq(o.a0) + NormSq(o.a1) == NormSq(a) + NormSq(b)
  {
  }

  lemma TwoUpdates(v: Vec, s: nat, t: nat, x: Amp, y: Amp)
    requires s < t < |v|
    ensures Prob(v[s := x][t := y]) == Prob(v) - NormSq(v[s]) + NormSq(x) - NormSq(v[t]) + NormSq(y)
  {
    hide NormSq, Prob;
    SumUpdate(v, s, x);
    SumUpdate(v[s := x], t, y);
  }

  lemma StepKeeps(v: Vec, k: nat, f: PairFn, s: nat)
    requires s + Pow2(k) < |v| && KeepsPairs(f)
    ensures Prob(PairStep(v, k, f, s)) == Prob(v)
  {
    hide NormSq, Prob, Pow2, KeepsPairs;
    var t := s + Pow2(k);
    PairKept(f, s, t, v[s], v[t]);
    var o := f(s, t, v[s], v[t]);
    TwoUpdates(v, s, t, o.a0, o.a1);
  }

  lemma {:induction false} VisitsKeep(v: Vec, k: nat, f: PairFn, states: seq<nat>)
    requires PairsFit(states, k, |v|) && KeepsPairs(f)
    ensures Prob(RunVisits(v, k, f, states)) == Prob(v)
  {
    hide KeepsPairs, PairStep, Prob;
    if states != [] {
      var l := |states| - 1;
      VisitsKeep(v, k, f, states[..l]);
      StepKeeps(RunVisits(v, k, f, states[..l]), k, f, states[l]);
    }
  }

  /** A kernel that keeps pairs keeps the total. */
  lemma MapKeeps(v: Vec, n: nat, k: nat, f: PairFn)
    requires IsRegister(v, n) && k < n && KeepsPairs(f)
    ensures Prob(PairMap(v, n, k, f)) == Prob(v)
  {
    VisitsAreMap(v, n, k, f);
    VisitsKeep(v, k, f, ClearStates(|v|, k));
  }

  lemma Parallelogram(a: Amp, b: Amp, h: real)
    requires h * h * 2.0 == 1.0
    ensures NormSq(Scale(Add(a, b), h)) + NormSq(Scale(Sub(a, b), h)) == NormSq(a) + NormSq(b)
  {
    ScaleNorm(Add(a, b), h);
    ScaleNorm(Sub(a, b), h);
    var p, q, r, s := a.re, a.im, b.re, b.im;
    assert (p + r) * (p + r) + (p - r) * (p - r) == 2.0 * (p * p) + 2.0 * (r * r);
    assert (q + s) * (q + s) + (q - s) * (q - s) == 2.0 * (q * q) + 2.0 * (s * s);
    assert NormSq(Add(a, b)) + NormSq(Sub(a, b)) == 2.0 * (NormSq(a) + NormSq(b));
    Halve(h, NormSq(Add(a, b)), NormSq(Sub(a, b)), NormSq(a) + NormSq(b));
  }

  lemma Halve(h: real, x: real, y: real, z: real)
    requires h * h * 2.0 == 1.0 && x + y == 2.0 * z
    ensures h * h * x + h * h * y == z
  {
    assert h * h * x + h * h * y == h * h * (x + y);
  }

  lemma HadamardKeepsPairs(h: real)
    requires h * h * 2.0 == 1.0
    ensures KeepsPairs(HadamardKernel(h))
  {
    hide NormSq, Scale, Add, Sub;
    forall s0: nat, s1: nat, a, b
      ensures var o := HadamardKernel(h)(s0, s1, a, b); NormSq(o.a0) + NormSq(o.a1) == NormSq(a) + NormSq(b)
    {
      Parallelogram(a, b, h);
    }
  }

  lemma OthersKeepPairs(mask: nat, phase: Amp)
    ensures KeepsPairs(PauliXKernel()) && KeepsPairs(ControlledNotKernel(mask))
    ensures NormSq(phase) == 1.0 ==> KeepsPairs(PhaseKernel(mask, phase))
  {
    hide NormSq, Mul;
    forall b
      ensures NormSq(phase) == 1.0 ==> NormSq(Mul(phase, b)) == NormSq(b)
    {
      NormMul(phase, b);
    }
  }

  // ------------------------------------------------------- flips and reflections

  lemma FlipKeeps(v: Vec, s: nat)
    requires s < |v|
    ensures Prob(PhaseFlip(v, s)) == Prob(v)
  {
    hide NormSq, Neg, Prob;
    NormNeg(v[s]);
    SumUpdate(v, s, Neg(v[s]));
  }

  lemma NormNeg(a: Amp)
    ensures NormSq(Neg(a)) == NormSq(a)
  {
  }

  /** Real inner product. */
  function Inner(a: Amp, b: Amp): real { a.re * b.re + a.im * b.im }

  lemma ReflectNorm(mean: Amp, a: Amp)
    ensures NormSq(Sub(Scale(mean, 2.0), a)) == NormSq(a) + 4.0 * NormSq(mean) - 4.0 * Inner(mean, a)
  {
    assert (mean.re * 2.0 - a.re) * (mean.re * 2.0 - a.re) ==
           4.0 * (mean.re * mean.re) - 4.0 * (mean.re * a.re) + a.re * a.re;
    assert (mean.im * 2.0 - a.im) * (mean.im * 2.0 - a.im) ==
           4.0 * (mean.im * mean.im) - 4.0 * (mean.im * a.im) + a.im * a.im;
  }

  lemma InnerAdd(m: Amp, a: Amp, b: Amp)
    ensures Inner(m, Add(a, b)) == Inner(m, a) + Inner(m, b)
  {
    assert m.re * (a.re + b.re) == m.re * a.re + m.re * b.re;
    assert m.im * (a.im + b.im) == m.im * a.im + m.im * b.im;
  }

  lemma {:induction false} ProbReflected(v: Vec, mean: Amp)
    ensures Prob(InvertWith(v, mean)) == Prob(v) + 4.0 * ((|v| as real) * NormSq(mean)) - 4.0 * Inner(mean, Sum(v))
  {
    hide NormSq, Inner, Sub, Scale, Add;
    if v == [] {
      InnerZero(mean);
    } else {
      var l := |v| - 1;
      assert InvertWith(v, mean)[..l] == InvertWith(v[..l], mean);
      ProbReflected(v[..l], mean);
      ReflectNorm(mean, v[l]);
      InnerAdd(mean, Sum(v[..l]), v[l]);
      OneMore(l as real, NormSq(mean));
    }
  }

  lemma InnerZero(m: Amp)
    ensures Inner(m, ZERO) == 0.0
  {
  }

  lemma MeanBalances(n: real, s: Amp, mean: Amp)
    requires n != 0.0 && mean == Amp(s.re / n, s.im / n)
    ensures n * NormSq(mean) == Inner(mean, s)
  {
    var x, y := mean.re, mean.im;
    assert n * x == s.re && n * y == s.im;
    assert n * (x * x + y * y) == x * (n * x) + y * (n * y);
  }

  /** Reflecting about the true mean keeps the total probability. */
  lemma InversionKeeps(v: Vec)
    requires |v| > 0
    ensures Prob(InvertWith(v, Mean(v))) == Prob(v)
  {
    hide Prob, Sum, NormSq, Inner, InvertWith;
    ProbReflected(v, Mean(v));
    MeanBalances(|v| as real, Sum(v), Mean(v));
  }

  // ------------------------------------------------------------- matrix gates

  /** A matrix that keeps the norm of every block of amplitudes: a unitary one. */
  ghost predicate Isometry(g: QuantumGate) {
    g.Square() && forall xs: Vec | |xs| == |g.rows| :: Prob(MatVec(g, xs)) == Prob(xs)
  }

  lemma {:induction false} StoreProb(w: Vec, states: seq<nat>, outs: Vec, m: nat)
    requires m <= |states| == |outs| && DistinctBelow(states, |w|)
    ensures Prob(StoreBlock(w, states, outs, m)) == Prob(w) - Prob(Loads(w, states)[..m]) + Prob(outs[..m])
  {
    hide NormSq;
    if m == 0 {
      EmptySum(outs);
      EmptySum(Loads(w, states));
    } else {
      StoreProb(w, states, outs, m - 1);
      StoreBlockAt(w, states, outs, m - 1, states[m - 1]);
      SumUpdate(StoreBlock(w, states, outs, m - 1), states[m - 1], outs[m - 1]);
      SumSnoc(outs, m - 1);
      SumSnoc(Loads(w, states), m - 1);
    }
  }

  /** One turn of the block loop keeps the total. */
  lemma BlockKeeps(w: Vec, n: nat, g: QuantumGate, t: seq<nat>, block: nat)
    requires |w| == Pow2(n) && Fits(g, t, n) && |t| <= n && block < Pow2(n - |t|) && Isometry(g)
    ensures Prob(AfterBlock(w, n, g, t, block)) == Prob(w)
  {
    hide Prob, MatVec, Loads, StoreBlock, BlockStatesOf;
    BlockAddresses(n, t, block);
    var states := BlockStatesOf(n, t, block);
    var xs := Loads(w, states);
    var outs := MatVec(g, xs);
    StoreProb(w, states, outs, |states|);
    assert xs[..|xs|] == xs && outs[..|outs|] == outs;
  }

  /** So the blocks below `m` can be done without changing the total. */
  lemma {:induction false} BlocksKeep(v: Vec, n: nat, g: QuantumGate, t: seq<nat>, m: nat) returns (w: Vec)
    requires |v| == Pow2(n) && Fits(g, t, n) && |t| <= n && m <= Pow2(n - |t|) && Isometry(g)
    ensures DoneBelow(v, w, n, g, t, m) && Prob(w) == Prob(v)
  {
    hide Prob, MatrixAt, AfterBlock, Isometry;
    if m == 0 {
      w := v;
    } else {
      var u := BlocksKeep(v, n, g, t, m - 1);
      BlockTurn(v, u, n, g, t, m - 1);
      BlockKeeps(u, n, g, t, m - 1);
      w := AfterBlock(u, n, g, t, m - 1);
    }
  }

  /** A norm-keeping matrix keeps the total probability of the whole register, whatever qubits it acts on. */
  lemma MatrixKeeps(v: Vec, n: nat, g: QuantumGate, qubits: seq<nat>)
    requires IsRegister(v, n) && GateFits(g, qubits, n) && Isometry(g)
    ensures Prob(ApplyGate(v, n, g, qubits)) == Prob(v)
  {
    TargetsFit(g, qubits, n);
    hide Prob, MatrixAt, Isometry;
    var t := TargetBits(qubits, n);
    var w := BlocksKeep(v, n, g, t, Pow2(n - |t|));
    AllBlocksDone(v, w, n, g, t);
  }

  // --------------------------------------------------------------------- runs

  /** Operations that are unitary as executed: a matched gate runs as its built-in kernel, any other as its matrix. */
  ghost predicate Conserving(op: Operation, num: Numerics) {
    match op
    case OpPhase(_, _, phase) => NormSq(phase) == 1.0
    case OpGate(g, targets) => g.Square() && (RouteOf(g, |targets|, num).AsMatrix? ==> Isometry(g))
    case _ => true
  }

  lemma KernelsKeep(v: Vec, n: nat, num: Numerics)
    requires IsRegister(v, n) && num.Exact()
    ensures forall q: nat | q < n :: Prob(Hadamard(v, n, q, num.invSqrt(2))) == Prob(v) == Prob(PauliX(v, n, q))
    ensures forall c: nat, t: nat | c < n && t < n && c != t :: Prob(ControlledNot(v, n, c, t)) == Prob(v)
    ensures forall c: nat, t: nat, p | c < n && t < n && c != t && NormSq(p) == 1.0 ::
              Prob(ControlledPhase(v, n, c, t, p)) == Prob(v)
  {
    hide NormSq, KeepsPairs, Prob;
    var h := num.invSqrt(2);
    assert num.invSqrt(2) * num.invSqrt(2) * (2 as real) == 1.0;
    HadamardKeepsPairs(h);
    forall q: nat | q < n
      ensures Prob(Hadamard(v, n, q, h)) == Prob(v) == Prob(PauliX(v, n, q))
    {
      OthersKeepPairs(0, ZERO);
      MapKeeps(v, n, BitOf(q, n), HadamardKernel(h));
      MapKeeps(v, n, BitOf(q, n), PauliXKernel());
    }
    forall c: nat, t: nat | c < n && t < n && c != t
      ensures Prob(ControlledNot(v, n, c, t)) == Prob(v)
    {
      OthersKeepPairs(Pow2(BitOf(c, n)), ZERO);
      MapKeeps(v, n, BitOf(t, n), ControlledNotKernel(Pow2(BitOf(c, n))));
    }
    forall c: nat, t: nat, p | c < n && t < n && c != t && NormSq(p) == 1.0
      ensures Prob(ControlledPhase(v, n, c, t, p)) == Prob(v)
    {
      OthersKeepPairs(Pow2(BitOf(c, n)), p);
      MapKeeps(v, n, BitOf(t, n), PhaseKernel(Pow2(BitOf(c, n)), p));
    }
  }

  lemma OpKeeps(op: Operation, v: Vec, n: nat, num: Numerics)
    requires IsRegister(v, n) && OpAccepted(op, n) && Conserving(op, num) && num.Exact()
    ensures Prob(OpEffect(op, v, n, num)) == Prob(v)
  {
    hide Hadamard, PauliX, ControlledNot, ControlledPhase, PhaseFlip, InvertWith, ApplyGate;
    hide Prob, NormSq, RouteOf, Isometry;
    KernelsKeep(v, n, num);
    match op
    case OpSwap(a, b) =>
      var v1 := ControlledNot(v, n, a, b);
      KernelsKeep(v1, n, num);
      KernelsKeep(ControlledNot(v1, n, b, a), n, num);
    case OpGate(g, targets) =>
      RouteValidates(g, targets, n, num);
      if RouteOf(g, |targets|, num).AsPhase? {
        MatchedPhaseIsUnit(g, |targets|, num);
      } else if RouteOf(g, |targets|, num).AsMatrix? {
        MatrixKeeps(v, n, g, targets);
      }
    case OpFlip(s) => FlipKeeps(v, s);
    case OpInvert(_) => InversionKeeps(v);
    case _ =>
  }

  /** Every accepted run of conserving operations keeps the total probability exactly. */
  lemma {:induction false} RunKeepsProbability(ops: seq<Operation>, v: Vec, n: nat, num: Numerics)
    requires IsRegister(v, n) && AllAccepted(ops, n) && num.Exact()
    requires forall i | 0 <= i < |ops| :: Conserving(ops[i], num)
    ensures Prob(RunOps(ops, v, n, num)) == Prob(v)
  {
    hide OpEffect, Conserving, OpAccepted, Prob;
    if ops != [] {
      var l := |ops| - 1;
      RunKeepsProbability(ops[..l], v, n, num);
      OpKeeps(ops[l], RunOps(ops[..l], v, n, num), n, num);
    }
  }

  // ------------------------------------------------------ uniform initialisation

  lemma UniformIsTwoLevel(n: nat, states: seq<nat>, r: real)
    requires forall i | 0 <= i < |states| :: states[i] < Pow2(n)
    ensures Marks(SortUnique(states), n)
    ensures UniformVec(n, states, r) == TwoLevel(n, SortUnique(states), r, 0.0)
  {
    SortedMarks(states, n);
  }

  lemma OnlyMarked(size: real, m: real, r: real)
    ensures Blend(size, m, Sq(r), Sq(0.0)) == r * r * m
  {
  }

  /** Uniform initialisation from any non-empty in-range list has total probability 1. */
  lemma UniformIsNormalised(n: nat, states: seq<nat>, num: Numerics)
    requires states != [] && num.Exact() && forall i | 0 <= i < |states| :: states[i] < Pow2(n)
    ensures Prob(UniformVec(n, states, num.invSqrt(|SortUnique(states)|))) == 1.0
  {
    hide Prob, UniformVec, TwoLevel, SortUnique, Blend, Sq, Marks;
    var m, r := |SortUnique(states)|, num.invSqrt(|SortUnique(states)|);
    UniformIsTwoLevel(n, states, r);
    LevelSums(n, SortUnique(states), r, 0.0);
    OnlyMarked(Pow2(n) as real, m as real, r);
    assert num.invSqrt(m) * num.invSqrt(m) * (m as real) == 1.0;
  }
}
