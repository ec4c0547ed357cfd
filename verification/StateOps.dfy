/** What each backend operation means on a state vector. */
module StateOps {
  import opened Amplitudes
  import opened Bits
  import opened PairKernels
  import opened Gates
  import opened GateBlocks

  /**
   * The numeric library the backends call: `invSqrt(m)` is `1.0 / std::sqrt(m)`, and `cosSinOf(p)` is
   * (cos, sin) of `std::atan2(p.imag, p.real)`.
   */
  datatype Numerics = Numerics(invSqrt: nat -> real, cosSinOf: Amp -> Amp) {
    ghost predicate Exact() {
      && (forall m: nat | m >= 1 :: invSqrt(m) * invSqrt(m) * (m as real) == 1.0)
      && (forall p: Amp | NormSq(p) != 0.0 :: Normalizes(p, cosSinOf(p)))
    }
  }

  /** Scaling `p` by the positive `r` puts it on the unit circle, at `q`. */
  ghost predicate ScalesTo(p: Amp, q: Amp, r: real) {
    r > 0.0 && r * r * NormSq(p) == 1.0 && q == Scale(p, r)
  }

  /** `q` is `p` scaled onto the unit circle. */
  ghost predicate Normalizes(p: Amp, q: Amp) {
    exists r: real :: ScalesTo(p, q, r)
  }

  // ------------------------------------------------------------------ kernels

  function HadamardKernel(h: real): PairFn {
    (s0: nat, s1: nat, a: Amp, b: Amp) =>
      if a == ZERO && b == ZERO then PairOut(a, b, Neither)
      else PairOut(Scale(Add(a, b), h), Scale(Sub(a, b), h), Both)
  }

  function PauliXKernel(): PairFn {
    (s0: nat, s1: nat, a: Amp, b: Amp) =>
      if a == b then PairOut(a, b, Neither) else PairOut(b, a, Both)
  }

  function PhaseKernel(controlMask: nat, phase: Amp): PairFn {
    (s0: nat, s1: nat, a: Amp, b: Amp) =>
      if And(s1, controlMask) == 0 then PairOut(a, b, Neither)
      else if b == ZERO then PairOut(a, b, Neither)
      else PairOut(a, Mul(phase, b), Second)
  }

  function ControlledNotKernel(controlMask: nat): PairFn {
    (s0: nat, s1: nat, a: Amp, b: Amp) =>
      if And(s0, controlMask) == 0 then PairOut(a, b, Neither)
      else if a == b then PairOut(a, b, Neither)
      else PairOut(b, a, Both)
  }

  /** Every kernel reports exactly what it writes. */
  lemma KernelsAreHonest(h: real, mask: nat, phase: Amp)
    ensures Honest(HadamardKernel(h)) && Honest(PauliXKernel())
    ensures Honest(PhaseKernel(mask, phase)) && Honest(ControlledNotKernel(mask))
  {
  }

  // --------------------------------------------------------------- operations

  function ZeroVec(n: nat): (v: Vec)
    ensures |v| == Pow2(n) && forall s | 0 <= s < |v| :: v[s] == ZERO
  {
    seq(Pow2(n), _ => ZERO)
  }

  /** A list a uniform superposition can be made of: in-range states, at least one. */
  ghost predicate ListFits(states: seq<nat>, n: nat) {
    states != [] && forall i | 0 <= i < |states| :: states[i] < Pow2(n)
  }

  /** Equal real amplitude `r` on the listed states, zero elsewhere. */
  function UniformVec(n: nat, states: seq<nat>, r: real): (v: Vec)
    ensures |v| == Pow2(n)
  {
    seq(Pow2(n), s requires 0 <= s => if s in states then Real(r) else ZERO)
  }

  /** The bit of a qubit: qubit 0 is the most significant. */
  function BitOf(q: nat, n: nat): nat
    requires q < n
  {
    n - q - 1
  }

  function Hadamard(v: Vec, n: nat, q: nat, h: real): (w: Vec)
    requires IsRegister(v, n) && q < n
    ensures IsRegister(w, n)
  {
    PairMap(v, n, BitOf(q, n), HadamardKernel(h))
  }

  function PauliX(v: Vec, n: nat, q: nat): (w: Vec)
    requires IsRegister(v, n) && q < n
    ensures IsRegister(w, n)
  {
    PairMap(v, n, BitOf(q, n), PauliXKernel())
  }

  function ControlledPhase(v: Vec, n: nat, c: nat, t: nat, phase: Amp): (w: Vec)
    requires IsRegister(v, n) && c < n && t < n && c != t
    ensures IsRegister(w, n)
  {
    PairMap(v, n, BitOf(t, n), PhaseKernel(Pow2(BitOf(c, n)), phase))
  }

  function ControlledNot(v: Vec, n: nat, c: nat, t: nat): (w: Vec)
    requires IsRegister(v, n) && c < n && t < n && c != t
    ensures IsRegister(w, n)
  {
    PairMap(v, n, BitOf(t, n), ControlledNotKernel(Pow2(BitOf(c, n))))
  }

  /** Three controlled-NOTs. */
  function Swap(v: Vec, n: nat, a: nat, b: nat): (w: Vec)
    requires IsRegister(v, n) && a < n && b < n && a != b
    ensures IsRegister(w, n)
  {
    ControlledNot(ControlledNot(ControlledNot(v, n, a, b), n, b, a), n, a, b)
  }

  function PhaseFlip(v: Vec, s: nat): (w: Vec)
    requires s < |v|
    ensures |w| == |v|
  {
    v[s := Neg(v[s])]
  }

  function Mean(v: Vec): Amp
    requires |v| > 0
  {
    Amp(Sum(v).re / (|v| as real), Sum(v).im / (|v| as real))
  }

  function InvertWith(v: Vec, mean: Amp): (w: Vec)
    ensures |w| == |v|
  {
    seq(|v|, s requires 0 <= s < |v| => Sub(Scale(mean, 2.0), v[s]))
  }

  function Affine(v: Vec, scale: Amp, bias: Amp): (w: Vec)
    ensures |w| == |v|
  {
    seq(|v|, s requires 0 <= s < |v| => Add(Mul(scale, v[s]), bias))
  }

  /** `g` applied to the amplitudes of the states below `m`. */
  function MapUpTo(v: Vec, g: Amp -> Amp, m: nat): (w: Vec)
    ensures |w| == |v|
  {
    seq(|v|, s requires 0 <= s < |v| => if s < m then g(v[s]) else v[s])
  }

  lemma MapNext(v: Vec, g: Amp -> Amp, m: nat)
    requires m < |v|
    ensures MapUpTo(v, g, m)[m] == v[m]
    ensures MapUpTo(v, g, m + 1) == MapUpTo(v, g, m)[m := g(v[m])]
  {
  }

  /** One amplitude reflected about the mean. */
  function Reflection(mean: Amp): Amp -> Amp {
    (a: Amp) => Amp(2.0 * mean.re - a.re, 2.0 * mean.im - a.im)
  }

  lemma ReflectionInverts(v: Vec, mean: Amp)
    ensures MapUpTo(v, Reflection(mean), |v|) == InvertWith(v, mean)
  {
  }

  ghost predicate GateFits(g: QuantumGate, qubits: seq<nat>, n: nat) {
    g.Square() && |qubits| <= n && |g.rows| == Pow2(|qubits|) && DistinctBelow(qubits, n)
  }

  function ApplyGate(v: Vec, n: nat, g: QuantumGate, qubits: seq<nat>): (w: Vec)
    requires IsRegister(v, n) && GateFits(g, qubits, n)
    ensures IsRegister(w, n)
  {
    TargetsFit(g, qubits, n);
    ApplyMatrix(v, n, g, TargetBits(qubits, n))
  }

  lemma TargetsFit(g: QuantumGate, qubits: seq<nat>, n: nat)
    requires GateFits(g, qubits, n)
    ensures Fits(g, TargetBits(qubits, n), n)
  {
  }

  // -------------------------------------------------------------- measurement

  /** Inclusive cumulative probability up to state `s`. */
  function Cumulative(v: Vec, s: nat): real
    requires s < |v|
  {
    Prob(v[..s + 1])
  }

  /** The least state from `s` on whose cumulative probability reaches `rnd`; -1 if there is none. */
  function SampleFrom(v: Vec, rnd: real, s: nat): int
    requires s <= |v|
    decreases |v| - s
  {
    if s == |v| then -1
    else if rnd <= Cumulative(v, s) then s
    else SampleFrom(v, rnd, s + 1)
  }

  /** Scanning one state: the running total, and whether the scan stops there. */
  lemma SampleNext(v: Vec, rnd: real, s: nat)
    requires s < |v|
    ensures Prob(v[..s + 1]) == Prob(v[..s]) + NormSq(v[s])
    ensures SampleFrom(v, rnd, s) == if rnd <= Prob(v[..s + 1]) then s else SampleFrom(v, rnd, s + 1)
  {
    hide NormSq;
    SumSnoc(v, s);
  }

  lemma {:induction false} CumulativeMono(v: Vec, i: nat, j: nat)
    requires i <= j < |v|
    ensures Cumulative(v, i) <= Cumulative(v, j)
    decreases j
  {
    if i < j {
      CumulativeMono(v, i, j - 1);
      SumSnoc(v, j);
      assert NormSq(v[j]) >= 0.0;
    }
  }

  lemma {:induction false} SampleFromIsLeast(v: Vec, rnd: real, s: nat)
    requires s <= |v| && forall i: nat | i < s :: Cumulative(v, i) < rnd
    ensures var r := SampleFrom(v, rnd, s);
            if r == -1 then forall i: nat | i < |v| :: Cumulative(v, i) < rnd
            else 0 <= r < |v| && rnd <= Cumulative(v, r) && forall i: nat | i < r :: Cumulative(v, i) < rnd
    decreases |v| - s
  {
    if s < |v| && rnd > Cumulative(v, s) {
      SampleFromIsLeast(v, rnd, s + 1);
    }
  }

  /** Sampling returns the least state that reaches the sample, and succeeds exactly when the total does. */
  lemma SampleIsLeast(v: Vec, rnd: real)
    requires v != []
    ensures var r := SampleFrom(v, rnd, 0);
            && (r != -1 <==> rnd <= Prob(v))
            && (r != -1 ==> 0 <= r < |v| && rnd <= Cumulative(v, r) && forall i: nat | i < r :: Cumulative(v, i) < rnd)
  {
    SampleFromIsLeast(v, rnd, 0);
    var r, last := SampleFrom(v, rnd, 0), |v| - 1;
    assert v[..last + 1] == v;
    assert Cumulative(v, last) == Prob(v);
    if r != -1 {
      CumulativeMono(v, r, last);
    }
  }

  datatype Measured = Sampled(state: nat) | BadSample | NotReached

  /** What sampling must return. */
  function Measure(v: Vec, rnd: real): Measured {
    if rnd < 0.0 || rnd >= 1.0 then BadSample else MeasureUnchecked(v, rnd)
  }

  function MeasureUnchecked(v: Vec, rnd: real): Measured {
    var r := SampleFrom(v, rnd, 0);
    if r < 0 then NotReached else Sampled(r)
  }

  /** What a scan returns: the first state to reach the sample, or that the total stays below it. */
  lemma ScanMeans(v: Vec, rnd: real, s: nat)
    requires v != []
    ensures MeasureUnchecked(v, rnd) == Sampled(s) <==>
            s < |v| && rnd <= Prob(v[..s + 1]) && forall j | 0 < j <= s :: Prob(v[..j]) < rnd
    ensures MeasureUnchecked(v, rnd) == NotReached <==> Prob(v) < rnd
    ensures MeasureUnchecked(v, rnd) != BadSample
  {
    hide Prob, SampleFrom;
    SampleIsLeast(v, rnd);
    var r := SampleFrom(v, rnd, 0);
    forall i: nat | i < |v|
      ensures Cumulative(v, i) == Prob(v[..i + 1]) <= Prob(v)
    {
      CumulativeMono(v, i, |v| - 1);
      assert v[..|v|] == v;
    }
    if r == -1 || s < r {
      assert s < |v| ==> Cumulative(v, s) < rnd;
    } else if r < s {
      var j := r + 1;
      assert 0 < j <= s && Prob(v[..j]) == Cumulative(v, r) >= rnd;
    } else {
      forall j | 0 < j <= s
        ensures Prob(v[..j]) < rnd
      {
        assert Cumulative(v, j - 1) < rnd;
      }
    }
  }

  /** What measuring returns, for every sample. */
  lemma MeasureMeans(v: Vec, rnd: real, s: nat)
    requires v != []
    ensures 0.0 <= rnd < 1.0 ==>
              (Measure(v, rnd) == Sampled(s) <==>
               s < |v| && rnd <= Prob(v[..s + 1]) && forall j | 0 < j <= s :: Prob(v[..j]) < rnd)
    ensures 0.0 <= rnd < 1.0 ==> (Measure(v, rnd) == NotReached <==> Prob(v) < rnd)
    ensures Measure(v, rnd) == BadSample <==> rnd < 0.0 || 1.0 <= rnd
  {
    hide Prob, MeasureUnchecked;
    ScanMeans(v, rnd, s);
  }
}
