/** The generated QFT circuit is the Fourier transform, for every register size. */
module QftCorrectness {
  import opened Amplitudes
  import opened Bits
  import opened PairKernels
  import opened GateBlocks
  import opened StateOps
  import opened KernelMatrices
  import opened GateMatch
  import opened Circuits
  import opened CircuitBuilders

  /** `cis(d)` is the point at angle pi / 2^d: half a turn first, then square roots. */
  ghost predicate HalfTurns(cis: nat -> Amp) {
    cis(0) == Neg(ONE) && forall d: nat :: Mul(cis(d + 1), cis(d + 1)) == cis(d)
  }

  /** The root of unity exp(2 pi i / 2^n). */
  function Root(n: nat, cis: nat -> Amp): Amp {
    if n == 0 then ONE else cis(n - 1)
  }

  function RealPow(h: real, e: nat): real {
    if e == 0 then 1.0 else h * RealPow(h, e - 1)
  }

  lemma RealPowStep(h: real, e: nat)
    ensures RealPow(h, e + 1) == h * RealPow(h, e)
  {
  }

  lemma {:induction false} RootSteps(cis: nat -> Amp, d: nat, j: nat)
    requires HalfTurns(cis) && j <= d
    ensures Pow(cis(d), Pow2(j)) == cis(d - j)
  {
    hide Mul;
    if j == 0 {
      MulUnit(cis(d));
      assert Pow(cis(d), 1) == Mul(cis(d), Pow(cis(d), 0));
    } else {
      RootSteps(cis, d, j - 1);
      PowAdd(cis(d), Pow2(j - 1), Pow2(j - 1));
      assert Mul(cis(d - j + 1), cis(d - j + 1)) == cis(d - j);
    }
  }

  /** The root of the transform has order 2^n: its 2^(n-1)-th power is -1. */
  lemma RootIsPrimitive(n: nat, cis: nat -> Amp)
    requires HalfTurns(cis) && n >= 1
    ensures Pow(Root(n, cis), Pow2(n - 1)) == Neg(ONE)
  {
    RootSteps(cis, n - 1, n - 1);
  }

  lemma SquarePow(a: Amp, e: nat)
    ensures Pow(a, e) == Mul(Pow(Mul(a, a), e / 2), if e % 2 == 1 then a else ONE)
  {
    hide Mul;
    MulUnit(a);
    assert Pow(a, 0) == ONE;
    assert Pow(a, 1) == Mul(a, Pow(a, 0));
    assert Pow(a, 2) == Mul(a, Pow(a, 1));
    PowMul(a, 2, e / 2);
    PowAdd(a, 2 * (e / 2), e % 2);
    MulUnit(Pow(Mul(a, a), e / 2));
  }

  // ------------------------------------------------------------------- stages

  /** The low `m` bits of two states agree. */
  ghost predicate Agree(x: nat, y: nat, m: nat) {
    forall j: nat | j < m :: Bit(x, j) == Bit(y, j)
  }

  /** The top `t` of `n` bits of `y`, read in reverse. */
  function Reverse(n: nat, t: nat, y: nat): nat
    requires t <= n
  {
    if t == 0 then 0 else Reverse(n, t - 1, y) + if Bit(y, n - t) then Pow2(t - 1) else 0
  }

  /** The amplitude at `y` after `t` stages on basis state `x`. */
  ghost function StageAmp(n: nat, t: nat, x: nat, y: nat, w: Amp, h: real): Amp
    requires t <= n
  {
    if Agree(x, y, n - t) then Scale(Pow(w, x * Reverse(n, t, y)), RealPow(h, t)) else ZERO
  }

  ghost predicate IsStage(v: Vec, n: nat, t: nat, x: nat, w: Amp, h: real) {
    t <= n && |v| == Pow2(n) && forall y: nat | y < Pow2(n) :: v[y] == StageAmp(n, t, x, y, w, h)
  }

  /** The turn that bits `b`, `b - 1`, ..., `b - i` of `x` add to a set bit `b`. */
  function Turn(x: nat, b: nat, i: nat, cis: nat -> Amp): Amp
    requires i <= b
  {
    if i == 0 then if Bit(x, b) then cis(0) else ONE
    else if Bit(x, b - i) then Mul(cis(i), Turn(x, b, i - 1, cis)) else Turn(x, b, i - 1, cis)
  }

  /** The amplitude at `y` inside stage `t`, after its Hadamard and `i` controlled phases. */
  ghost function MidAmp(n: nat, t: nat, i: nat, x: nat, y: nat, w: Amp, h: real, cis: nat -> Amp): Amp
    requires t < n && i <= n - 1 - t
  {
    var b := n - 1 - t;
    if Agree(x, y, b)
    then Scale(Mul(if Bit(y, b) then Turn(x, b, i, cis) else ONE, Pow(w, x * Reverse(n, t, y))), RealPow(h, t + 1))
    else ZERO
  }

  ghost predicate IsMid(v: Vec, n: nat, t: nat, i: nat, x: nat, w: Amp, h: real, cis: nat -> Amp) {
    t < n && i <= n - 1 - t && |v| == Pow2(n) &&
    forall y: nat | y < Pow2(n) :: v[y] == MidAmp(n, t, i, x, y, w, h, cis)
  }

  /** All the turns together are one power. */
  lemma {:induction false} TurnIsPower(x: nat, b: nat, cis: nat -> Amp)
    requires HalfTurns(cis)
    ensures Turn(x, b, b, cis) == Pow(cis(b), x)
  {
    hide Mul, Pow, Turn;
    SquarePow(cis(b), x);
    if b == 0 {
      LastTurn(x, 0, cis);
      PowOne(x / 2);
      MulUnit(cis(0));
      MulUnit(ONE);
    } else {
      var d: nat := b - 1;
      assert Mul(cis(d + 1), cis(d + 1)) == cis(d);
      TurnHalves(x, b, d, cis);
      TurnIsPower(x / 2, d, cis);
      LastTurn(x, b, cis);
      MulComm(cis(b), Pow(cis(d), x / 2));
      MulUnit(Pow(cis(d), x / 2));
    }
  }

  lemma HalfTurnTwice()
    ensures Mul(Neg(ONE), Neg(ONE)) == ONE
  {
  }

  lemma LastTurn(x: nat, b: nat, cis: nat -> Amp)
    requires HalfTurns(cis)
    ensures b == 0 ==> Mul(cis(0), cis(0)) == ONE && Turn(x, 0, 0, cis) == if x % 2 == 1 then cis(0) else ONE
    ensures b > 0 ==> Turn(x, b, b, cis) ==
                      if x % 2 == 1 then Mul(cis(b), Turn(x, b, b - 1, cis)) else Turn(x, b, b - 1, cis)
  {
    hide Mul, Neg;
    HalfTurnTwice();
    assert Bit(x, 0) == (x % 2 == 1);
  }

  lemma {:induction false} TurnHalves(x: nat, b: nat, i: nat, cis: nat -> Amp)
    requires i < b
    ensures Turn(x, b, i, cis) == Turn(x / 2, b - 1, i, cis)
  {
    hide Mul;
    if i > 0 {
      TurnHalves(x, b, i - 1, cis);
    }
  }

  /** Flipping bit `b` changes nothing the earlier stages look at. */
  lemma {:induction false} ReverseIgnores(n: nat, t: nat, y: nat, b: nat, on: bool)
    requires t <= n && b < n - t
    ensures Reverse(n, t, SetTo(y, b, on)) == Reverse(n, t, y)
  {
    if t > 0 {
      ReverseIgnores(n, t - 1, y, b, on);
      SetToBits(y, b, on, n - t);
    }
  }

  lemma AgreeStep(x: nat, y: nat, b: nat)
    ensures Agree(x, SetTo(y, b, Bit(x, b)), b + 1) <==> Agree(x, y, b)
    ensures !Agree(x, SetTo(y, b, !Bit(x, b)), b + 1)
  {
    forall j: nat
      ensures Bit(SetTo(y, b, Bit(x, b)), j) == if j == b then Bit(x, b) else Bit(y, j)
      ensures Bit(SetTo(y, b, !Bit(x, b)), j) == if j == b then !Bit(x, b) else Bit(y, j)
    {
      SetToBits(y, b, Bit(x, b), j);
      SetToBits(y, b, !Bit(x, b), j);
    }
    if Agree(x, SetTo(y, b, Bit(x, b)), b + 1) {
      forall j: nat | j < b
        ensures Bit(x, j) == Bit(y, j)
      {
        assert Bit(x, j) == Bit(SetTo(y, b, Bit(x, b)), j);
      }
    }
    assert Bit(x, b) != Bit(SetTo(y, b, !Bit(x, b)), b);
  }

  lemma HadamardAlgebra(a: Amp, r: real, h: real)
    ensures Scale(Add(Scale(a, r), ZERO), h) == Scale(a, h * r) == Scale(Sub(Scale(a, r), ZERO), h)
    ensures Scale(Add(ZERO, Scale(a, r)), h) == Scale(a, h * r)
    ensures Scale(Sub(ZERO, Scale(a, r)), h) == Scale(Mul(Neg(ONE), a), h * r)
    ensures Scale(Add(ZERO, ZERO), h) == ZERO == Scale(Sub(ZERO, ZERO), h)
  {
  }

  /** The Hadamard kernel on a pair of which at most one amplitude is non-zero. */
  lemma HadamardOnHalf(s0: nat, s1: nat, agree: bool, xb: bool, yb: bool, a: Amp, r: real, h: real)
    ensures var o := HadamardKernel(h)(s0, s1, if agree && !xb then Scale(a, r) else ZERO,
                                       if agree && xb then Scale(a, r) else ZERO);
            (if yb then o.a1 else o.a0) ==
            if agree then Scale(Mul(if yb && xb then Neg(ONE) else ONE, a), h * r) else ZERO
  {
    HadamardAlgebra(a, r, h);
    MulUnit(a);
    if agree && Scale(a, r) == ZERO {
      assert Scale(a, h * r) == Scale(Scale(a, r), h) == ZERO;
    }
    hide Scale, Mul, Add, Sub;
  }

  /** The Hadamard of a stage. */
  lemma HadamardMid(v: Vec, n: nat, t: nat, x: nat, w: Amp, h: real, cis: nat -> Amp)
    requires t < n && IsStage(v, n, t, x, w, h) && cis(0) == Neg(ONE)
    ensures IsMid(Hadamard(v, n, t, h), n, t, 0, x, w, h, cis)
  {
    hide Pow, Agree, Reverse, Scale, Mul, Add, Sub, SetTo, HadamardKernel, RealPow;
    var b := BitOf(t, n);
    RealPowStep(h, t);
    forall y: nat | y < Pow2(n)
      ensures Hadamard(v, n, t, h)[y] == MidAmp(n, t, 0, x, y, w, h, cis)
    {
      var s0, s1 := SetTo(y, b, false), SetTo(y, b, true);
      PairAtForced(v, n, b, HadamardKernel(h), y);
      AgreeStep(x, y, b);
      ReverseIgnores(n, t, y, b, false);
      ReverseIgnores(n, t, y, b, true);
      var a, r := Pow(w, x * Reverse(n, t, y)), RealPow(h, t);
      HadamardOnHalf(s0, s1, Agree(x, y, b), Bit(x, b), Bit(y, b), a, r, h);
      assert v[s0] == if Agree(x, y, b) && !Bit(x, b) then Scale(a, r) else ZERO;
      assert v[s1] == if Agree(x, y, b) && Bit(x, b) then Scale(a, r) else ZERO;
      var o := HadamardKernel(h)(s0, s1, v[s0], v[s1]);
      assert Hadamard(v, n, t, h)[y] == if Bit(y, b) then o.a1 else o.a0;
      assert RealPow(h, t + 1) == h * r;
      assert (if Bit(y, b) then Turn(x, b, 0, cis) else ONE) == if Bit(y, b) && Bit(x, b) then Neg(ONE) else ONE;
      assert MidAmp(n, t, 0, x, y, w, h, cis) ==
             if Agree(x, y, b) then Scale(Mul(if Bit(y, b) then Turn(x, b, 0, cis) else ONE, a), RealPow(h, t + 1))
             else ZERO;
      assert Hadamard(v, n, t, h)[y] ==
             if Agree(x, y, b) then Scale(Mul(if Bit(y, b) && Bit(x, b) then Neg(ONE) else ONE, a), h * r)
             else ZERO;
    }
  }

  lemma ScaleMul(p: Amp, q: Amp, a: Amp, r: real)
    ensures Mul(p, Scale(Mul(q, a), r)) == Scale(Mul(Mul(p, q), a), r)
    ensures Mul(p, ZERO) == ZERO
  {
  }

  /** One controlled phase of a stage. */
  lemma PhaseMid(v: Vec, n: nat, t: nat, i: nat, x: nat, w: Amp, h: real, cis: nat -> Amp)
    requires t < n && i < n - 1 - t && IsMid(v, n, t, i, x, w, h, cis)
    ensures IsMid(ControlledPhase(v, n, t + i + 1, t, cis(i + 1)), n, t, i + 1, x, w, h, cis)
  {
    hide Pow, Reverse, Mul, Scale, RealPow;
    var b, c, i' := BitOf(t, n), t + i + 1, i + 1;
    forall y: nat | y < Pow2(n)
      ensures ControlledPhase(v, n, c, t, cis(i'))[y] == MidAmp(n, t, i', x, y, w, h, cis)
    {
      ControlledPhaseAt(v, n, c, t, cis(i + 1), y);
      ScaleMul(cis(i + 1), Turn(x, b, i, cis), Pow(w, x * Reverse(n, t, y)), RealPow(h, t + 1));
      assert BitOf(c, n) == b - (i + 1);
      assert Agree(x, y, b) ==> Bit(x, b - (i + 1)) == Bit(y, b - (i + 1));
    }
  }

  /** All phases of a stage done, the next bit is transformed. */
  lemma MidIsStage(v: Vec, n: nat, t: nat, x: nat, h: real, cis: nat -> Amp)
    requires t < n && HalfTurns(cis) && IsMid(v, n, t, n - 1 - t, x, Root(n, cis), h, cis)
    ensures IsStage(v, n, t + 1, x, Root(n, cis), h)
  {
    hide Mul, Scale, RealPow, Turn;
    var b, w := n - 1 - t, Root(n, cis);
    TurnIsPower(x, b, cis);
    RootSteps(cis, n - 1, t);
    PowMul(w, Pow2(t), x);
    forall y: nat | y < Pow2(n)
      ensures v[y] == StageAmp(n, t + 1, x, y, w, h)
    {
      var r := Reverse(n, t, y);
      MulUnit(Pow(w, x * r));
      PowAdd(w, Pow2(t) * x, x * r);
      Distribute(x, Pow2(t), r);
    }
  }

  lemma Distribute(x: nat, p: nat, r: nat)
    ensures p * x + x * r == x * (r + p)
  {
  }

  // --------------------------------------------------------- the stages as runs

  lemma {:induction false} RunPhases(v: Vec, n: nat, t: nat, m: nat, x: nat, h: real, cis: nat -> Amp, num: Numerics)
    requires t < n && m <= n - 1 - t && IsRegister(v, n) && IsMid(v, n, t, 0, x, Root(n, cis), h, cis)
    ensures AllAccepted(QftPhases(t, m, cis), n)
    ensures IsMid(RunOps(QftPhases(t, m, cis), v, n, num), n, t, m, x, Root(n, cis), h, cis)
  {
    hide MidAmp, ControlledPhase;
    if m > 0 {
      var ops, op := QftPhases(t, m - 1, cis), OpPhase(t + m, t, cis(m));
      RunPhases(v, n, t, m - 1, x, h, cis, num);
      RunSnoc(ops, op, v, n, num);
      PhaseMid(RunOps(ops, v, n, num), n, t, m - 1, x, Root(n, cis), h, cis);
    }
  }

  lemma RunStage(v: Vec, n: nat, t: nat, x: nat, cis: nat -> Amp, num: Numerics)
    requires t < n && HalfTurns(cis) && IsRegister(v, n) && IsStage(v, n, t, x, Root(n, cis), num.invSqrt(2))
    ensures AllAccepted(QftStage(n, t, cis), n)
    ensures IsStage(RunOps(QftStage(n, t, cis), v, n, num), n, t + 1, x, Root(n, cis), num.invSqrt(2))
  {
    hide MidAmp, StageAmp, Hadamard;
    var h, layer, phases := num.invSqrt(2), [OpH(t)], QftPhases(t, n - 1 - t, cis);
    RunSnoc([], OpH(t), v, n, num);
    assert [] + [OpH(t)] == layer;
    HadamardMid(v, n, t, x, Root(n, cis), h, cis);
    var u := Hadamard(v, n, t, h);
    RunPhases(u, n, t, n - 1 - t, x, h, cis, num);
    RunConcat(layer, phases, v, n, num);
    MidIsStage(RunOps(phases, u, n, num), n, t, x, h, cis);
  }

  lemma BasisIsStage(n: nat, x: nat, w: Amp, h: real)
    requires x < Pow2(n)
    ensures IsStage(BasisVec(n, x), n, 0, x, w, h)
  {
    forall y: nat | y < Pow2(n)
      ensures Agree(x, y, n) <==> x == y
      ensures Scale(Pow(w, x * Reverse(n, 0, y)), RealPow(h, 0)) == ONE
    {
      if Agree(x, y, n) {
        BitExt(x, y, n);
      }
      assert x * 0 == 0;
    }
  }

  lemma {:induction false} RunStages(n: nat, k: nat, x: nat, cis: nat -> Amp, num: Numerics)
    requires k <= n && HalfTurns(cis) && x < Pow2(n)
    ensures AllAccepted(QftStages(n, k, cis), n)
    ensures IsStage(RunOps(QftStages(n, k, cis), BasisVec(n, x), n, num), n, k, x, Root(n, cis), num.invSqrt(2))
  {
    hide StageAmp, QftStage, OpEffect, OpAccepted;
    var v := BasisVec(n, x);
    if k == 0 {
      BasisIsStage(n, x, Root(n, cis), num.invSqrt(2));
    } else {
      RunStages(n, k - 1, x, cis, num);
      var u := RunOps(QftStages(n, k - 1, cis), v, n, num);
      RunStage(u, n, k - 1, x, cis, num);
      RunConcat(QftStages(n, k - 1, cis), QftStage(n, k - 1, cis), v, n, num);
    }
  }

  // ----------------------------------------------------------------- the swaps

  /** `y` with its outermost `k` pairs of bits exchanged. */
  function Mirror(y: nat, n: nat, k: nat): nat
    requires k <= n / 2
    decreases k
  {
    if k == 0 then y else Mirror(ExchangeBits(y, n - k, k - 1), n, k - 1)
  }

  lemma {:induction false} MirrorBits(y: nat, n: nat, k: nat, j: nat)
    requires k <= n / 2 && j < n
    ensures Bit(Mirror(y, n, k), j) == Bit(y, if j < k || j >= n - k then n - 1 - j else j)
    decreases k
  {
    if k > 0 {
      var e := ExchangeBits(y, n - k, k - 1);
      MirrorBits(e, n, k - 1, j);
      ExchangeBitsAt(y, n - k, k - 1, if j < k - 1 || j >= n - (k - 1) then n - 1 - j else j);
    }
  }

  /** The swaps move the amplitude of every mirrored state. */
  lemma {:induction false} RunSwaps(v: Vec, n: nat, k: nat, y: nat, num: Numerics)
    requires k <= n / 2 && IsRegister(v, n) && y < |v|
    ensures AllAccepted(QftSwaps(n, k), n) && Mirror(y, n, k) < |v|
    ensures RunOps(QftSwaps(n, k), v, n, num)[y] == v[Mirror(y, n, k)]
    decreases k
  {
    hide Swap, ExchangeBits, OpEffect, OpAccepted;
    if k > 0 {
      RunSwaps(v, n, k - 1, y, num);
      SwapPermutes(RunOps(QftSwaps(n, k - 1), v, n, num), n, k - 1, n - k, y);
      RunSwaps(v, n, k - 1, ExchangeBits(y, n - k, k - 1), num);
      LastSwap(v, n, k, num);
    }
  }

  lemma LastSwap(v: Vec, n: nat, k: nat, num: Numerics)
    requires 1 <= k <= n / 2 && IsRegister(v, n) && AllAccepted(QftSwaps(n, k - 1), n)
    ensures AllAccepted(QftSwaps(n, k), n)
    ensures RunOps(QftSwaps(n, k), v, n, num) == Swap(RunOps(QftSwaps(n, k - 1), v, n, num), n, k - 1, n - k)
  {
    RunSnoc(QftSwaps(n, k - 1), OpSwap(k - 1, n - k), v, n, num);
  }

  lemma {:induction false} ReverseBits(n: nat, t: nat, y: nat, s: nat)
    requires t <= n
    ensures Reverse(n, t, y) < Pow2(t)
    ensures Bit(Reverse(n, t, y), s) == (s < t && Bit(y, n - 1 - s))
  {
    if t == 0 {
      ZeroBits(s);
    } else {
      ReverseBits(n, t - 1, y, s);
      ReverseBits(n, t - 1, y, t - 1);
      SetBit(Reverse(n, t - 1, y), t - 1, s);
    }
  }

  /** Reading a fully mirrored state in reverse gives the state back. */
  lemma ReverseOfMirror(n: nat, y: nat)
    requires y < Pow2(n)
    ensures Reverse(n, n, Mirror(y, n, n / 2)) == y
  {
    var z := Mirror(y, n, n / 2);
    ReverseBits(n, n, z, 0);
    forall j: nat | j < n
      ensures Bit(Reverse(n, n, z), j) == Bit(y, j)
    {
      ReverseBits(n, n, z, j);
      MirrorBits(y, n, n / 2, n - 1 - j);
    }
    BitExt(Reverse(n, n, z), y, n);
  }

  /** h^n * w^(x * y) for the root of unity `w` of order 2^n. */
  function FourierAmp(n: nat, x: nat, y: nat, cis: nat -> Amp, h: real): Amp {
    Scale(Pow(Root(n, cis), x * y), RealPow(h, n))
  }

  /** The generated QFT circuit, run on basis state `x`, leaves amplitude h^n * w^(x * y) at every state `y`. */
  lemma QftIsFourier(n: nat, x: nat, y: nat, cis: nat -> Amp, num: Numerics)
    requires HalfTurns(cis) && x < Pow2(n) && y < Pow2(n)
    ensures AllAccepted(QftOps(n, cis), n)
    ensures RunOps(QftOps(n, cis), BasisVec(n, x), n, num)[y] ==
            Scale(Pow(if n == 0 then ONE else cis(n - 1), x * y), RealPow(num.invSqrt(2), n))
  {
    hide Scale, Pow, RealPow, Reverse, Mirror;
    var v, stages, swaps := BasisVec(n, x), QftStages(n, n, cis), QftSwaps(n, n / 2);
    RunStages(n, n, x, cis, num);
    var u := RunOps(stages, v, n, num);
    RunSwaps(u, n, n / 2, y, num);
    RunConcat(stages, swaps, v, n, num);
    ReverseOfMirror(n, y);
    var z := Mirror(y, n, n / 2);
    assert u[z] == StageAmp(n, n, x, z, Root(n, cis), num.invSqrt(2));
  }

  /** The whole vector the transform of basis state `x` must be. */
  function FourierVec(n: nat, x: nat, cis: nat -> Amp, h: real): (v: Vec)
    ensures |v| == Pow2(n)
  {
    seq(Pow2(n), y requires 0 <= y => FourierAmp(n, x, y, cis, h))
  }

  lemma QftIsFourierVec(n: nat, x: nat, cis: nat -> Amp, num: Numerics)
    requires HalfTurns(cis) && x < Pow2(n)
    ensures AllAccepted(QftOps(n, cis), n)
    ensures RunOps(QftOps(n, cis), BasisVec(n, x), n, num) == FourierVec(n, x, cis, num.invSqrt(2))
  {
    hide HalfTurns, RunOps, QftOps, OpAccepted, Scale, Pow, RealPow;
    QftIsFourier(n, x, 0, cis, num);
    forall y: nat | y < Pow2(n)
      ensures RunOps(QftOps(n, cis), BasisVec(n, x), n, num)[y] == FourierAmp(n, x, y, cis, num.invSqrt(2))
    {
      QftIsFourier(n, x, y, cis, num);
    }
  }
}
