/** What the generated Grover circuit does, for every register, marked list and number of rounds. */
module GroverCorrectness {
  import opened Amplitudes
  import opened Bits
  import opened PairKernels
  import opened Gates
  import opened BasisLists
  import opened StateOps
  import opened GateMatch
  import opened Circuits
  import opened CircuitBuilders
  import opened QftCorrectness

  /** One real amplitude on the marked states, another on all others. */
  function TwoLevel(n: nat, marked: seq<nat>, a: real, b: real): (v: Vec)
    ensures |v| == Pow2(n)
  {
    seq(Pow2(n), s requires 0 <= s => Real(if s in marked then a else b))
  }

  /** Distinct states of the register. */
  ghost predicate Marks(marked: seq<nat>, n: nat) {
    Increasing(marked) && forall i | 0 <= i < |marked| :: marked[i] < Pow2(n)
  }

  /** `m` times one value and `size - m` times the other. */
  function Blend(size: real, m: real, x: real, y: real): real { m * x + (size - m) * y }

  /** The two amplitudes after a round: the marked one changes sign, then both are reflected about the mean. */
  function NextLevels(size: real, m: real, a: real, b: real): (real, real)
    requires size != 0.0
  {
    var mean := Blend(size, m, -a, b) / size;
    (2.0 * mean + a, 2.0 * mean - b)
  }

  function Levels(n: nat, m: real, start: real, rounds: nat): (real, real) {
    if rounds == 0 then (start, start)
    else
      var l := Levels(n, m, start, rounds - 1);
      NextLevels(Pow2(n) as real, m, l.0, l.1)
  }

  // ---------------------------------------------------------- the Hadamard layer

  lemma LayerStep(v: Vec, n: nat, t: nat, h: real)
    requires t < n && IsRegister(v, n) && IsStage(v, n, t, 0, ONE, h)
    ensures IsStage(Hadamard(v, n, t, h), n, t + 1, 0, ONE, h)
  {
    var cis := (d: nat) => Neg(ONE);
    HadamardMid(v, n, t, 0, ONE, h, cis);
    hide Hadamard, Mul, Scale, RealPow, Reverse;
    var b := n - 1 - t;
    ZeroBits(b);
    PowOne(0);
    MulUnit(ONE);
    forall y: nat | y < Pow2(n)
      ensures MidAmp(n, t, 0, 0, y, ONE, h, cis) == StageAmp(n, t + 1, 0, y, ONE, h)
    {
      assert 0 * Reverse(n, t, y) == 0 == 0 * Reverse(n, t + 1, y);
    }
  }

  lemma {:induction false} RunLayer(n: nat, k: nat, num: Numerics)
    requires k <= n
    ensures AllAccepted(HadamardLayer(k), n)
    ensures IsStage(RunOps(HadamardLayer(k), BasisVec(n, 0), n, num), n, k, 0, ONE, num.invSqrt(2))
  {
    hide StageAmp, Hadamard;
    if k == 0 {
      BasisIsStage(n, 0, ONE, num.invSqrt(2));
    } else {
      RunLayer(n, k - 1, num);
      RunSnoc(HadamardLayer(k - 1), OpH(k - 1), BasisVec(n, 0), n, num);
      LayerStep(RunOps(HadamardLayer(k - 1), BasisVec(n, 0), n, num), n, k - 1, num.invSqrt(2));
    }
  }

  /** The layer makes every amplitude 1 / sqrt(2^n). */
  lemma LayerIsUniform(n: nat, marked: seq<nat>, num: Numerics)
    ensures AllAccepted(HadamardLayer(n), n)
    ensures RunOps(HadamardLayer(n), BasisVec(n, 0), n, num) ==
            TwoLevel(n, marked, RealPow(num.invSqrt(2), n), RealPow(num.invSqrt(2), n))
  {
    RunLayer(n, n, num);
    hide RunOps, RealPow, Reverse;
    var v, r := RunOps(HadamardLayer(n), BasisVec(n, 0), n, num), RealPow(num.invSqrt(2), n);
    forall y: nat | y < Pow2(n)
      ensures v[y] == Real(r)
    {
      assert v[y] == StageAmp(n, n, 0, y, ONE, num.invSqrt(2));
      assert 0 * Reverse(n, n, y) == 0;
    }
  }

  lemma {:induction false} LayerNorm(h: real, n: nat)
    requires h * h * 2.0 == 1.0
    ensures RealPow(h, n) * RealPow(h, n) * (Pow2(n) as real) == 1.0
  {
    if n > 0 {
      LayerNorm(h, n - 1);
      var r, p := RealPow(h, n - 1), Pow2(n - 1) as real;
      calc {
        (h * r) * (h * r) * (2.0 * p);
        (h * h * 2.0) * (r * r * p);
      }
    }
  }

  // -------------------------------------------------------------------- a round

  lemma RunNothing(v: Vec, n: nat, num: Numerics)
    requires IsRegister(v, n)
    ensures RunOps([], v, n, num) == v
  {
  }

  /** The last flip of an oracle comes after the others. */
  lemma LastFlip(marked: seq<nat>, v: Vec, n: nat, num: Numerics)
    requires IsRegister(v, n) && Marks(marked, n) && marked != []
    requires AllAccepted(OracleOps(marked[..|marked| - 1]), n)
    ensures AllAccepted(OracleOps(marked), n)
    ensures RunOps(OracleOps(marked), v, n, num) ==
            PhaseFlip(RunOps(OracleOps(marked[..|marked| - 1]), v, n, num), marked[|marked| - 1])
  {
    hide RunOps, PhaseFlip;
    RunSnoc(OracleOps(marked[..|marked| - 1]), OpFlip(marked[|marked| - 1]), v, n, num);
  }

  /** The oracle flips exactly the listed states. */
  lemma {:induction false} OracleAt(marked: seq<nat>, v: Vec, n: nat, s: nat, num: Numerics)
    requires IsRegister(v, n) && Marks(marked, n) && s < |v|
    ensures AllAccepted(OracleOps(marked), n)
    ensures RunOps(OracleOps(marked), v, n, num)[s] == if s in marked then Neg(v[s]) else v[s]
  {
    hide RunOps, Neg;
    if marked == [] {
      RunNothing(v, n, num);
    } else {
      var l := |marked| - 1;
      OracleAt(marked[..l], v, n, s, num);
      LastFlip(marked, v, n, num);
      assert marked == marked[..l] + [marked[l]];
    }
  }

  lemma OracleOnLevels(marked: seq<nat>, n: nat, a: real, b: real, num: Numerics)
    requires Marks(marked, n)
    ensures AllAccepted(OracleOps(marked), n)
    ensures RunOps(OracleOps(marked), TwoLevel(n, marked, a, b), n, num) == TwoLevel(n, marked, -a, b)
  {
    var v := TwoLevel(n, marked, a, b);
    OracleAt(marked, v, n, 0, num);
    forall s: nat | s < Pow2(n)
      ensures RunOps(OracleOps(marked), v, n, num)[s] == TwoLevel(n, marked, -a, b)[s]
    {
      OracleAt(marked, v, n, s, num);
    }
  }

  lemma OneMore(l: real, x: real)
    ensures (l + 1.0) * x == l * x + x
  {
  }

  lemma {:induction false} SumConstant(v: Vec, b: real)
    requires forall s | 0 <= s < |v| :: v[s] == Real(b)
    ensures Sum(v) == Real((|v| as real) * b) && Prob(v) == (|v| as real) * Sq(b)
  {
    if v != [] {
      var l := |v| - 1;
      SumConstant(v[..l], b);
      OneMore(l as real, b);
      OneMore(l as real, Sq(b));
    }
  }

  lemma BlendLaws(size: real, m: real, x: real, y: real)
    ensures Blend(size, m, x, y) - y + x == Blend(size, m + 1.0, x, y)
    ensures Blend(size, 0.0, x, y) == size * y
    ensures Blend(size, m, x, x) == size * x
  {
  }

  lemma NormReal(x: real)
    ensures NormSq(Real(x)) == Sq(x)
  {
  }

  /** Marking one more state. */
  lemma MarkOneMore(n: nat, marked: seq<nat>, a: real, b: real)
    requires Marks(marked, n) && marked != []
    ensures var l := |marked| - 1; var w := TwoLevel(n, marked[..l], a, b);
            && Sum(TwoLevel(n, marked, a, b)) == Add(Sum(w), Sub(Real(a), Real(b)))
            && Prob(TwoLevel(n, marked, a, b)) == Prob(w) - Sq(b) + Sq(a)
  {
    hide Sum, Prob, NormSq, Sq, Add, Sub;
    var l := |marked| - 1;
    var w := TwoLevel(n, marked[..l], a, b);
    assert marked == marked[..l] + [marked[l]];
    assert TwoLevel(n, marked, a, b) == w[marked[l] := Real(a)];
    NormReal(a);
    NormReal(b);
    SumUpdate(w, marked[l], Real(a));
  }

  /** Sum and probability of a two-level vector. */
  lemma {:induction false} LevelSums(n: nat, marked: seq<nat>, a: real, b: real)
    requires Marks(marked, n)
    ensures Sum(TwoLevel(n, marked, a, b)) == Real(Blend(Pow2(n) as real, |marked| as real, a, b))
    ensures Prob(TwoLevel(n, marked, a, b)) == Blend(Pow2(n) as real, |marked| as real, Sq(a), Sq(b))
  {
    hide TwoLevel, Sum, Prob, Sq, Blend, Pow2, Real, Add, Sub;
    var size := Pow2(n) as real;
    if marked == [] {
      AllUnmarked(n, a, b);
    } else {
      var l := |marked| - 1;
      LevelSums(n, marked[..l], a, b);
      MarkOneMore(n, marked, a, b);
      BlendLaws(size, l as real, a, b);
      BlendLaws(size, l as real, Sq(a), Sq(b));
      assert |marked| as real == (l as real) + 1.0;
      RealStep(Blend(size, l as real, a, b), a, b);
    }
  }

  lemma RealStep(x: real, a: real, b: real)
    ensures Add(Real(x), Sub(Real(a), Real(b))) == Real(x - b + a)
  {
  }

  lemma AllUnmarked(n: nat, a: real, b: real)
    ensures Sum(TwoLevel(n, [], a, b)) == Real(Blend(Pow2(n) as real, 0.0, a, b))
    ensures Prob(TwoLevel(n, [], a, b)) == Blend(Pow2(n) as real, 0.0, Sq(a), Sq(b))
  {
    SumConstant(TwoLevel(n, [], a, b), b);
  }

  lemma RealOver(x: real, size: real)
    requires size != 0.0
    ensures Amp(Real(x).re / size, Real(x).im / size) == Real(x / size)
  {
  }

  lemma ReflectReal(mean: real, x: real)
    ensures Sub(Scale(Real(mean), 2.0), Real(x)) == Real(2.0 * mean - x)
  {
  }

  lemma DiffusionOnLevels(n: nat, marked: seq<nat>, a: real, b: real)
    requires Marks(marked, n)
    ensures var v, l := TwoLevel(n, marked, -a, b), NextLevels(Pow2(n) as real, |marked| as real, a, b);
            InvertWith(v, Mean(v)) == TwoLevel(n, marked, l.0, l.1)
  {
    hide Sum, Blend, Pow2, Sub, Scale, Real;
    LevelSums(n, marked, -a, b);
    var size := Pow2(n) as real;
    var mean := Blend(size, |marked| as real, -a, b) / size;
    RealOver(Blend(size, |marked| as real, -a, b), size);
    ReflectReal(mean, -a);
    ReflectReal(mean, b);
  }

  /** One round takes a two-level state to a two-level state. */
  lemma RoundOnLevels(marked: seq<nat>, materialized: bool, n: nat, a: real, b: real, num: Numerics)
    requires Marks(marked, n)
    ensures AllAccepted(GroverRound(marked, materialized), n)
    ensures var l := NextLevels(Pow2(n) as real, |marked| as real, a, b);
            RunOps(GroverRound(marked, materialized), TwoLevel(n, marked, a, b), n, num) ==
            TwoLevel(n, marked, l.0, l.1)
  {
    hide TwoLevel, InvertWith, Mean, NextLevels;
    OracleOnLevels(marked, n, a, b, num);
    RunSnoc(OracleOps(marked), OpInvert(materialized), TwoLevel(n, marked, a, b), n, num);
    DiffusionOnLevels(n, marked, a, b);
  }

  lemma {:induction false} RoundsOnLevels(marked: seq<nat>, materialized: bool, rounds: nat, n: nat, start: real,
                                          num: Numerics)
    requires Marks(marked, n)
    ensures AllAccepted(GroverRounds(marked, materialized, rounds), n)
    ensures var l := Levels(n, |marked| as real, start, rounds);
            RunOps(GroverRounds(marked, materialized, rounds), TwoLevel(n, marked, start, start), n, num) ==
            TwoLevel(n, marked, l.0, l.1)
  {
    hide TwoLevel, NextLevels, GroverRound;
    if rounds > 0 {
      RoundsOnLevels(marked, materialized, rounds - 1, n, start, num);
      var l := Levels(n, |marked| as real, start, rounds - 1);
      RoundOnLevels(marked, materialized, n, l.0, l.1, num);
      RunConcat(GroverRounds(marked, materialized, rounds - 1), GroverRound(marked, materialized),
                TwoLevel(n, marked, start, start), n, num);
    }
  }

  /** The marked states of a list, once each, are marks. */
  lemma SortedMarks(markedStates: seq<nat>, n: nat)
    requires forall i | 0 <= i < |markedStates| :: markedStates[i] < Pow2(n)
    ensures Marks(SortUnique(markedStates), n)
    ensures forall i | 0 <= i < |SortUnique(markedStates)| :: SortUnique(markedStates)[i] < Pow2(n)
  {
    forall i | 0 <= i < |SortUnique(markedStates)|
      ensures SortUnique(markedStates)[i] < Pow2(n)
    {
      assert SortUnique(markedStates)[i] in markedStates;
    }
  }

  /**
   * From the all-zero state, for marked states in any order and with repetitions, the circuit leaves one real
   * amplitude on all marked states and one on all others, and they follow the sign-flip-then-reflect recurrence.
   */
  lemma GroverIsTwoLevel(n: nat, markedStates: seq<nat>, materialized: bool, rounds: nat, num: Numerics)
    requires forall i | 0 <= i < |markedStates| :: markedStates[i] < Pow2(n)
    ensures AllAccepted(GroverOps(n, markedStates, materialized, rounds), n)
    ensures var marked := SortUnique(markedStates);
            var l := Levels(n, |marked| as real, RealPow(num.invSqrt(2), n), rounds);
            RunOps(GroverOps(n, markedStates, materialized, rounds), BasisVec(n, 0), n, num) ==
            TwoLevel(n, marked, l.0, l.1)
  {
    hide SortUnique, Levels, TwoLevel, RealPow, HadamardLayer, GroverRounds;
    var marked := SortUnique(markedStates);
    SortedMarks(markedStates, n);
    LayerIsUniform(n, marked, num);
    RoundsOnLevels(marked, materialized, rounds, n, RealPow(num.invSqrt(2), n), num);
    RunConcat(HadamardLayer(n), GroverRounds(marked, materialized, rounds), BasisVec(n, 0), n, num);
  }

  // ----------------------------------------------------------- how the levels move

  lemma NextNorm(size: real, m: real, a: real, b: real)
    requires size != 0.0
    ensures var l := NextLevels(size, m, a, b);
            Blend(size, m, Sq(l.0), Sq(l.1)) == Blend(size, m, Sq(a), Sq(b))
  {
    hide Sq, Blend;
    var mean := Blend(size, m, -a, b) / size;
    DivideBack(Blend(size, m, -a, b), size);
    ReflectNorm(size, m, a, b, mean);
  }

  lemma DivideBack(x: real, size: real)
    requires size != 0.0
    ensures x / size * size == x
  {
  }

  /** Reflecting both levels about their mean keeps the blend of their squares. */
  lemma ReflectNorm(size: real, m: real, a: real, b: real, mean: real)
    requires mean * size == Blend(size, m, -a, b)
    ensures Blend(size, m, Sq(2.0 * mean + a), Sq(2.0 * mean - b)) == Blend(size, m, Sq(a), Sq(b))
  {
    hide Sq, Blend;
    var f := 4.0 * mean;
    ShiftSquare(mean, a, f);
    ShiftSquareBack(mean, b, f);
    BlendNegate(size, m, a, b);
    BlendBalanced(size, m, Sq(2.0 * mean + a), Sq(2.0 * mean - b), Sq(a), Sq(b), f, mean, a, -b);
  }

  lemma ShiftSquare(mean: real, a: real, f: real)
    requires f == 4.0 * mean
    ensures Sq(2.0 * mean + a) == Sq(a) + f * (mean + a)
  {
  }

  lemma ShiftSquareBack(mean: real, b: real, f: real)
    requires f == 4.0 * mean
    ensures Sq(2.0 * mean - b) == Sq(b) + f * (mean + -b)
  {
  }

  /** Blending is linear. */
  lemma BlendSum(size: real, m: real, x: real, y: real, f: real, c: real, a: real, b: real)
    ensures Blend(size, m, x + f * (c + a), y + f * (c + b)) ==
            Blend(size, m, x, y) + f * (c * size + Blend(size, m, a, b))
  {
    var k := size - m;
    BlendScale(m, f, c + a);
    BlendScale(k, f, c + b);
    assert m * (x + f * (c + a)) == m * x + f * (m * (c + a));
    assert k * (y + f * (c + b)) == k * y + f * (k * (c + b));
    assert m * (c + a) + k * (c + b) == c * size + (m * a + k * b);
    SumScale(f, m * (c + a), k * (c + b));
  }

  lemma BlendScale(m: real, f: real, x: real)
    ensures m * (f * x) == f * (m * x)
  {
  }

  lemma SumScale(f: real, x: real, y: real)
    ensures f * x + f * y == f * (x + y)
  {
  }

  lemma BlendNegate(size: real, m: real, a: real, b: real)
    ensures Blend(size, m, a, -b) == -Blend(size, m, -a, b)
  {
  }

  lemma BlendBalanced(size: real, m: real, p: real, q: real, x: real, y: real, f: real, c: real, a: real, b: real)
    requires p == x + f * (c + a) && q == y + f * (c + b)
    requires c * size + Blend(size, m, a, b) == 0.0
    ensures Blend(size, m, p, q) == Blend(size, m, x, y)
  {
    hide Blend;
    BlendSum(size, m, x, y, f, c, a, b);
    TimesZero(f, c * size + Blend(size, m, a, b));
  }

  lemma TimesZero(f: real, x: real)
    requires x == 0.0
    ensures f * x == 0.0
  {
  }

  lemma StartNorm(n: nat, num: Numerics)
    requires num.Exact()
    ensures var start := RealPow(num.invSqrt(2), n); start * start * (Pow2(n) as real) == 1.0
  {
    assert num.invSqrt(2) * num.invSqrt(2) * (2 as real) == 1.0;
    LayerNorm(num.invSqrt(2), n);
  }

  /** m u^2 + (N - m) v^2 stays 1, for m marked of N states. */
  lemma {:induction false} LevelsNorm(n: nat, m: real, start: real, rounds: nat)
    requires start * start * (Pow2(n) as real) == 1.0
    ensures var l := Levels(n, m, start, rounds);
            Blend(Pow2(n) as real, m, Sq(l.0), Sq(l.1)) == 1.0
  {
    hide NextLevels, Pow2, Blend;
    if rounds == 0 {
      BlendLaws(Pow2(n) as real, m, Sq(start), Sq(start));
    } else {
      LevelsNorm(n, m, start, rounds - 1);
      var l := Levels(n, m, start, rounds - 1);
      NextNorm(Pow2(n) as real, m, l.0, l.1);
    }
  }

  /** `e` = (cos, sin) of the Grover angle: sin^2 is the marked fraction. */
  ghost predicate IsAngle(e: Amp, size: real, m: real) {
    e.im * e.im * size == m && e.re * e.re * size == size - m
  }

  lemma AngleMean(size: real, m: real, a: real, b: real, c: real, s: real)
    requires size != 0.0 && s * s * size == m && c * c * size == size - m
    ensures c * c + s * s == 1.0
    ensures Blend(size, m, -a, b) / size == -(s * s * a) + c * c * b
  {
    Cancel(size, c * c + s * s, 1.0);
    var x := -(s * s * a) + c * c * b;
    assert Blend(size, m, -a, b) == x * size;
  }

  lemma Cancel(size: real, x: real, y: real)
    requires size != 0.0 && size * x == size * y
    ensures x == y
  {
  }

  lemma TurnWith(e: Amp, a: real, b: real, start: real, p: Amp, mean: real)
    requires e.re * e.re + e.im * e.im == 1.0 && mean == -(e.im * e.im * a) + e.re * e.re * b
    requires a * e.im == start * p.im && b * e.re == start * p.re
    ensures var q := Mul(Mul(e, e), p);
            (2.0 * mean + a) * e.im == start * q.im && (2.0 * mean - b) * e.re == start * q.re
  {
    hide Mul;
    SquareTimes(e, p);
    TurnAlgebra(e.re, e.im, a, b, start, p.re, p.im, mean);
  }

  lemma SquareTimes(e: Amp, p: Amp)
    ensures Mul(Mul(e, e), p) ==
            Amp((e.re * e.re - e.im * e.im) * p.re - (e.re * e.im + e.im * e.re) * p.im,
                (e.re * e.re - e.im * e.im) * p.im + (e.re * e.im + e.im * e.re) * p.re)
  {
  }

  lemma NextTurn(size: real, m: real, a: real, b: real, e: Amp, start: real, p: Amp)
    requires size != 0.0 && IsAngle(e, size, m) && a * e.im == start * p.im && b * e.re == start * p.re
    ensures var l, q := NextLevels(size, m, a, b), Mul(Mul(e, e), p);
            l.0 * e.im == start * q.im && l.1 * e.re == start * q.re
  {
    hide Blend, Mul;
    AngleMean(size, m, a, b, e.re, e.im);
    TurnWith(e, a, b, start, p, Blend(size, m, -a, b) / size);
  }

  lemma TurnAlgebra(c: real, s: real, a: real, b: real, start: real, x: real, y: real, mean: real)
    requires c * c + s * s == 1.0 && mean == -(s * s * a) + c * c * b
    requires a * s == start * y && b * c == start * x
    ensures (2.0 * mean + a) * s == start * ((c * c - s * s) * y + (c * s + s * c) * x)
    ensures (2.0 * mean - b) * c == start * ((c * c - s * s) * x - (c * s + s * c) * y)
  {
    var d := c * c - s * s;
    assert 2.0 * mean + a == d * a + 2.0 * (c * c * b) by {
      assert a == (c * c + s * s) * a;
    }
    assert 2.0 * mean - b == d * b - 2.0 * (s * s * a) by {
      assert b == (c * c + s * s) * b;
    }
    assert (d * a + 2.0 * (c * c * b)) * s == d * (a * s) + 2.0 * (c * s) * (b * c);
    assert (d * b - 2.0 * (s * s * a)) * c == d * (b * c) - 2.0 * (c * s) * (a * s);
  }

  /** After k rounds the amplitudes are those of angle (2k + 1) theta. */
  lemma {:induction false} LevelsTurn(n: nat, m: real, start: real, rounds: nat, e: Amp)
    requires IsAngle(e, Pow2(n) as real, m)
    ensures var l, p := Levels(n, m, start, rounds), Pow(e, 2 * rounds + 1);
            l.0 * e.im == start * p.im && l.1 * e.re == start * p.re
  {
    hide Mul, NextLevels, IsAngle, Pow2;
    if rounds == 0 {
      assert Pow(e, 1) == Mul(e, Pow(e, 0));
      MulUnit(e);
    } else {
      LevelsTurn(n, m, start, rounds - 1, e);
      var l, p := Levels(n, m, start, rounds - 1), Pow(e, 2 * rounds - 1);
      NextTurn(Pow2(n) as real, m, l.0, l.1, e, start, p);
      assert Pow(e, 2 * rounds + 1) == Mul(e, Pow(e, 2 * rounds));
      assert Pow(e, 2 * rounds) == Mul(e, p);
      MulAssoc(e, e, p);
    }
  }

  /** The probability of measuring one of the listed states. */
  function ListedProbability(v: Vec, states: seq<nat>): real
    requires forall i | 0 <= i < |states| :: states[i] < |v|
  {
    if states == [] then 0.0
    else ListedProbability(v, states[..|states| - 1]) + NormSq(v[states[|states| - 1]])
  }

  lemma {:induction false} MarkedProbability(n: nat, marked: seq<nat>, some: seq<nat>, a: real, b: real)
    requires forall i | 0 <= i < |some| :: some[i] in marked && some[i] < Pow2(n)
    ensures ListedProbability(TwoLevel(n, marked, a, b), some) == (|some| as real) * Sq(a)
  {
    if some != [] {
      MarkedProbability(n, marked, some[..|some| - 1], a, b);
      NormReal(a);
      OneMore((|some| - 1) as real, Sq(a));
      hide Sq, NormSq;
    }
  }

  /** Grover's law: after k rounds a marked state is measured with probability sin^2((2k + 1) theta). */
  lemma GroverSucceeds(n: nat, markedStates: seq<nat>, materialized: bool, rounds: nat, num: Numerics, e: Amp)
    requires forall i | 0 <= i < |markedStates| :: markedStates[i] < Pow2(n)
    requires num.Exact() && IsAngle(e, Pow2(n) as real, |SortUnique(markedStates)| as real)
    ensures AllAccepted(GroverOps(n, markedStates, materialized, rounds), n)
    ensures forall i | 0 <= i < |SortUnique(markedStates)| :: SortUnique(markedStates)[i] < Pow2(n)
    ensures var v := RunOps(GroverOps(n, markedStates, materialized, rounds), BasisVec(n, 0), n, num);
            var p := Pow(e, 2 * rounds + 1);
            Prob(v) == 1.0 && ListedProbability(v, SortUnique(markedStates)) == Sq(p.im)
  {
    hide *;
    var marked, start := SortUnique(markedStates), RealPow(num.invSqrt(2), n);
    var l := Levels(n, |marked| as real, start, rounds);
    GroverIsTwoLevel(n, markedStates, materialized, rounds, num);
    StartNorm(n, num);
    SortedMarks(markedStates, n);
    LevelsSucceed(n, marked, start, rounds, e);
  }

  lemma AngleIs(e: Amp, size: real, m: real)
    requires IsAngle(e, size, m)
    ensures e.im * e.im * size == m
  {
  }

  lemma LevelsSucceed(n: nat, marked: seq<nat>, start: real, rounds: nat, e: Amp)
    requires Marks(marked, n) && IsAngle(e, Pow2(n) as real, |marked| as real)
    requires start * start * (Pow2(n) as real) == 1.0
    requires forall i | 0 <= i < |marked| :: marked[i] < Pow2(n)
    ensures var l, p := Levels(n, |marked| as real, start, rounds), Pow(e, 2 * rounds + 1);
            var v := TwoLevel(n, marked, l.0, l.1);
            Prob(v) == 1.0 && ListedProbability(v, marked) == Sq(p.im)
  {
    hide *;
    var l, p := Levels(n, |marked| as real, start, rounds), Pow(e, 2 * rounds + 1);
    LevelSums(n, marked, l.0, l.1);
    LevelsNorm(n, |marked| as real, start, rounds);
    MarkedProbability(n, marked, marked, l.0, l.1);
    LevelsTurn(n, |marked| as real, start, rounds, e);
    AngleIs(e, Pow2(n) as real, |marked| as real);
    SuccessAlgebra(|marked| as real, Pow2(n) as real, l.0, e.im, start, p.im);
  }

  lemma SuccessAlgebra(m: real, size: real, u: real, s: real, start: real, y: real)
    requires s * s * size == m && u * s == start * y && start * start * size == 1.0
    ensures m * Sq(u) == Sq(y)
  {
    calc {
      m * (u * u);
      (s * s * size) * (u * u);
      size * ((u * s) * (u * s));
      size * ((start * y) * (start * y));
      (start * start * size) * (y * y);
    }
  }
}
