/** Recognising built-in gates within tolerance, and what dispatching on that costs. */
module GateMatch {
  import opened Amplitudes
  import opened Bits
  import opened PairKernels
  import opened Gates
  import opened GateBlocks
  import opened StateOps
  import opened KernelMatrices

  const TOLERANCE := 0.000000000001
  const PHASE_TOLERANCE := 0.0000000001

  function Absolute(x: real): real { if x < 0.0 then -x else x }

  lemma AbsoluteMeans(x: real)
    ensures Absolute(x) >= 0.0 && (Absolute(x) == x || Absolute(x) == -x)
  {
  }

  predicate ApproxEqual(a: real, b: real, tol: real) { Absolute(a - b) <= tol }

  predicate MatchesAmplitude(a: Amp, b: Amp) {
    ApproxEqual(a.re, b.re, TOLERANCE) && ApproxEqual(a.im, b.im, TOLERANCE)
  }

  predicate MatchesHadamard(g: QuantumGate, h: real)
    requires forall i | 0 <= i < |g.rows| :: |g.rows[i]| == |g.rows|
  {
    && |g.rows| == 2
    && MatchesAmplitude(g.rows[0][0], Real(h)) && MatchesAmplitude(g.rows[0][1], Real(h))
    && MatchesAmplitude(g.rows[1][0], Real(h)) && MatchesAmplitude(g.rows[1][1], Real(-h))
  }

  predicate MatchesPauliX(g: QuantumGate)
    requires forall i | 0 <= i < |g.rows| :: |g.rows[i]| == |g.rows|
  {
    && |g.rows| == 2
    && MatchesAmplitude(g.rows[0][0], ZERO) && MatchesAmplitude(g.rows[0][1], ONE)
    && MatchesAmplitude(g.rows[1][0], ONE) && MatchesAmplitude(g.rows[1][1], ZERO)
  }

  predicate MatchesControlledNot(g: QuantumGate)
    requires forall i | 0 <= i < |g.rows| :: |g.rows[i]| == |g.rows|
  {
    && |g.rows| == 4
    && forall row, col | 0 <= row < 4 && 0 <= col < 4 ::
         var isOne := || (row == 0 && col == 0) || (row == 1 && col == 1)
                      || (row == 2 && col == 3) || (row == 3 && col == 2);
         MatchesAmplitude(g.rows[row][col], if isOne then ONE else ZERO)
  }

  predicate MatchesControlledPhase(g: QuantumGate)
    requires forall i | 0 <= i < |g.rows| :: |g.rows[i]| == |g.rows|
  {
    && |g.rows| == 4
    && (forall row, col | 0 <= row < 4 && 0 <= col < 4 && row != col :: MatchesAmplitude(g.rows[row][col], ZERO))
    && MatchesAmplitude(g.rows[0][0], ONE) && MatchesAmplitude(g.rows[1][1], ONE) && MatchesAmplitude(g.rows[2][2], ONE)
    && ApproxEqual(NormSq(g.rows[3][3]), 1.0, PHASE_TOLERANCE)
  }

  /** Which path `applyGate` takes for a matrix on `count` listed qubits. */
  datatype Route = AsHadamard | AsPauliX | AsControlledNot | AsPhase(phase: Amp) | AsMatrix

  function RouteOf(g: QuantumGate, count: nat, num: Numerics): Route
    requires forall i | 0 <= i < |g.rows| :: |g.rows[i]| == |g.rows|
  {
    if count == 1 && MatchesHadamard(g, num.invSqrt(2)) then AsHadamard
    else if count == 1 && MatchesPauliX(g) then AsPauliX
    else if count == 2 && MatchesControlledNot(g) then AsControlledNot
    else if count == 2 && MatchesControlledPhase(g) then AsPhase(num.cosSinOf(g.rows[3][3]))
    else AsMatrix
  }

  /** A kernel route checks just what the general validation would. */
  lemma RouteValidates(g: QuantumGate, qubits: seq<nat>, n: nat, num: Numerics)
    requires g.Square()
    ensures RouteOf(g, |qubits|, num) in {AsHadamard, AsPauliX} ==>
              |qubits| == 1 && (GateFits(g, qubits, n) <==> qubits[0] < n)
    ensures RouteOf(g, |qubits|, num).AsControlledNot? || RouteOf(g, |qubits|, num).AsPhase? ==>
              |qubits| == 2 && (GateFits(g, qubits, n) <==> qubits[0] < n && qubits[1] < n && qubits[0] != qubits[1])
  {
    assert Pow2(1) == 2 && Pow2(2) == 4;
  }

  /** What the compressed backend does for a gate: a kernel when a matcher accepts it. */
  ghost function DispatchedGate(v: Vec, n: nat, g: QuantumGate, qubits: seq<nat>, num: Numerics): (w: Vec)
    requires IsRegister(v, n) && GateFits(g, qubits, n)
    ensures IsRegister(w, n)
  {
    match RouteOf(g, |qubits|, num)
    case AsHadamard => Hadamard(v, n, qubits[0], num.invSqrt(2))
    case AsPauliX => PauliX(v, n, qubits[0])
    case AsControlledNot => ControlledNot(v, n, qubits[0], qubits[1])
    case AsPhase(phase) => ControlledPhase(v, n, qubits[0], qubits[1], phase)
    case AsMatrix => ApplyGate(v, n, g, qubits)
  }

  /** The exact matrix the chosen path implements. */
  function RouteMatrix(g: QuantumGate, count: nat, num: Numerics): QuantumGate
    requires forall i | 0 <= i < |g.rows| :: |g.rows[i]| == |g.rows|
  {
    match RouteOf(g, count, num)
    case AsHadamard => HadamardGate(num.invSqrt(2))
    case AsPauliX => PAULI_X
    case AsControlledNot => CONTROLLED_NOT
    case AsPhase(phase) => ControlledPhaseGate(phase)
    case AsMatrix => g
  }

  /** Dispatch computes exactly the matrix of the path it takes. */
  lemma DispatchIsRouteMatrix(v: Vec, n: nat, g: QuantumGate, qubits: seq<nat>, num: Numerics)
    requires IsRegister(v, n) && GateFits(g, qubits, n)
    ensures GateFits(RouteMatrix(g, |qubits|, num), qubits, n)
    ensures DispatchedGate(v, n, g, qubits, num) == ApplyGate(v, n, RouteMatrix(g, |qubits|, num), qubits)
  {
    hide Hadamard, PauliX, ControlledNot, ControlledPhase, ApplyGate;
    match RouteOf(g, |qubits|, num)
    case AsHadamard =>
      assert qubits == [qubits[0]];
      HadamardIsMatrix(v, n, qubits[0], num.invSqrt(2));
    case AsPauliX =>
      assert qubits == [qubits[0]];
      PauliXIsMatrix(v, n, qubits[0]);
    case AsControlledNot =>
      assert qubits == [qubits[0], qubits[1]];
      ControlledNotIsMatrix(v, n, qubits[0], qubits[1]);
    case AsPhase(phase) =>
      assert qubits == [qubits[0], qubits[1]];
      ControlledPhaseIsMatrix(v, n, qubits[0], qubits[1], phase);
    case AsMatrix =>
  }

  // ------------------------------------------------- when dispatch is faithful

  function BasisVec(n: nat, s: nat): (v: Vec)
    ensures |v| == Pow2(n)
  {
    seq(Pow2(n), i requires 0 <= i => if i == s then ONE else ZERO)
  }

  lemma {:induction false} DotUnit(row: Vec, xs: Vec, c: nat)
    requires |row| == |xs| && c < |xs|
    requires forall i | 0 <= i < |xs| :: xs[i] == if i == c then ONE else ZERO
    ensures Dot(row, xs) == row[c]
  {
    hide Mul;
    var l := |row| - 1;
    MulUnit(row[l]);
    if c == l {
      DotZero(row[..l], xs[..l]);
    } else {
      DotUnit(row[..l], xs[..l], c);
    }
  }

  /** Acting on a basis state reads off one matrix entry. */
  lemma EntryFromAction(n: nat, g: QuantumGate, t: seq<nat>, r: nat, c: nat)
    requires Fits(g, t, n) && r < |g.rows| && c < |g.rows|
    ensures Place(0, t, r) < Pow2(n) && Place(0, t, c) < Pow2(n)
    ensures ApplyMatrix(BasisVec(n, Place(0, t, c)), n, g, t)[Place(0, t, r)] == g.rows[r][c]
  {
    hide Dot, Place, LocalIndex, Gather, BasisVec, Pow2;
    PlaceRange(0, t, r, n);
    PlaceRange(0, t, c, n);
    LocalOfPlace(0, t, r, n);
    GatheredUnit(n, t, r, c);
    DotUnit(g.rows[r], Gather(BasisVec(n, Place(0, t, c)), n, t, Place(0, t, r)), c);
  }

  /** The block of a basis state holds a single one. */
  lemma GatheredUnit(n: nat, t: seq<nat>, r: nat, c: nat)
    requires DistinctBelow(t, n) && r < Pow2(|t|) && c < Pow2(|t|)
    requires Place(0, t, r) < Pow2(n) && Place(0, t, c) < Pow2(n)
    ensures var xs := Gather(BasisVec(n, Place(0, t, c)), n, t, Place(0, t, r));
            forall i | 0 <= i < |xs| :: xs[i] == if i == c then ONE else ZERO
  {
    hide Place, LocalIndex, Pow2;
    var v, s := BasisVec(n, Place(0, t, c)), Place(0, t, r);
    forall i: nat | i < Pow2(|t|)
      ensures Gather(v, n, t, s)[i] == if i == c then ONE else ZERO
    {
      PlaceTwice(0, t, r, i, n);
      LocalOfPlace(0, t, i, n);
      LocalOfPlace(0, t, c, n);
      PlaceRange(s, t, i, n);
    }
  }

  /** A gate's action determines its matrix. */
  lemma ActionDeterminesMatrix(n: nat, g: QuantumGate, g': QuantumGate, t: seq<nat>)
    requires Fits(g, t, n) && Fits(g', t, n)
    requires forall v: Vec | |v| == Pow2(n) :: ApplyMatrix(v, n, g, t) == ApplyMatrix(v, n, g', t)
    ensures g == g'
  {
    forall r: nat, c: nat | r < |g.rows| && c < |g.rows|
      ensures g.rows[r][c] == g'.rows[r][c]
    {
      EntryFromAction(n, g, t, r, c);
      EntryFromAction(n, g', t, r, c);
    }
    forall r | 0 <= r < |g.rows|
      ensures g.rows[r] == g'.rows[r]
    {
    }
    assert g.rows == g'.rows;
  }

  /** Whether the dispatch leaves the meaning of a gate call alone. */
  ghost predicate DispatchPreserves(n: nat, g: QuantumGate, qubits: seq<nat>, num: Numerics)
    requires GateFits(g, qubits, n)
  {
    forall v: Vec | IsRegister(v, n) :: DispatchedGate(v, n, g, qubits, num) == ApplyGate(v, n, g, qubits)
  }

  /** It does so exactly for matrices equal to what the chosen path implements. */
  lemma PreservedIfRouteMatrix(n: nat, g: QuantumGate, qubits: seq<nat>, num: Numerics)
    requires GateFits(g, qubits, n)
    ensures DispatchPreserves(n, g, qubits, num) <==> g == RouteMatrix(g, |qubits|, num)
  {
    var m, t := RouteMatrix(g, |qubits|, num), TargetBits(qubits, n);
    hide DispatchedGate, RouteMatrix, RouteOf;
    forall v: Vec | IsRegister(v, n)
      ensures GateFits(m, qubits, n) && DispatchedGate(v, n, g, qubits, num) == ApplyGate(v, n, m, qubits)
    {
      DispatchIsRouteMatrix(v, n, g, qubits, num);
    }
    assert IsRegister(BasisVec(n, 0), n);
    assert GateFits(m, qubits, n);
    if DispatchPreserves(n, g, qubits, num) {
      forall v: Vec | |v| == Pow2(n)
        ensures ApplyMatrix(v, n, g, t) == ApplyMatrix(v, n, m, t)
      {
        assert IsRegister(v, n);
        assert DispatchedGate(v, n, g, qubits, num) == ApplyGate(v, n, g, qubits);
      }
      ActionDeterminesMatrix(n, g, m, t);
    }
  }

  lemma UnitRoot(r: real, x: real)
    requires r > 0.0 && x == 1.0 && r * r * x == 1.0
    ensures r == 1.0
  {
    assert r * r * x == r * r;
    assert (r - 1.0) * (r + 1.0) == r * r - 1.0;
  }

  lemma UnitPhaseKept(p: Amp, num: Numerics)
    requires num.Exact() && NormSq(p) == 1.0
    ensures num.cosSinOf(p) == p
  {
    var q := num.cosSinOf(p);
    assert Normalizes(p, q);
    var r: real :| ScalesTo(p, q, r);
    UnitRoot(r, NormSq(p));
  }

  lemma MatchedPhaseIsUnit(g: QuantumGate, count: nat, num: Numerics)
    requires g.Square() && num.Exact() && RouteOf(g, count, num).AsPhase?
    ensures NormSq(RouteOf(g, count, num).phase) == 1.0
  {
    var p := g.rows[3][3];
    assert NormSq(p) != 0.0;
    var q := num.cosSinOf(p);
    assert Normalizes(p, q);
    var r: real :| ScalesTo(p, q, r);
    ScaleNorm(p, r);
  }

  /** A controlled phase of exact magnitude 1. */
  predicate IsUnitPhase(g: QuantumGate)
    requires forall i | 0 <= i < |g.rows| :: |g.rows[i]| == |g.rows|
  {
    |g.rows| == 4 && g == ControlledPhaseGate(g.rows[3][3]) && NormSq(g.rows[3][3]) == 1.0
  }

  /** Exactly one of the gates the store has kernels for. */
  predicate IsBuiltIn(g: QuantumGate, count: nat, num: Numerics)
    requires forall i | 0 <= i < |g.rows| :: |g.rows[i]| == |g.rows|
  {
    || (count == 1 && (g == HadamardGate(num.invSqrt(2)) || g == PAULI_X))
    || (count == 2 && (g == CONTROLLED_NOT || IsUnitPhase(g)))
  }

  /** Not within tolerance of any of them. */
  predicate IsUnmatched(g: QuantumGate, count: nat, num: Numerics)
    requires forall i | 0 <= i < |g.rows| :: |g.rows[i]| == |g.rows|
  {
    && (count == 1 ==> !MatchesHadamard(g, num.invSqrt(2)) && !MatchesPauliX(g))
    && (count == 2 ==> !MatchesControlledNot(g) && !MatchesControlledPhase(g))
  }

  lemma HalfIsNotTiny(num: Numerics)
    requires num.Exact()
    ensures Absolute(num.invSqrt(2)) > 0.5
  {
    var h := num.invSqrt(2);
    assert num.invSqrt(2) * num.invSqrt(2) * (2 as real) == 1.0;
    SmallSquare(h);
  }

  lemma SmallSquare(x: real)
    ensures Absolute(x) <= 0.5 ==> x * x <= 0.25
  {
    if -0.5 <= x <= 0.5 {
      ProductSign(0.5 - x, 0.5 + x);
      assert (0.5 - x) * (0.5 + x) == 0.25 - x * x;
    }
  }

  /** A built-in gate is routed to its own kernel. */
  lemma BuiltInRoute(g: QuantumGate, count: nat, num: Numerics)
    requires g.Square() && num.Exact() && IsBuiltIn(g, count, num)
    ensures g == RouteMatrix(g, count, num)
  {
    HalfIsNotTiny(num);
    if count == 2 && g != CONTROLLED_NOT {
      UnitPhaseKept(g.rows[3][3], num);
      assert !MatchesAmplitude(g.rows[2][3], ONE);
    }
  }

  /** A matrix equals what its route implements exactly if it is a built-in gate or no matcher accepts it. */
  lemma BuiltInsAreFaithful(g: QuantumGate, count: nat, num: Numerics)
    requires g.Square() && num.Exact()
    ensures g == RouteMatrix(g, count, num) <==> IsBuiltIn(g, count, num) || IsUnmatched(g, count, num)
  {
    if IsBuiltIn(g, count, num) {
      BuiltInRoute(g, count, num);
    } else if RouteOf(g, count, num).AsPhase? {
      MatchedPhaseIsUnit(g, count, num);
    }
  }

  /**
   * Dispatching leaves the meaning of a gate alone exactly for a Hadamard, X, controlled-NOT or unit controlled
   * phase, and for matrices that are within tolerance of none of them.
   */
  lemma DispatchPreservesExactly(n: nat, g: QuantumGate, qubits: seq<nat>, num: Numerics)
    requires GateFits(g, qubits, n) && num.Exact()
    ensures DispatchPreserves(n, g, qubits, num) <==> IsBuiltIn(g, |qubits|, num) || IsUnmatched(g, |qubits|, num)
  {
    PreservedIfRouteMatrix(n, g, qubits, num);
    BuiltInsAreFaithful(g, |qubits|, num);
  }

  /** An accepted matrix that is not the built-in one is dispatched unfaithfully: X with a 1e-13 off-entry. */
  lemma DispatchCanDiffer(num: Numerics)
    requires num.Exact()
    ensures exists g: QuantumGate :: GateFits(g, [0], 1) && !DispatchPreserves(1, g, [0], num)
  {
    var g := QuantumGate([[Amp(0.0000000000001, 0.0), ONE], [ONE, ZERO]]);
    assert Pow2(1) == 2;
    assert GateFits(g, [0], 1);
    var h := num.invSqrt(2);
    assert h * h * 2.0 == 1.0 by {
      assert num.invSqrt(2) * num.invSqrt(2) * (2 as real) == 1.0;
    }
    assert RouteOf(g, 1, num) == AsPauliX;
    assert g != PAULI_X by {
      assert g.rows[0][0] != PAULI_X.rows[0][0];
    }
    DispatchPreservesExactly(1, g, [0], num);
  }
}
