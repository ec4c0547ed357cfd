/** How far a tolerance-dispatched kernel can be from the matrix it replaces. */
module Tolerance {
  import opened Amplitudes
  import opened PairKernels
  import opened Gates
  import opened GateBlocks
  import opened StateOps
  import opened GateMatch

  /** Sum of the absolute component values of an amplitude. */
  function Size(a: Amp): real { Absolute(a.re) + Absolute(a.im) }

  /** Sum of the absolute component values of a block. */
  function AbsSum(xs: Vec): real {
    if xs == [] then 0.0 else AbsSum(xs[..|xs| - 1]) + Size(xs[|xs| - 1])
  }

  /** Both components differ by at most `eps`. */
  ghost predicate Within(a: Amp, b: Amp, eps: real) {
    -eps <= a.re - b.re <= eps && -eps <= a.im - b.im <= eps
  }

  // ------------------------------------------------------- error of a product

  /** Real multiplication, named so that proofs can treat products as atoms. */
  function Times(a: real, b: real): real { a * b }

  lemma TimesAdd(a: real, b: real, c: real)
    ensures Times(a, b + c) == Times(a, b) + Times(a, c)
  {
  }

  lemma TimesAbs(d: real, x: real, eps: real)
    requires Absolute(d) <= eps
    ensures Absolute(Times(d, x)) <= Times(eps, Absolute(x))
  {
    if x >= 0.0 {
      assert -eps * x <= d * x <= eps * x;
    } else {
      assert eps * x <= d * x <= -eps * x;
    }
  }

  lemma MulSub(a: Amp, b: Amp, x: Amp)
    ensures Mul(a, x).re - Mul(b, x).re == Times(a.re - b.re, x.re) - Times(a.im - b.im, x.im)
    ensures Mul(a, x).im - Mul(b, x).im == Times(a.re - b.re, x.im) + Times(a.im - b.im, x.re)
  {
  }

  lemma EntryError(a: Amp, b: Amp, x: Amp, eps: real)
    requires Within(a, b, eps)
    ensures Within(Mul(a, x), Mul(b, x), Times(eps, Size(x)))
  {
    hide Mul, Times;
    MulSub(a, b, x);
    TimesAbs(a.re - b.re, x.re, eps);
    TimesAbs(a.im - b.im, x.im, eps);
    TimesAbs(a.re - b.re, x.im, eps);
    TimesAbs(a.im - b.im, x.re, eps);
    TimesAdd(eps, Absolute(x.re), Absolute(x.im));
  }

  /** Rows within `eps` give outputs within `eps` times the absolute sum of the block. */
  lemma {:induction false} RowError(row: Vec, row': Vec, xs: Vec, eps: real)
    requires |row| == |row'| == |xs| && forall i | 0 <= i < |row| :: Within(row[i], row'[i], eps)
    ensures Within(Dot(row, xs), Dot(row', xs), Times(eps, AbsSum(xs)))
  {
    if xs == [] {
      assert row == [] && row' == [];
    } else {
      hide Mul, Size, Times;
      var l := |row| - 1;
      RowError(row[..l], row'[..l], xs[..l], eps);
      EntryError(row[l], row'[l], xs[l], eps);
      TimesAdd(eps, AbsSum(xs[..l]), Size(xs[l]));
    }
  }

  ghost predicate GatesWithin(g: QuantumGate, m: QuantumGate, eps: real) {
    && g.Square() && m.Square() && |g.rows| == |m.rows|
    && forall r, c | 0 <= r < |g.rows| && 0 <= c < |g.rows| :: Within(g.rows[r][c], m.rows[r][c], eps)
  }

  /** Matrices within `eps` entry by entry act within `eps` times the absolute sum of each block. */
  lemma ActionError(v: Vec, n: nat, g: QuantumGate, m: QuantumGate, qubits: seq<nat>, eps: real, s: nat)
    requires IsRegister(v, n) && GateFits(g, qubits, n) && GateFits(m, qubits, n) && GatesWithin(g, m, eps) && s < |v|
    ensures Within(ApplyGate(v, n, g, qubits)[s], ApplyGate(v, n, m, qubits)[s],
                   Times(eps, AbsSum(Gather(v, n, TargetBits(qubits, n), s))))
  {
    hide Dot, AbsSum, Times;
    var t := TargetBits(qubits, n);
    LocalRange(s, t);
    var r := LocalIndex(s, t);
    RowError(g.rows[r], m.rows[r], Gather(v, n, t, s), eps);
  }

  // --------------------------------------------------- error of normalisation

  /** Normalising an amplitude of nearly unit magnitude moves each component by at most the magnitude error. */
  lemma NormalizeError(p: Amp, q: Amp, eps: real)
    requires Normalizes(p, q) && Absolute(NormSq(p) - 1.0) <= eps
    ensures Within(p, q, eps)
  {
    hide ScalesTo, NormSq, Absolute;
    var r: real :| ScalesTo(p, q, r);
    ScaledReal(p, q, r, eps);
    ScaledImaginary(p, q, r, eps);
  }

  lemma ScaledReal(p: Amp, q: Amp, r: real, eps: real)
    requires ScalesTo(p, q, r) && Absolute(NormSq(p) - 1.0) <= eps
    ensures -eps <= p.re - q.re <= eps
  {
    hide NormSq, Absolute;
    ComponentSquares(p);
    ScaledComponent(p.re, r, NormSq(p), eps, q.re);
  }

  lemma ScaledImaginary(p: Amp, q: Amp, r: real, eps: real)
    requires ScalesTo(p, q, r) && Absolute(NormSq(p) - 1.0) <= eps
    ensures -eps <= p.im - q.im <= eps
  {
    hide NormSq, Absolute;
    ComponentSquares(p);
    ScaledComponent(p.im, r, NormSq(p), eps, q.im);
  }

  lemma ComponentSquares(p: Amp)
    ensures p.re * p.re <= NormSq(p) && p.im * p.im <= NormSq(p)
  {
    assert p.re * p.re >= 0.0 && p.im * p.im >= 0.0;
  }

  /** With u = 1/r the true magnitude: |x| <= u, so |x - x*r| = |u - 1| * (r*|x|) <= |u - 1|. */
  lemma ScaledComponent(x: real, r: real, nrm: real, eps: real, y: real)
    requires r > 0.0 && r * r * nrm == 1.0 && x * x <= nrm && Absolute(nrm - 1.0) <= eps && y == x * r
    ensures -eps <= x - y <= eps
  {
    AbsoluteMeans(x - y);
    var u := 1.0 / r;
    SquareOfInverse(r, u, nrm);
    RootIsCloser(u, eps);
    ShrunkComponent(x, r, u, eps);
  }

  lemma ShrunkComponent(x: real, r: real, u: real, eps: real)
    requires r > 0.0 && u > 0.0 && r * u == 1.0 && x * x <= u * u && Absolute(u - 1.0) <= eps
    ensures Absolute(x - x * r) <= eps
  {
    AbsoluteMeans(x);
    AbsSquare(x);
    SquareBound(Absolute(x), u);
    InverseBound(Absolute(x), r, u);
    AbsTimes(x, r, u);
    ShrinkProduct(u - 1.0, r * Absolute(x), eps);
  }

  lemma AbsSquare(x: real)
    ensures Absolute(x) * Absolute(x) == x * x
  {
  }

  lemma ShrinkProduct(e: real, w: real, eps: real)
    requires Absolute(e) <= eps && 0.0 <= w <= 1.0
    ensures Absolute(e * w) <= eps
  {
    TimesAbs(e, w, eps);
    assert eps * w <= eps * 1.0;
  }

  lemma SquareOfInverse(r: real, u: real, nrm: real)
    requires r > 0.0 && u == 1.0 / r && r * r * nrm == 1.0
    ensures u > 0.0 && r * u == 1.0 && u * u == nrm
  {
    assert r * u == 1.0;
    assert u * u * (r * r * nrm) == (r * u) * (r * u) * nrm;
  }

  lemma SquareBound(a: real, u: real)
    requires a >= 0.0 && u > 0.0 && a * a <= u * u
    ensures a <= u
  {
    assert a * a - u * u == (a - u) * (a + u);
  }

  lemma InverseBound(a: real, r: real, u: real)
    requires 0.0 <= a <= u && r > 0.0 && r * u == 1.0
    ensures 0.0 <= r * a <= 1.0
  {
    assert r * (u - a) == r * u - r * a;
    ProductSign(r, u - a);
    ProductSign(r, a);
  }

  lemma AbsTimes(x: real, r: real, u: real)
    requires r > 0.0 && r * u == 1.0
    ensures Absolute(x - x * r) == Absolute((u - 1.0) * (r * Absolute(x)))
  {
    assert (u - 1.0) * (r * Absolute(x)) == (r * u) * Absolute(x) - r * Absolute(x);
  }

  lemma RootIsCloser(u: real, eps: real)
    requires u > 0.0 && Absolute(u * u - 1.0) <= eps
    ensures Absolute(u - 1.0) <= eps
  {
    assert u * u - 1.0 == (u - 1.0) * (u + 1.0);
    if u >= 1.0 {
      assert (u - 1.0) * (u + 1.0) >= u - 1.0;
    } else {
      assert (1.0 - u) * (u + 1.0) >= 1.0 - u;
    }
  }

  // --------------------------------------------------------- what is accepted

  /** A controlled phase up to 1e-12 on the fixed entries and 1e-10 on the squared magnitude of the phase. */
  ghost predicate NearPhase(g: QuantumGate)
    requires g.Square()
  {
    && |g.rows| == 4
    && GatesWithin(g, ControlledPhaseGate(g.rows[3][3]), 0.000000000001)
    && -0.0000000001 <= NormSq(g.rows[3][3]) - 1.0 <= 0.0000000001
  }

  lemma CloseToHadamard(g: QuantumGate, h: real)
    requires g.Square()
    ensures MatchesHadamard(g, h) <==> GatesWithin(g, HadamardGate(h), 0.000000000001)
  {
  }

  lemma CloseToPauliX(g: QuantumGate)
    requires g.Square()
    ensures MatchesPauliX(g) <==> GatesWithin(g, PAULI_X, 0.000000000001)
  {
  }

  lemma CloseToControlledNot(g: QuantumGate)
    requires g.Square()
    ensures MatchesControlledNot(g) <==> GatesWithin(g, CONTROLLED_NOT, 0.000000000001)
  {
  }

  lemma CloseToPhase(g: QuantumGate)
    requires g.Square()
    ensures MatchesControlledPhase(g) <==> NearPhase(g)
  {
  }

  /**
   * Which matrices take which route: a kernel runs exactly for the matrices whose entries are all within 1e-12 of its
   * gate, Hadamard before X and controlled-NOT before the controlled phase; every other matrix runs as it is.
   */
  lemma RouteMeans(g: QuantumGate, count: nat, num: Numerics)
    requires g.Square()
    ensures var route, eps := RouteOf(g, count, num), 0.000000000001;
            var hadamard := count == 1 && GatesWithin(g, HadamardGate(num.invSqrt(2)), eps);
            var pauliX := count == 1 && GatesWithin(g, PAULI_X, eps);
            var controlledNot := count == 2 && GatesWithin(g, CONTROLLED_NOT, eps);
            var phase := count == 2 && NearPhase(g);
            && (route == AsHadamard <==> hadamard)
            && (route == AsPauliX <==> !hadamard && pauliX)
            && (route == AsControlledNot <==> controlledNot)
            && (route.AsPhase? <==> !controlledNot && phase)
            && (route.AsPhase? ==> route.phase == num.cosSinOf(g.rows[3][3]))
            && (route == AsMatrix <==> !hadamard && !pauliX && !controlledNot && !phase)
    ensures match RouteOf(g, count, num)
            case AsHadamard => RouteMatrix(g, count, num) == HadamardGate(num.invSqrt(2))
            case AsPauliX => RouteMatrix(g, count, num) == PAULI_X
            case AsControlledNot => RouteMatrix(g, count, num) == CONTROLLED_NOT
            case AsPhase(_) => RouteMatrix(g, count, num) == ControlledPhaseGate(num.cosSinOf(g.rows[3][3]))
            case AsMatrix => RouteMatrix(g, count, num) == g
  {
    hide MatchesHadamard, MatchesPauliX, MatchesControlledNot, MatchesControlledPhase, GatesWithin;
    CloseToHadamard(g, num.invSqrt(2));
    CloseToPauliX(g);
    CloseToControlledNot(g);
    CloseToPhase(g);
  }

  /** A matrix with an entry more than 1e-12 from both one-qubit kernels runs as it is. */
  lemma FarFromBoth(g: QuantumGate, num: Numerics, r: nat, c: nat, r': nat, c': nat)
    requires g.Square() && |g.rows| == 2 && r < 2 && c < 2 && r' < 2 && c' < 2
    requires !Within(g.rows[r][c], HadamardGate(num.invSqrt(2)).rows[r][c], 0.000000000001)
    requires !Within(g.rows[r'][c'], PAULI_X.rows[r'][c'], 0.000000000001)
    ensures RouteOf(g, 1, num) == AsMatrix
  {
    RouteMeans(g, 1, num);
  }

  lemma Loosen(g: QuantumGate, m: QuantumGate, eps: real, wider: real)
    requires GatesWithin(g, m, eps) && eps <= wider
    ensures GatesWithin(g, m, wider)
  {
  }

  /** Normalising the phase keeps the matrix within 1e-10. */
  lemma PhaseStaysClose(g: QuantumGate, num: Numerics)
    requires g.Square() && NearPhase(g) && num.Exact()
    ensures GatesWithin(g, ControlledPhaseGate(num.cosSinOf(g.rows[3][3])), 0.0000000001)
  {
    var p := g.rows[3][3];
    assert Normalizes(p, num.cosSinOf(p));
    NormalizeError(p, num.cosSinOf(p), 0.0000000001);
  }

  /** The entries of a matrix are within 1e-12 of those the route implements, and within 1e-10 for a phase. */
  lemma AcceptedIsClose(g: QuantumGate, count: nat, num: Numerics)
    requires g.Square() && num.Exact()
    ensures !RouteOf(g, count, num).AsPhase? ==> GatesWithin(g, RouteMatrix(g, count, num), 0.000000000001)
    ensures GatesWithin(g, RouteMatrix(g, count, num), 0.0000000001)
  {
    hide RouteOf, NearPhase, HadamardGate, Within, Normalizes;
    RouteMeans(g, count, num);
    if RouteOf(g, count, num).AsPhase? {
      PhaseStaysClose(g, num);
    } else {
      ItselfIsClose(g);
      Loosen(g, RouteMatrix(g, count, num), 0.000000000001, 0.0000000001);
    }
  }

  lemma ItselfIsClose(g: QuantumGate)
    requires g.Square()
    ensures GatesWithin(g, g, 0.000000000001)
  {
  }

  /**
   * A dispatched kernel's output differs from the true matrix product, in each component, by at most 1e-12 times the
   * sum of absolute component values of the block, 1e-10 times for a controlled phase.
   */
  lemma DispatchError(v: Vec, n: nat, g: QuantumGate, qubits: seq<nat>, num: Numerics, s: nat)
    requires IsRegister(v, n) && GateFits(g, qubits, n) && num.Exact() && s < |v|
    ensures var eps := if RouteOf(g, |qubits|, num).AsPhase? then 0.0000000001 else 0.000000000001;
            Within(ApplyGate(v, n, g, qubits)[s], DispatchedGate(v, n, g, qubits, num)[s],
                   Times(eps, AbsSum(Gather(v, n, TargetBits(qubits, n), s))))
  {
    hide DispatchedGate, RouteMatrix, RouteOf, Gather, ApplyGate, Times, AbsSum;
    var eps := if RouteOf(g, |qubits|, num).AsPhase? then 0.0000000001 else 0.000000000001;
    AcceptedIsClose(g, |qubits|, num);
    DispatchIsRouteMatrix(v, n, g, qubits, num);
    ActionError(v, n, g, RouteMatrix(g, |qubits|, num), qubits, eps, s);
  }
}
