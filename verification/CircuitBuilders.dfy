/** The circuit and its QFT and Grover generators. */
module CircuitBuilders {
  import opened Amplitudes
  import opened Bits
  import opened BasisLists
  import opened Circuits
  import opened Options

  // ---------------------------------------------------------------------- QFT

  /** The first `m` controlled phases of a QFT stage; `cis(d)` is (cos, sin) of pi / 2^d. */
  function QftPhases(target: nat, m: nat, cis: nat -> Amp): (ops: seq<Operation>)
    ensures |ops| == m
  {
    if m == 0 then [] else QftPhases(target, m - 1, cis) + [OpPhase(target + m, target, cis(m))]
  }

  function QftStage(n: nat, target: nat, cis: nat -> Amp): seq<Operation>
    requires target < n
  {
    [OpH(target)] + QftPhases(target, n - 1 - target, cis)
  }

  function QftStages(n: nat, k: nat, cis: nat -> Amp): seq<Operation>
    requires k <= n
  {
    if k == 0 then [] else QftStages(n, k - 1, cis) + QftStage(n, k - 1, cis)
  }

  /** The first `k` bit-reversal swaps. */
  function QftSwaps(n: nat, k: nat): (ops: seq<Operation>)
    requires k <= n
    ensures |ops| == k
  {
    if k == 0 then [] else QftSwaps(n, k - 1) + [OpSwap(k - 1, n - k)]
  }

  function QftOps(n: nat, cis: nat -> Amp): seq<Operation> {
    QftStages(n, n, cis) + QftSwaps(n, n / 2)
  }

  // ------------------------------------------------------------------- Grover

  function HadamardLayer(k: nat): (ops: seq<Operation>)
    ensures |ops| == k
  {
    if k == 0 then [] else HadamardLayer(k - 1) + [OpH(k - 1)]
  }

  function OracleOps(marked: seq<nat>): (ops: seq<Operation>)
    ensures |ops| == |marked|
  {
    if marked == [] then [] else OracleOps(marked[..|marked| - 1]) + [OpFlip(marked[|marked| - 1])]
  }

  /** The position of the first listed state that is out of range; the length of the list if there is none. */
  function FirstBad(marked: seq<nat>, stateCount: nat): (k: nat)
    ensures k <= |marked| && forall i | 0 <= i < k :: marked[i] < stateCount
    ensures k < |marked| ==> marked[k] >= stateCount
  {
    if marked == [] || marked[0] >= stateCount then 0 else 1 + FirstBad(marked[1..], stateCount)
  }

  /** One Grover round: the oracle flips, then the diffusion. */
  function GroverRound(marked: seq<nat>, materialized: bool): seq<Operation> {
    OracleOps(marked) + [OpInvert(materialized)]
  }

  function GroverRounds(marked: seq<nat>, materialized: bool, rounds: nat): seq<Operation> {
    if rounds == 0 then [] else GroverRounds(marked, materialized, rounds - 1) + GroverRound(marked, materialized)
  }

  function GroverOps(n: nat, marked: seq<nat>, materialized: bool, rounds: nat): seq<Operation> {
    HadamardLayer(n) + GroverRounds(SortUnique(marked), materialized, rounds)
  }

  /** How many diffusions a list of operations holds. */
  function Diffusions(ops: seq<Operation>): nat {
    if ops == [] then 0 else Diffusions(ops[..|ops| - 1]) + if ops[|ops| - 1].OpInvert? then 1 else 0
  }

  lemma {:induction false} DiffusionsConcat(a: seq<Operation>, b: seq<Operation>)
    ensures Diffusions(a + b) == Diffusions(a) + Diffusions(b)
  {
    if b == [] {
      assert a + b == a;
    } else {
      DiffusionsConcat(a, b[..|b| - 1]);
      assert (a + b)[..|a + b| - 1] == a + b[..|b| - 1];
    }
  }

  lemma {:induction false} NoDiffusion(ops: seq<Operation>)
    requires forall i | 0 <= i < |ops| :: !ops[i].OpInvert?
    ensures Diffusions(ops) == 0
  {
    if ops != [] {
      NoDiffusion(ops[..|ops| - 1]);
    }
  }

  lemma {:induction false} LayerIsHadamards(k: nat)
    ensures forall i | 0 <= i < k :: HadamardLayer(k)[i] == OpH(i)
  {
    if k > 0 {
      LayerIsHadamards(k - 1);
    }
  }

  lemma {:induction false} OracleIsFlips(marked: seq<nat>)
    ensures forall i | 0 <= i < |marked| :: OracleOps(marked)[i] == OpFlip(marked[i])
  {
    if marked != [] {
      OracleIsFlips(marked[..|marked| - 1]);
    }
  }

  lemma {:induction false} RoundsDiffuse(marked: seq<nat>, materialized: bool, rounds: nat)
    ensures Diffusions(GroverRounds(marked, materialized, rounds)) == rounds
  {
    hide OracleOps;
    if rounds > 0 {
      RoundsDiffuse(marked, materialized, rounds - 1);
      OracleIsFlips(marked);
      NoDiffusion(OracleOps(marked));
      DiffusionsConcat(OracleOps(marked), [OpInvert(materialized)]);
      DiffusionsConcat(GroverRounds(marked, materialized, rounds - 1), GroverRound(marked, materialized));
    }
  }

  lemma {:induction false} RoundsKeepFlag(marked: seq<nat>, materialized: bool, rounds: nat)
    ensures forall op | op in GroverRounds(marked, materialized, rounds) && op.OpInvert? ::
              op.materialized == materialized
  {
    hide OracleOps;
    if rounds > 0 {
      RoundsKeepFlag(marked, materialized, rounds - 1);
      OracleIsFlips(marked);
      assert forall op | op in OracleOps(marked) :: op.OpFlip?;
    }
  }

  /** All its diffusions are carried out as asked. */
  lemma GroverKeepsFlag(n: nat, marked: seq<nat>, materialized: bool, rounds: nat)
    ensures forall op | op in GroverOps(n, marked, materialized, rounds) && op.OpInvert? ::
              op.materialized == materialized
  {
    hide HadamardLayer, GroverRounds, SortUnique;
    LayerIsHadamards(n);
    RoundsKeepFlag(SortUnique(marked), materialized, rounds);
    assert forall op | op in HadamardLayer(n) :: op.OpH?;
  }

  /** The circuit holds one diffusion per round. */
  lemma GroverDiffuses(n: nat, marked: seq<nat>, materialized: bool, rounds: nat)
    ensures Diffusions(GroverOps(n, marked, materialized, rounds)) == rounds
  {
    hide HadamardLayer, GroverRounds, SortUnique, Diffusions;
    LayerIsHadamards(n);
    NoDiffusion(HadamardLayer(n));
    RoundsDiffuse(SortUnique(marked), materialized, rounds);
    DiffusionsConcat(HadamardLayer(n), GroverRounds(SortUnique(marked), materialized, rounds));
  }

  /**
   * `groverIterationCount`: floor(pi / 4 * sqrt(N / m)) for m marked of N states; no marked state is an error.
   * The source rounds a non-negative number.
   */
  function GroverIterationCount(stateCount: nat, markedCount: nat, pi: real, sqrt: real -> real): (rounds: Option<nat>)
    ensures rounds.None? <==> markedCount == 0
  {
    if markedCount == 0 then None
    else
      var ideal := IdealIterations(stateCount, markedCount, pi, sqrt);
      Some(if ideal < 0.0 then 0 else ideal.Floor)
  }

  function IdealIterations(stateCount: nat, markedCount: nat, pi: real, sqrt: real -> real): real
    requires markedCount > 0
  {
    (pi / 4.0) * sqrt((stateCount as real) / (markedCount as real))
  }

  /** The library root of `x` is exact. */
  ghost predicate IsRoot(sqrt: real -> real, x: real) {
    sqrt(x) >= 0.0 && Sq(sqrt(x)) == x
  }

  /** It is the largest k with 4k <= pi * sqrt(N / m), stated without the root. */
  lemma GroverIterationsAre(stateCount: nat, m: nat, pi: real, sqrt: real -> real)
    requires m > 0 && pi >= 0.0
    requires IsRoot(sqrt, (stateCount as real) / (m as real))
    ensures IsRoundCount(GroverIterationCount(stateCount, m, pi, sqrt).value, stateCount, m, pi)
  {
    hide Sq;
    var x := (stateCount as real) / (m as real);
    var r := sqrt(x);
    var ideal := IdealIterations(stateCount, m, pi, sqrt);
    assert ideal == (pi / 4.0) * r;
    ProductSign(pi / 4.0, r);
    FloorBounds(ideal.Floor as real, ideal, pi, r, x, m as real, stateCount as real);
  }

  /** The whole part of a number, zero for a negative one. */
  ghost predicate WholePart(k: nat, x: real) {
    if x < 1.0 then k == 0 else k as real <= x < k as real + 1.0
  }

  /** `k` rounds are at most pi / 4 * sqrt(N / m), and one more is too many, squared. */
  ghost predicate IsRoundCount(k: nat, stateCount: nat, m: nat, pi: real) {
    && 16.0 * (Sq(k as real) * (m as real)) <= Sq(pi) * (stateCount as real)
    && Sq(pi) * (stateCount as real) < 16.0 * (Sq(k as real + 1.0) * (m as real))
  }

  /**
   * `k` is the whole part of pi / 4 * sqrt(N / m), and for an exact root the number of rounds stated without it: the
   * rounds of a search for m of N states.
   */
  ghost predicate RoundsFit(k: nat, stateCount: nat, m: nat, pi: real, sqrt: real -> real) {
    && m > 0
    && WholePart(k, (pi / 4.0) * sqrt((stateCount as real) / (m as real)))
    && (pi >= 0.0 && IsRoot(sqrt, (stateCount as real) / (m as real)) ==> IsRoundCount(k, stateCount, m, pi))
  }

  lemma RoundsFitMeans(k: nat, stateCount: nat, m: nat, pi: real, sqrt: real -> real)
    requires RoundsFit(k, stateCount, m, pi, sqrt)
    ensures m > 0
    ensures var ideal := (pi / 4.0) * sqrt((stateCount as real) / (m as real));
            if ideal < 1.0 then k == 0 else k as real <= ideal < k as real + 1.0
    ensures pi >= 0.0 && IsRoot(sqrt, (stateCount as real) / (m as real)) ==>
              && 16.0 * (Sq(k as real) * (m as real)) <= Sq(pi) * (stateCount as real)
              && Sq(pi) * (stateCount as real) < 16.0 * (Sq(k as real + 1.0) * (m as real))
  {
    hide Sq;
  }

  /** The computed count is that number. */
  lemma CountFits(stateCount: nat, m: nat, pi: real, sqrt: real -> real)
    requires m > 0
    ensures RoundsFit(GroverIterationCount(stateCount, m, pi, sqrt).value, stateCount, m, pi, sqrt)
  {
    hide IsRoundCount, IsRoot;
    if pi >= 0.0 && IsRoot(sqrt, (stateCount as real) / (m as real)) {
      GroverIterationsAre(stateCount, m, pi, sqrt);
    }
  }

  /** Only one number is. */
  lemma RoundCountUnique(k: nat, l: nat, stateCount: nat, m: nat, pi: real)
    requires m > 0 && IsRoundCount(k, stateCount, m, pi) && IsRoundCount(l, stateCount, m, pi)
    ensures k == l
  {
    hide Sq;
    if k < l {
      SquaresGrow(k as real + 1.0, l as real, m as real);
    } else if l < k {
      SquaresGrow(l as real + 1.0, k as real, m as real);
    }
  }

  lemma SquaresGrow(x: real, y: real, m: real)
    requires 0.0 <= x <= y && m >= 0.0
    ensures Sq(x) * m <= Sq(y) * m
  {
    ProductSign(y - x, y + x);
    assert (y - x) * (y + x) == y * y - x * x;
    ProductSign(Sq(y) - Sq(x), m);
    assert (Sq(y) - Sq(x)) * m == Sq(y) * m - Sq(x) * m;
  }

  lemma FloorBounds(k: real, ideal: real, pi: real, r: real, x: real, m: real, size: real)
    requires ideal == (pi / 4.0) * r && 0.0 <= k <= ideal < k + 1.0 && Sq(r) == x && m > 0.0 && x == size / m
    ensures 16.0 * (Sq(k) * m) <= Sq(pi) * size < 16.0 * (Sq(k + 1.0) * m)
  {
    IdealSquare(pi, r);
    SquaresBetween(k, ideal);
    hide Sq;
    assert x * m == size;
    ScaleBounds(Sq(k), Sq(ideal), Sq(k + 1.0), m);
    Regroup(Sq(ideal), Sq(pi), x, m);
  }

  lemma Regroup(a: real, p: real, x: real, m: real)
    requires 16.0 * a == p * x
    ensures 16.0 * (a * m) == p * (x * m)
  {
    assert 16.0 * (a * m) == (16.0 * a) * m == (p * x) * m;
  }

  lemma IdealSquare(pi: real, r: real)
    ensures 16.0 * Sq((pi / 4.0) * r) == Sq(pi) * Sq(r)
  {
    var q := pi / 4.0;
    assert (q * r) * (q * r) == (q * q) * (r * r);
    assert 16.0 * (q * q) == pi * pi;
  }

  lemma SquaresBetween(k: real, x: real)
    requires 0.0 <= k <= x < k + 1.0
    ensures Sq(k) <= Sq(x) < Sq(k + 1.0)
  {
    ProductSign(x - k, x + k);
    assert (x - k) * (x + k) == x * x - k * k;
    var d, e := k + 1.0 - x, k + 1.0 + x;
    assert d * e == (k + 1.0) * (k + 1.0) - x * x;
    assert d * e > 0.0;
  }

  lemma ScaleBounds(a: real, b: real, c: real, m: real)
    requires a <= b < c && m > 0.0
    ensures a * m <= b * m < c * m
  {
  }

  // ------------------------------------------------------------------ circuit

  class Circuit {
    const qubits: nat
    var operations: seq<Operation>

    constructor (qubits: nat)
      ensures this.qubits == qubits && operations == []
    {
      this.qubits, operations := qubits, [];
    }

    method Append(op: Operation)
      modifies this
      ensures operations == old(operations) + [op]
    {
      operations := operations + [op];
    }

    /** `appendQft`. */
    method AppendQft(cis: nat -> Amp)
      modifies this
      ensures operations == old(operations) + QftOps(qubits, cis)
    {
      hide QftStages, QftSwaps;
      AppendStages(cis);
      AppendSwaps();
    }

    method AppendStages(cis: nat -> Amp)
      modifies this
      ensures operations == old(operations) + QftStages(qubits, qubits, cis)
    {
      hide QftStage;
      var target: nat := 0;
      while target < qubits
        invariant target <= qubits && operations == old(operations) + QftStages(qubits, target, cis)
      {
        AppendStage(target, cis);
        target := target + 1;
      }
    }

    /** The swaps that undo the bit reversal. */
    method AppendSwaps()
      modifies this
      ensures operations == old(operations) + QftSwaps(qubits, qubits / 2)
    {
      var left: nat := 0;
      while left < qubits / 2
        invariant left <= qubits / 2 && operations == old(operations) + QftSwaps(qubits, left)
      {
        Append(OpSwap(left, qubits - left - 1));
        left := left + 1;
      }
    }

    /** One Hadamard and its controlled phases. */
    method AppendStage(target: nat, cis: nat -> Amp)
      requires target < qubits
      modifies this
      ensures operations == old(operations) + QftStage(qubits, target, cis)
    {
      ghost var done := operations;
      Append(OpH(target));
      var control: nat := target + 1;
      while control < qubits
        invariant target + 1 <= control <= qubits
        invariant operations == done + ([OpH(target)] + QftPhases(target, control - target - 1, cis))
      {
        var distance: nat := control - target;
        Append(OpPhase(control, target, cis(distance)));
        control := control + 1;
      }
    }

    /**
     * `appendGrover`. An empty list is an error before anything is appended, and more than 31 qubits one that comes
     * after the layer. An out-of-range marked state is an error that only a first iteration can notice; the layer and
     * the flips of the smaller states stay appended.
     */
    method AppendGrover(markedStates: seq<nat>, materialized: bool, pi: real, sqrt: real -> real)
      returns (ok: bool, ghost rounds: nat)
      modifies this
      ensures ok <==> && markedStates != [] && qubits <= 31
                      && (rounds == 0 || forall i | 0 <= i < |markedStates| :: markedStates[i] < Pow2(qubits))
      ensures ok ==> operations == old(operations) + GroverOps(qubits, markedStates, materialized, rounds)
      ensures ok ==> Diffusions(GroverOps(qubits, markedStates, materialized, rounds)) == rounds
      ensures markedStates != [] && qubits <= 31 ==>
                RoundsFit(rounds, Pow2(qubits), |SortUnique(markedStates)|, pi, sqrt)
      ensures markedStates == [] ==> operations == old(operations)
      ensures markedStates != [] && qubits > 31 ==> operations == old(operations) + HadamardLayer(qubits)
      ensures !ok && markedStates != [] && qubits <= 31 ==>
                var marked := SortUnique(markedStates);
                var k := FirstBad(marked, Pow2(qubits));
                operations == old(operations) + HadamardLayer(qubits) + OracleOps(marked[..k])
    {
      hide SortUnique, HadamardLayer, GroverRounds, GroverIterationCount, Diffusions;
      hide RoundsFit, WholePart, IsRoundCount, IsRoot, FirstBad, OracleOps;
      if markedStates == [] { return false, 0; }
      var marked := SortUnique(markedStates);
      assert forall i | 0 <= i < |marked| :: marked[i] in markedStates;
      assert forall i | 0 <= i < |markedStates| :: markedStates[i] in marked;
      AppendLayer();
      if qubits > 31 { return false, 0; }
      var iterations := GroverIterationCount(Pow2(qubits), |marked|, pi, sqrt);
      ok := AppendRounds(marked, Pow2(qubits), materialized, iterations.value);
      rounds := iterations.value;
      CountFits(Pow2(qubits), |marked|, pi, sqrt);
      GroverDiffuses(qubits, markedStates, materialized, rounds);
    }

    method AppendRounds(marked: seq<nat>, stateCount: nat, materialized: bool, iterations: nat) returns (ok: bool)
      modifies this
      ensures ok <==> iterations == 0 || forall i | 0 <= i < |marked| :: marked[i] < stateCount
      ensures ok ==> operations == old(operations) + GroverRounds(marked, materialized, iterations)
      ensures !ok ==> operations == old(operations) + OracleOps(marked[..FirstBad(marked, stateCount)])
    {
      hide GroverRound;
      var iteration: nat := 0;
      while iteration < iterations
        invariant iteration <= iterations
        invariant operations == old(operations) + GroverRounds(marked, materialized, iteration)
        invariant iteration > 0 ==> forall i | 0 <= i < |marked| :: marked[i] < stateCount
      {
        ok := AppendRound(marked, stateCount, materialized);
        if !ok { return; }
        iteration := iteration + 1;
      }
      ok := true;
    }

    method AppendRound(marked: seq<nat>, stateCount: nat, materialized: bool) returns (ok: bool)
      modifies this
      ensures ok <==> forall i | 0 <= i < |marked| :: marked[i] < stateCount
      ensures ok ==> operations == old(operations) + GroverRound(marked, materialized)
      ensures !ok ==> operations == old(operations) + OracleOps(marked[..FirstBad(marked, stateCount)])
    {
      hide OracleOps;
      ok := AppendOracle(marked, stateCount);
      if ok {
        Append(OpInvert(materialized));
      }
    }

    /** A Hadamard on every qubit. */
    method AppendLayer()
      modifies this
      ensures operations == old(operations) + HadamardLayer(qubits)
    {
      var q: nat := 0;
      while q < qubits
        invariant q <= qubits && operations == old(operations) + HadamardLayer(q)
      {
        Append(OpH(q));
        q := q + 1;
      }
    }

    /** One pass over the marked states. */
    method AppendOracle(marked: seq<nat>, stateCount: nat) returns (ok: bool)
      modifies this
      ensures ok <==> forall i | 0 <= i < |marked| :: marked[i] < stateCount
      ensures operations == old(operations) + OracleOps(marked[..FirstBad(marked, stateCount)])
      ensures ok ==> operations == old(operations) + OracleOps(marked)
    {
      var i: nat := 0;
      while i < |marked|
        invariant i <= |marked| && operations == old(operations) + OracleOps(marked[..i])
        invariant forall j | 0 <= j < i :: marked[j] < stateCount
      {
        if marked[i] >= stateCount {
          assert i == FirstBad(marked, stateCount);
          return false;
        }
        Append(OpFlip(marked[i]));
        assert marked[..i + 1][..i] == marked[..i];
        i := i + 1;
      }
      assert marked[..i] == marked && i == FirstBad(marked, stateCount);
      ok := true;
    }
  }
}
