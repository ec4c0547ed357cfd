/** What each backend call means on either store, as laws over states, matrices and readings. */
module CallLaws {
  import opened Amplitudes
  import opened Bits
  import opened PairKernels
  import opened Gates
  import opened GateBlocks
  import opened StateOps
  import opened KernelMatrices
  import opened GateMatch
  import opened GateLaws
  import opened BasisLists
  import opened BackendRuns

  // -------------------------------------------------------------------- gates

  lemma HadamardCall(q: nat, v: Vec, n: nat, num: Numerics, storage: Storage)
    requires IsRegister(v, n) && q < n
    ensures GateFits(HadamardGate(num.invSqrt(2)), [q], n)
    ensures Effect(ApplyH(q), v, n, num, storage) == ApplyGate(v, n, HadamardGate(num.invSqrt(2)), [q])
  {
    hide Hadamard, ApplyGate, GateFits;
    HadamardIsMatrix(v, n, q, num.invSqrt(2));
  }

  lemma PauliXCall(q: nat, v: Vec, n: nat, num: Numerics, storage: Storage)
    requires IsRegister(v, n) && q < n
    ensures GateFits(PAULI_X, [q], n)
    ensures Effect(ApplyX(q), v, n, num, storage) == ApplyGate(v, n, PAULI_X, [q])
  {
    hide PauliX, ApplyGate, GateFits;
    PauliXIsMatrix(v, n, q);
  }

  lemma ControlledNotCall(c: nat, t: nat, v: Vec, n: nat, num: Numerics, storage: Storage)
    requires IsRegister(v, n) && c < n && t < n && c != t
    ensures GateFits(CONTROLLED_NOT, [c, t], n)
    ensures Effect(ApplyCNot(c, t), v, n, num, storage) == ApplyGate(v, n, CONTROLLED_NOT, [c, t])
  {
    hide ControlledNot, ApplyGate, GateFits;
    ControlledNotIsMatrix(v, n, c, t);
  }

  lemma ControlledPhaseCall(c: nat, t: nat, phase: Amp, v: Vec, n: nat, num: Numerics, storage: Storage)
    requires IsRegister(v, n) && c < n && t < n && c != t
    ensures GateFits(ControlledPhaseGate(phase), [c, t], n)
    ensures Effect(ApplyPhase(c, t, phase), v, n, num, storage) == ApplyGate(v, n, ControlledPhaseGate(phase), [c, t])
  {
    hide ControlledPhase, ApplyGate, GateFits;
    ControlledPhaseIsMatrix(v, n, c, t, phase);
  }

  /** A matrix acts on its targets in the order listed: as given on the dense store, as its route's on the chunked. */
  lemma MatrixCall(g: QuantumGate, qubits: seq<nat>, v: Vec, n: nat, num: Numerics)
    requires IsRegister(v, n) && GateFits(g, qubits, n)
    ensures GateFits(RouteMatrix(g, |qubits|, num), qubits, n)
    ensures Effect(ApplyMatrixGate(g, qubits), v, n, num, Dense) == ApplyGate(v, n, g, qubits)
    ensures Effect(ApplyMatrixGate(g, qubits), v, n, num, Chunked) ==
            ApplyGate(v, n, RouteMatrix(g, |qubits|, num), qubits)
  {
    hide DispatchedGate, ApplyGate, RouteMatrix;
    DispatchIsRouteMatrix(v, n, g, qubits, num);
  }

  // --------------------------------------------------- amplitude by amplitude

  /** A scale and a bias, any two complex numbers, reach every amplitude. */
  lemma AffineAfter(scale: Amp, bias: Amp, v: Vec, n: nat, num: Numerics, storage: Storage, u: nat)
    requires IsRegister(v, n) && u < |v|
    ensures Effect(AffineTransform(scale, bias), v, n, num, storage)[u] ==
            Amp(scale.re * v[u].re - scale.im * v[u].im + bias.re, scale.re * v[u].im + scale.im * v[u].re + bias.im)
  {
    hide Affine;
    AffineLaw(v, scale, bias, u);
  }

  /** The amplitude at `u` after any other call that is no gate. */
  lemma AmplitudeAfter(call: Call, v: Vec, n: nat, num: Numerics, storage: Storage, u: nat)
    requires IsRegister(v, n) && WellFormed(call, n) && u < |v|
    ensures var a := Effect(call, v, n, num, storage)[u];
            match call
            case SetAmplitude(s, x) => a == if s == u then x else v[u]
            case PhaseFlipState(s) => a == if s == u then Amp(-v[u].re, -v[u].im) else v[u]
            case InvertAbout(mean) => a == Amp(2.0 * mean.re - v[u].re, 2.0 * mean.im - v[u].im)
            case InitialZero => a == Amp(0.0, 0.0)
            case InitialBasis(s, x) => a == if s == u then x else Amp(0.0, 0.0)
            case InitialUniform(states) =>
              a == if u in states then Amp(num.invSqrt(|set s | s in states|), 0.0) else Amp(0.0, 0.0)
            case Load(w) => a == w[u]
            case _ => !IsGate(call) && !call.AffineTransform? && !call.InvertAboutMean? ==> a == v[u]
  {
    hide Hadamard, PauliX, ControlledNot, ControlledPhase, DispatchedGate, ApplyGate, Mean, SortUnique;
    hide PhaseFlip, InvertWith, Affine;
    match call
    case PhaseFlipState(s) => if s < |v| { FlipLaw(v, s, u); }
    case InvertAbout(mean) => ReflectionLaw(v, mean, u);
    case InitialUniform(states) => SortUniqueCount(states);
    case _ =>
  }

  /** A reflection about the mean uses the amplitude that, times the number of states, is the sum of all. */
  lemma MeanReflection(v: Vec, n: nat, num: Numerics, storage: Storage, mean: Amp, u: nat)
    requires IsRegister(v, n) && u < |v|
    requires Amp(mean.re * (|v| as real), mean.im * (|v| as real)) == Sum(v)
    ensures Effect(InvertAboutMean, v, n, num, storage)[u] ==
            Amp(2.0 * mean.re - v[u].re, 2.0 * mean.im - v[u].im)
  {
    hide Mean, Sum, InvertWith;
    MeanReflectionLaw(v, mean, u);
  }

  // ----------------------------------------------------- results and readings

  /** Exactly these calls are rejected. */
  lemma RejectionMeans(call: Call, v: Vec, n: nat, depth: nat, storage: Storage)
    requires IsRegister(v, n) && WellFormed(call, n)
    ensures OutcomeOf(call, v, n, depth, storage) == Rejected <==>
            match call
            case SetAmplitude(s, _) => |v| <= s
            case PhaseFlipState(s) => |v| <= s
            case Read(s) => |v| <= s
            case InitialBasis(s, _) => |v| <= s
            case ApplyH(q) => n <= q
            case ApplyX(q) => n <= q
            case ApplyPhase(c, t, _) => n <= c || n <= t || c == t
            case ApplyCNot(c, t) => n <= c || n <= t || c == t
            case ApplyMatrixGate(g, qubits) => n < |qubits| || |g.rows| != Pow2(|qubits|) || !DistinctBelow(qubits, n)
            case EndBatch => storage == Chunked && depth == 0
            case _ => false
  {
  }

  /** A rejected call changes nothing, except that a rejected basis initialisation leaves the zero vector. */
  lemma RejectedKeeps(call: Call, v: Vec, n: nat, num: Numerics, depth: nat, storage: Storage)
    requires IsRegister(v, n) && WellFormed(call, n) && OutcomeOf(call, v, n, depth, storage) == Rejected
    ensures forall u: nat | u < |v| ::
              Effect(call, v, n, num, storage)[u] == if call.InitialBasis? then Amp(0.0, 0.0) else v[u]
  {
    hide Hadamard, PauliX, ControlledNot, ControlledPhase, DispatchedGate, ApplyGate;
  }

  /** Reading a state gives its amplitude, and an export holds at every state what reading it gives. */
  lemma ExportIsReads(v: Vec, n: nat, depth: nat, storage: Storage)
    requires IsRegister(v, n)
    ensures var o := OutcomeOf(Export, v, n, depth, storage);
            && o.Exported? && |o.v| == Pow2(n)
            && forall s: nat | s < |o.v| :: OutcomeOf(Read(s), v, n, depth, storage) == Value(o.v[s])
  {
  }

  function RealSum(xs: seq<real>): real {
    if xs == [] then 0.0 else RealSum(xs[..|xs| - 1]) + xs[|xs| - 1]
  }

  lemma {:induction false} ProbIsSum(v: Vec, ps: seq<real>)
    requires |ps| == |v| && forall s | 0 <= s < |v| :: ps[s] == v[s].re * v[s].re + v[s].im * v[s].im
    ensures Prob(v) == RealSum(ps)
  {
    if v != [] {
      ProbIsSum(v[..|v| - 1], ps[..|v| - 1]);
    }
  }

  /** The total probability is the sum of the squared magnitudes of what reading the states gives. */
  lemma TotalIsReads(v: Vec, n: nat, depth: nat, storage: Storage, seen: Vec, ps: seq<real>)
    requires IsRegister(v, n) && |seen| == |ps| == Pow2(n)
    requires forall s: nat | s < Pow2(n) :: OutcomeOf(Read(s), v, n, depth, storage) == Value(seen[s])
    requires forall s | 0 <= s < Pow2(n) :: ps[s] == seen[s].re * seen[s].re + seen[s].im * seen[s].im
    ensures OutcomeOf(Total, v, n, depth, storage) == Mass(RealSum(ps))
  {
    hide Pow2;
    forall s: nat | s < Pow2(n)
      ensures seen[s] == v[s]
    {
      assert OutcomeOf(Read(s), v, n, depth, storage) == Value(v[s]);
    }
    ProbIsSum(v, ps);
  }

  /** A sample in [0, 1) gives the first state whose running total reaches it, or an error if the total does not. */
  lemma SampleOutcome(v: Vec, n: nat, depth: nat, storage: Storage, rnd: real, s: nat)
    requires IsRegister(v, n)
    ensures var o := OutcomeOf(Sample(rnd), v, n, depth, storage);
            && (0.0 <= rnd < 1.0 ==>
                  (o == Measurement(Sampled(s)) <==>
                   s < |v| && rnd <= Prob(v[..s + 1]) && forall j | 0 < j <= s :: Prob(v[..j]) < rnd))
            && (0.0 <= rnd < 1.0 ==> (o == Measurement(NotReached) <==> Prob(v) < rnd))
            && (o == Measurement(BadSample) <==> rnd < 0.0 || 1.0 <= rnd)
  {
    hide Measure, Prob;
    MeasureMeans(v, rnd, s);
  }

  // --------------------------------------------------------------------- runs

  /** A run is its calls, first to last. */
  lemma RunVecSnoc(calls: seq<Call>, last: Call, v: Vec, n: nat, num: Numerics, storage: Storage)
    requires IsRegister(v, n) && AllWellFormed(calls, n) && WellFormed(last, n)
    ensures AllWellFormed(calls + [last], n)
    ensures RunVec(calls + [last], v, n, num, storage) ==
            Effect(last, RunVec(calls, v, n, num, storage), n, num, storage)
  {
    hide Effect, WellFormed;
    assert (calls + [last])[..|calls|] == calls;
  }

  /** After any run, a write is what the next read of that state sees, and no read of another state sees it. */
  lemma WriteThenRead(calls: seq<Call>, s: nat, a: Amp, u: nat, v: Vec, n: nat, num: Numerics, depth: nat,
                      storage: Storage)
    requires IsRegister(v, n) && AllWellFormed(calls, n) && s < Pow2(n) && u < Pow2(n)
    ensures AllWellFormed(calls + [SetAmplitude(s, a)] + [Read(u)], n) && AllWellFormed(calls + [Read(u)], n)
    ensures var k := |calls|;
            RunOutcomes(calls + [SetAmplitude(s, a)] + [Read(u)], v, n, num, depth, storage)[k + 1] ==
            if u == s then Value(a) else RunOutcomes(calls + [Read(u)], v, n, num, depth, storage)[k]
  {
    var written := calls + [SetAmplitude(s, a)];
    RunVecSnoc(calls, SetAmplitude(s, a), v, n, num, storage);
    RunVecSnoc(written, Read(u), v, n, num, storage);
    RunVecSnoc(calls, Read(u), v, n, num, storage);
    OutcomesSnoc(written, Read(u), v, n, num, depth, storage);
    OutcomesSnoc(calls, Read(u), v, n, num, depth, storage);
    ReadAfterWrite(s, a, u, RunVec(calls, v, n, num, storage), n, num, DepthOf(written, depth), DepthOf(calls, depth),
                   storage);
    hide RunOutcomes, RunVec, Effect, OutcomeOf, DepthOf;
  }

  lemma ReadAfterWrite(s: nat, a: Amp, u: nat, v: Vec, n: nat, num: Numerics, depth: nat, before: nat, storage: Storage)
    requires IsRegister(v, n) && s < |v| && u < |v|
    ensures OutcomeOf(Read(u), Effect(SetAmplitude(s, a), v, n, num, storage), n, depth, storage) ==
            if u == s then Value(a) else OutcomeOf(Read(u), v, n, before, storage)
  {
  }

  function Begins(calls: seq<Call>): nat {
    if calls == [] then 0 else Begins(calls[..|calls| - 1]) + if calls[|calls| - 1].BeginBatch? then 1 else 0
  }

  function Ends(calls: seq<Call>): nat {
    if calls == [] then 0 else Ends(calls[..|calls| - 1]) + if calls[|calls| - 1].EndBatch? then 1 else 0
  }

  /** While nothing is initialised and no end is stray, the open batches are the begins without an end. */
  lemma {:induction false} DepthCounts(calls: seq<Call>, depth: nat)
    requires Balanced(calls, depth) && forall i | 0 <= i < |calls| :: !IsInitialisation(calls[i])
    ensures DepthOf(calls, depth) + Ends(calls) == depth + Begins(calls)
  {
    if calls != [] {
      BalancedSnoc(calls, depth);
      DepthCounts(calls[..|calls| - 1], depth);
    }
  }

  /** An initialisation closes every open batch. */
  lemma InitialisationCloses(calls: seq<Call>, last: Call, depth: nat)
    requires IsInitialisation(last)
    ensures DepthOf(calls + [last], depth) == 0
  {
    DepthSnoc(calls, last, depth);
  }
}
