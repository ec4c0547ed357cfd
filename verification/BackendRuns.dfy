/** Runs of backend calls: the specification both backends are held to, and where they may differ. */
module BackendRuns {
  import opened Amplitudes
  import opened Bits
  import opened PairKernels
  import opened Gates
  import opened BasisLists
  import opened StateOps
  import opened GateMatch

  /** One call on a backend. */
  datatype Call =
    | SetAmplitude(state: nat, amp: Amp)
    | PhaseFlipState(state: nat)
    | InvertAboutMean
    | InvertAbout(mean: Amp)
    | AffineTransform(scale: Amp, bias: Amp)
    | ApplyH(qubit: nat)
    | ApplyX(qubit: nat)
    | ApplyPhase(control: nat, target: nat, phase: Amp)
    | ApplyCNot(control: nat, target: nat)
    | ApplyMatrixGate(gate: QuantumGate, qubits: seq<nat>)
    | Read(state: nat)
    | BeginBatch
    | EndBatch
    /** Initialisations, for the size the store already has. */
    | InitialZero
    | InitialBasis(state: nat, amp: Amp)
    | InitialUniform(states: seq<nat>)
    | Load(amplitudes: Vec)
    /** Readings of the whole vector. */
    | Total
    | Sample(rnd: real)
    | Export

  datatype Outcome =
    Done | Rejected | Value(amp: Amp) | Mass(total: real) | Measurement(measured: Measured) | Exported(v: Vec)

  /** The two storage kinds; only the chunked one dispatches gates and counts batches. */
  datatype Storage = Dense | Chunked

  /** The argument validation both backends perform. */
  ghost predicate Accepts(call: Call, n: nat) {
    match call
    case SetAmplitude(s, _) => s < Pow2(n)
    case PhaseFlipState(s) => s < Pow2(n)
    case Read(s) => s < Pow2(n)
    case InitialBasis(s, _) => s < Pow2(n)
    case ApplyH(q) => q < n
    case ApplyX(q) => q < n
    case ApplyPhase(c, t, _) => c < n && t < n && c != t
    case ApplyCNot(c, t) => c < n && t < n && c != t
    case ApplyMatrixGate(g, qubits) => GateFits(g, qubits, n)
    case _ => true
  }

  /** Gate matrices are square by construction; what is loaded has been checked by the caller. */
  ghost predicate WellFormed(call: Call, n: nat) {
    match call
    case ApplyMatrixGate(g, _) => g.Square()
    case InitialUniform(states) => ListFits(states, n)
    case Load(v) => |v| == Pow2(n)
    case _ => true
  }

  ghost predicate AllWellFormed(calls: seq<Call>, n: nat) {
    forall i | 0 <= i < |calls| :: WellFormed(calls[i], n)
  }

  predicate IsInitialisation(call: Call) {
    call.InitialZero? || call.InitialBasis? || call.InitialUniform? || call.Load?
  }

  predicate IsGate(call: Call) {
    call.ApplyH? || call.ApplyX? || call.ApplyPhase? || call.ApplyCNot? || call.ApplyMatrixGate?
  }

  predicate IsReading(call: Call) {
    call.Read? || call.Total? || call.Sample? || call.Export?
  }

  /** The state vector after one call. */
  ghost function Effect(call: Call, v: Vec, n: nat, num: Numerics, storage: Storage): (w: Vec)
    requires IsRegister(v, n) && WellFormed(call, n)
    ensures IsRegister(w, n)
  {
    if !Accepts(call, n) then if call.InitialBasis? then ZeroVec(n) else v
    else match call
      case SetAmplitude(s, a) => v[s := a]
      case PhaseFlipState(s) => PhaseFlip(v, s)
      case InvertAboutMean => InvertWith(v, Mean(v))
      case InvertAbout(mean) => InvertWith(v, mean)
      case AffineTransform(scale, bias) => Affine(v, scale, bias)
      case ApplyH(q) => Hadamard(v, n, q, num.invSqrt(2))
      case ApplyX(q) => PauliX(v, n, q)
      case ApplyPhase(c, t, phase) => ControlledPhase(v, n, c, t, phase)
      case ApplyCNot(c, t) => ControlledNot(v, n, c, t)
      case ApplyMatrixGate(g, qubits) =>
        if storage == Chunked then DispatchedGate(v, n, g, qubits, num) else ApplyGate(v, n, g, qubits)
      case InitialZero => ZeroVec(n)
      case InitialBasis(s, a) => ZeroVec(n)[s := a]
      case InitialUniform(states) => UniformVec(n, states, num.invSqrt(|SortUnique(states)|))
      case Load(w) => w
      case _ => v
  }

  /** What the caller sees; `depth` is the number of open batches. */
  ghost function OutcomeOf(call: Call, v: Vec, n: nat, depth: nat, storage: Storage): Outcome
    requires IsRegister(v, n)
  {
    if !Accepts(call, n) || (call.EndBatch? && storage == Chunked && depth == 0) then Rejected
    else match call
      case Read(s) => Value(v[s])
      case Total => Mass(Prob(v))
      case Sample(rnd) => Measurement(Measure(v, rnd))
      case Export => Exported(v)
      case _ => Done
  }

  /** What the initialisations leave and report. */
  lemma InitialisationMeans(call: Call, v: Vec, n: nat, num: Numerics, depth: nat, storage: Storage)
    requires IsRegister(v, n) && WellFormed(call, n) && IsInitialisation(call)
    ensures OutcomeOf(call, v, n, depth, storage) ==
            if call.InitialBasis? && call.state >= Pow2(n) then Rejected else Done
    ensures call.InitialZero? ==> Effect(call, v, n, num, storage) == ZeroVec(n)
    ensures call.InitialBasis? ==>
              Effect(call, v, n, num, storage) ==
              if call.state < Pow2(n) then ZeroVec(n)[call.state := call.amp] else ZeroVec(n)
    ensures call.InitialUniform? ==>
              Effect(call, v, n, num, storage) == UniformVec(n, call.states, num.invSqrt(|SortUnique(call.states)|))
    ensures call.Load? ==> Effect(call, v, n, num, storage) == call.amplitudes
  {
  }

  /** The batches open in the chunked store; an initialisation closes them all. */
  function DepthAfter(call: Call, depth: nat): nat {
    if call.BeginBatch? then depth + 1
    else if call.EndBatch? && depth > 0 then depth - 1
    else if IsInitialisation(call) then 0
    else depth
  }

  lemma ReadingKeeps(call: Call, v: Vec, n: nat, num: Numerics, storage: Storage)
    requires IsRegister(v, n) && WellFormed(call, n) && IsReading(call)
    ensures Effect(call, v, n, num, storage) == v && forall depth :: DepthAfter(call, depth) == depth
  {
  }

  function DepthOf(calls: seq<Call>, depth: nat): nat {
    if calls == [] then depth else DepthAfter(calls[|calls| - 1], DepthOf(calls[..|calls| - 1], depth))
  }

  /** The state vector after a run. */
  ghost function RunVec(calls: seq<Call>, v: Vec, n: nat, num: Numerics, storage: Storage): (w: Vec)
    requires IsRegister(v, n) && AllWellFormed(calls, n)
    ensures IsRegister(w, n)
  {
    if calls == [] then v
    else Effect(calls[|calls| - 1], RunVec(calls[..|calls| - 1], v, n, num, storage), n, num, storage)
  }

  /** Everything the caller sees during a run that starts with `depth` open batches. */
  ghost function RunOutcomes(calls: seq<Call>, v: Vec, n: nat, num: Numerics, depth: nat,
                             storage: Storage): (o: seq<Outcome>)
    requires IsRegister(v, n) && AllWellFormed(calls, n)
    ensures |o| == |calls|
  {
    if calls == [] then []
    else
      var init := calls[..|calls| - 1];
      RunOutcomes(init, v, n, num, depth, storage) +
      [OutcomeOf(calls[|calls| - 1], RunVec(init, v, n, num, storage), n, DepthOf(init, depth), storage)]
  }

  /** Every gate matrix of the run is exactly a built-in gate or not within tolerance of one. */
  ghost predicate FaithfulGates(calls: seq<Call>, num: Numerics) {
    forall i | 0 <= i < |calls| && calls[i].ApplyMatrixGate? :: FaithfulGate(calls[i].gate, |calls[i].qubits|, num)
  }

  ghost predicate FaithfulGate(g: QuantumGate, count: nat, num: Numerics) {
    g.Square() && (IsBuiltIn(g, count, num) || IsUnmatched(g, count, num))
  }

  /** No batch is closed that was not opened since the last initialisation. */
  ghost predicate Balanced(calls: seq<Call>, depth: nat) {
    forall i | 0 <= i < |calls| && calls[i].EndBatch? :: DepthOf(calls[..i], depth) > 0
  }

  /** A call whose gate is faithful has the same effect on both stores. */
  lemma SameEffect(call: Call, v: Vec, n: nat, num: Numerics)
    requires IsRegister(v, n) && WellFormed(call, n) && num.Exact()
    requires call.ApplyMatrixGate? ==> FaithfulGate(call.gate, |call.qubits|, num)
    ensures Effect(call, v, n, num, Chunked) == Effect(call, v, n, num, Dense)
  {
    if call.ApplyMatrixGate? && Accepts(call, n) {
      DispatchPreservesExactly(n, call.gate, call.qubits, num);
    }
  }

  /** After the same run of faithful calls both backends hold the same vector. */
  lemma {:induction false} SameVector(calls: seq<Call>, v: Vec, n: nat, num: Numerics)
    requires IsRegister(v, n) && AllWellFormed(calls, n) && FaithfulGates(calls, num) && num.Exact()
    ensures RunVec(calls, v, n, num, Chunked) == RunVec(calls, v, n, num, Dense)
  {
    hide Effect, FaithfulGate;
    if calls != [] {
      var l := |calls| - 1;
      SameVector(calls[..l], v, n, num);
      SameEffect(calls[l], RunVec(calls[..l], v, n, num, Dense), n, num);
    }
  }

  /** The dense store counts no batches. */
  lemma DenseIgnoresDepth(call: Call, v: Vec, n: nat, depth: nat)
    requires IsRegister(v, n)
    ensures OutcomeOf(call, v, n, depth, Dense) == OutcomeOf(call, v, n, 0, Dense)
  {
  }

  lemma SameOutcome(call: Call, v: Vec, n: nat, depth: nat)
    requires IsRegister(v, n)
    ensures OutcomeOf(call, v, n, depth, Chunked) == OutcomeOf(call, v, n, depth, Dense)
            <==> (call.EndBatch? ==> depth > 0)
  {
  }

  lemma BalancedSnoc(calls: seq<Call>, depth: nat)
    requires calls != []
    ensures var init, last := calls[..|calls| - 1], calls[|calls| - 1];
            Balanced(calls, depth) <==> Balanced(init, depth) && (last.EndBatch? ==> DepthOf(init, depth) > 0)
  {
    assert forall i | 0 <= i < |calls| :: calls[..|calls| - 1][..i] == calls[..i];
  }

  /** And the callers saw the same results exactly when every batch end had its begin. */
  lemma {:induction false} SameOutcomes(calls: seq<Call>, v: Vec, n: nat, num: Numerics, depth: nat)
    requires IsRegister(v, n) && AllWellFormed(calls, n) && FaithfulGates(calls, num) && num.Exact()
    ensures RunOutcomes(calls, v, n, num, depth, Chunked) == RunOutcomes(calls, v, n, num, depth, Dense)
            <==> Balanced(calls, depth)
  {
    if calls != [] {
      var l := |calls| - 1;
      var init := calls[..l];
      SameOutcomes(init, v, n, num, depth);
      SameVector(init, v, n, num);
      SameOutcome(calls[l], RunVec(init, v, n, num, Dense), n, DepthOf(init, depth));
      BalancedSnoc(calls, depth);
      hide OutcomeOf, Effect, Balanced;
      var a, b := RunOutcomes(init, v, n, num, depth, Chunked), RunOutcomes(init, v, n, num, depth, Dense);
      var x := OutcomeOf(calls[l], RunVec(init, v, n, num, Chunked), n, DepthOf(init, depth), Chunked);
      var y := OutcomeOf(calls[l], RunVec(init, v, n, num, Dense), n, DepthOf(init, depth), Dense);
      SnocEqual(a, x, b, y);
    }
  }

  /** A batch end without a begin: the dense store ignores it, the chunked one rejects it. */
  lemma StrayEndDiffers(v: Vec, n: nat, num: Numerics)
    requires IsRegister(v, n)
    ensures AllWellFormed([EndBatch], n)
    ensures RunOutcomes([EndBatch], v, n, num, 0, Chunked) == [Rejected]
    ensures RunOutcomes([EndBatch], v, n, num, 0, Dense) == [Done]
  {
    assert [EndBatch][..0] == [];
  }

  /** So is the end of a batch in which something was loaded: loading closes the batch in the chunked store. */
  lemma LoadInBatchDiffers(v: Vec, n: nat, num: Numerics)
    requires IsRegister(v, n)
    ensures var calls := [BeginBatch, Load(v), EndBatch];
            && AllWellFormed(calls, n)
            && RunOutcomes(calls, v, n, num, 0, Chunked) == [Done, Done, Rejected]
            && RunOutcomes(calls, v, n, num, 0, Dense) == [Done, Done, Done]
  {
    BatchedLoad(v, n, num, Chunked);
    BatchedLoad(v, n, num, Dense);
    hide RunOutcomes;
  }

  lemma BatchedLoad(v: Vec, n: nat, num: Numerics, storage: Storage)
    requires IsRegister(v, n)
    ensures AllWellFormed([BeginBatch, Load(v), EndBatch], n)
    ensures RunOutcomes([BeginBatch, Load(v), EndBatch], v, n, num, 0, storage) ==
            [Done, Done, if storage == Chunked then Rejected else Done]
  {
    hide RunOutcomes, RunVec, OutcomeOf, Effect, DepthOf;
    var none: seq<Call> := [];
    OutcomesSnoc(none, BeginBatch, v, n, num, 0, storage);
    OutcomesSnoc([BeginBatch], Load(v), v, n, num, 0, storage);
    OutcomesSnoc([BeginBatch, Load(v)], EndBatch, v, n, num, 0, storage);
    assert none + [BeginBatch] == [BeginBatch] && [BeginBatch] + [Load(v)] == [BeginBatch, Load(v)];
    assert [BeginBatch, Load(v)] + [EndBatch] == [BeginBatch, Load(v), EndBatch];
    DepthSnoc(none, BeginBatch, 0);
    DepthSnoc([BeginBatch], Load(v), 0);
    NoOutcomes(v, n, num, 0, storage);
    BatchOutcomes(v, RunVec(none, v, n, num, storage), n, storage);
    BatchOutcomes(v, RunVec([BeginBatch], v, n, num, storage), n, storage);
    BatchOutcomes(v, RunVec([BeginBatch, Load(v)], v, n, num, storage), n, storage);
  }

  lemma BatchOutcomes(v: Vec, w: Vec, n: nat, storage: Storage)
    requires IsRegister(w, n)
    ensures OutcomeOf(BeginBatch, w, n, 0, storage) == Done == OutcomeOf(Load(v), w, n, 1, storage)
    ensures OutcomeOf(EndBatch, w, n, 0, storage) == if storage == Chunked then Rejected else Done
  {
  }

  lemma NoOutcomes(v: Vec, n: nat, num: Numerics, depth: nat, storage: Storage)
    requires IsRegister(v, n)
    ensures RunOutcomes([], v, n, num, depth, storage) == [] && DepthOf([], depth) == depth
  {
  }

  lemma DepthSnoc(calls: seq<Call>, last: Call, depth: nat)
    ensures DepthOf(calls + [last], depth) == DepthAfter(last, DepthOf(calls, depth))
  {
    assert (calls + [last])[..|calls|] == calls;
  }

  lemma OutcomesSnoc(calls: seq<Call>, last: Call, v: Vec, n: nat, num: Numerics, depth: nat, storage: Storage)
    requires IsRegister(v, n) && AllWellFormed(calls + [last], n)
    ensures AllWellFormed(calls, n)
    ensures RunOutcomes(calls + [last], v, n, num, depth, storage) ==
            RunOutcomes(calls, v, n, num, depth, storage) +
            [OutcomeOf(last, RunVec(calls, v, n, num, storage), n, DepthOf(calls, depth), storage)]
  {
    assert forall i | 0 <= i < |calls| :: calls[i] == (calls + [last])[i];
    assert (calls + [last])[..|calls|] == calls;
  }

  lemma SnocEqual<T>(a: seq<T>, x: T, b: seq<T>, y: T)
    requires |a| == |b|
    ensures a + [x] == b + [y] <==> a == b && x == y
  {
    if a + [x] == b + [y] {
      assert a == (a + [x])[..|a|] && b == (b + [y])[..|b|];
      assert x == (a + [x])[|a|] && y == (b + [y])[|b|];
    }
  }
}
