/** The reference store: one flat vector, updated in place. */
module DenseBackend {
  import opened Amplitudes
  import opened Bits
  import opened PairKernels
  import opened PairKernelExecutor
  import opened Gates
  import opened GateBlocks
  import opened BlockEngine
  import opened BasisLists
  import opened StateOps
  import opened Runs = BackendRuns

  class DenseStateBackend {
    const num: Numerics
    var numQubits: nat
    var numStates: nat
    var amplitudes: Vec

    ghost predicate Valid()
      reads this
    {
      numStates == Pow2(numQubits) && |amplitudes| == numStates
    }

    constructor (num: Numerics, n: nat)
      ensures Valid() && this.num == num && numQubits == n && amplitudes == ZeroVec(n)
    {
      this.num := num;
      numQubits, numStates := n, Pow2(n);
      amplitudes := ZeroVec(n);
    }

    method InitBasis(n: nat, initState: nat, amp: Amp) returns (ok: bool)
      modifies this
      ensures Valid() && numQubits == n && ok == (initState < Pow2(n))
      ensures amplitudes == if ok then ZeroVec(n)[initState := amp] else ZeroVec(n)
    {
      numQubits, numStates := n, Pow2(n);
      amplitudes := ZeroVec(n);
      if initState >= numStates { return false; }
      amplitudes := amplitudes[initState := amp];
      ok := true;
    }

    method InitZero(n: nat)
      modifies this
      ensures Valid() && numQubits == n && amplitudes == ZeroVec(n)
    {
      numQubits, numStates := n, Pow2(n);
      amplitudes := ZeroVec(n);
    }

    /** An empty list and an out-of-range state are errors that come after the old amplitudes are gone. */
    method InitUniformSuperposition(n: nat, basisStates: seq<nat>) returns (ok: bool)
      modifies this
      ensures Valid() && numQubits == n && ok == ListFits(basisStates, n)
      ensures amplitudes ==
              if ok then UniformVec(n, basisStates, num.invSqrt(|SortUnique(basisStates)|)) else ZeroVec(n)
    {
      hide SortUnique;
      InitZero(n);
      ok := CheckRange(basisStates, numStates);
      var selected := SortUnique(basisStates);
      if !ok || selected == [] { return false; }
      var r := num.invSqrt(|selected|);
      var i := 0;
      while i < |selected|
        invariant i <= |selected| && |amplitudes| == numStates == Pow2(n) && numQubits == n
        invariant forall s: nat | s < numStates :: amplitudes[s] == if s in selected[..i] then Real(r) else ZERO
      {
        assert selected[i] in basisStates;
        amplitudes := amplitudes[selected[i] := Real(r)];
        assert selected[..i + 1] == selected[..i] + [selected[i]];
        i := i + 1;
      }
      assert selected[..i] == selected;
    }

    /** A vector of the wrong length is an error that comes after the size has been changed. */
    method LoadAmplitudes(n: nat, loaded: Vec) returns (ok: bool)
      modifies this
      ensures numQubits == n && numStates == Pow2(n) && ok == (|loaded| == numStates)
      ensures amplitudes == if ok then loaded else old(amplitudes)
    {
      numQubits, numStates := n, Pow2(n);
      if |loaded| != numStates { return false; }
      amplitudes := loaded;
      ok := true;
    }

    method TotalProbability() returns (total: real)
      requires Valid()
      ensures total == Prob(amplitudes)
    {
      hide Prob, NormSq;
      EmptySum(amplitudes);
      total := 0.0;
      var s := 0;
      while s < |amplitudes|
        invariant s <= |amplitudes| && total == Prob(amplitudes[..s])
      {
        SumSnoc(amplitudes, s);
        total := total + NormSq(amplitudes[s]);
        s := s + 1;
      }
      assert amplitudes[..s] == amplitudes;
    }

    method SampleMeasurement(rnd: real) returns (m: Measured)
      requires Valid()
      ensures m == Measure(amplitudes, rnd)
    {
      if rnd < 0.0 || rnd >= 1.0 { return BadSample; }
      var cumulative := 0.0;
      var s := 0;
      while s < numStates
        invariant s <= numStates && cumulative == Prob(amplitudes[..s])
        invariant SampleFrom(amplitudes, rnd, 0) == SampleFrom(amplitudes, rnd, s)
      {
        SumSnoc(amplitudes, s);
        cumulative := cumulative + NormSq(amplitudes[s]);
        if rnd <= cumulative { return Sampled(s); }
        s := s + 1;
      }
      m := NotReached;
    }

    method InversionAboutMean(mean: Amp)
      requires Valid()
      modifies this`amplitudes
      ensures Valid() && amplitudes == InvertWith(old(amplitudes), mean)
    {
      var s := 0;
      while s < |amplitudes|
        invariant s <= |amplitudes| == |old(amplitudes)|
        invariant forall i: nat | i < |amplitudes| ::
                    amplitudes[i] == if i < s then InvertWith(old(amplitudes), mean)[i] else old(amplitudes)[i]
      {
        amplitudes := amplitudes[s := Amp(2.0 * mean.re - amplitudes[s].re, 2.0 * mean.im - amplitudes[s].im)];
        s := s + 1;
      }
    }

    method ComputeMean() returns (mean: Amp)
      requires Valid()
      ensures mean == Mean(amplitudes)
    {
      var sum := ZERO;
      var s := 0;
      while s < |amplitudes|
        invariant s <= |amplitudes| && sum == Sum(amplitudes[..s])
      {
        SumSnoc(amplitudes, s);
        sum := Add(sum, amplitudes[s]);
        s := s + 1;
      }
      assert amplitudes[..s] == amplitudes;
      mean := Amp(sum.re / (numStates as real), sum.im / (numStates as real));
    }

    method ApplyAffineTransform(scale: Amp, bias: Amp)
      requires Valid()
      modifies this`amplitudes
      ensures Valid() && amplitudes == Affine(old(amplitudes), scale, bias)
    {
      hide Mul;
      var s := 0;
      while s < |amplitudes|
        invariant s <= |amplitudes| == |old(amplitudes)|
        invariant forall i: nat | i < |amplitudes| ::
                    amplitudes[i] == if i < s then Affine(old(amplitudes), scale, bias)[i] else old(amplitudes)[i]
      {
        amplitudes := amplitudes[s := Add(Mul(scale, amplitudes[s]), bias)];
        s := s + 1;
      }
    }

    /** The pair loop over the contiguous buffer. */
    method RunPairKernel(k: nat, f: PairFn)
      requires Valid() && k < numQubits
      modifies this`amplitudes
      ensures Valid() && amplitudes == PairMap(old(amplitudes), numQubits, k, f)
    {
      hide Bit, ClearStates;
      ghost var v, states := amplitudes, ClearStates(numStates, k);
      VisitsAreMap(v, numQubits, k, f);
      var visits := RunFallback(numStates, Pow2(k), numQubits, k);
      assert states == Firsts(visits);
      var i := 0;
      while i < |visits|
        invariant i <= |visits| == |states| && |amplitudes| == numStates
        invariant amplitudes == RunVisits(v, k, f, states[..i])
      {
        NextVisit(v, k, f, states, i, visits);
        var s0, s1 := visits[i].state0, visits[i].state1;
        var out := f(s0, s1, amplitudes[s0], amplitudes[s1]);
        amplitudes := amplitudes[s0 := out.a0][s1 := out.a1];
        i := i + 1;
      }
      assert states[..i] == states;
    }

    method ApplyGateByBlocks(g: QuantumGate, layout: GateBlockLayout, ghost t: seq<nat>)
      requires Valid() && Fits(g, t, numQubits) && |t| <= numQubits && layout == LayoutOf(numQubits, t)
      modifies this`amplitudes
      ensures Valid() && amplitudes == ApplyMatrix(old(amplitudes), numQubits, g, t)
    {
      hide Dot, Mul, Add, BlockStatesOf, ApplyMatrix, Pow2, MatVec;
      ghost var v := amplitudes;
      var block := 0;
      while block < layout.numBlocks
        invariant block <= layout.numBlocks && |amplitudes| == numStates
        invariant DoneBelow(v, amplitudes, numQubits, g, t, block)
      {
        BlockTurn(v, amplitudes, numQubits, g, t, block);
        BlockAddresses(numQubits, t, block);
        ghost var w := amplitudes;
        var states := BlockStates(layout, block, numQubits, t);
        var amps := Loads(amplitudes, states);
        if !AllZero(amps) {
          var outs := BlockProduct(g, amps);
          var row := 0;
          while row < |states|
            invariant row <= |states| && amplitudes == StoreBlock(w, states, outs, row)
          {
            amplitudes := amplitudes[states[row] := outs[row]];
            row := row + 1;
          }
        }
        assert amplitudes == AfterBlock(w, numQubits, g, t, block);
        block := block + 1;
      }
      AllBlocksDone(v, amplitudes, numQubits, g, t);
    }

    method ApplyGate(g: QuantumGate, qubits: seq<nat>) returns (ok: bool)
      requires Valid() && g.Square()
      modifies this`amplitudes
      ensures Valid() && (ok <==> GateFits(g, qubits, numQubits))
      ensures amplitudes == if ok then StateOps.ApplyGate(old(amplitudes), numQubits, g, qubits) else old(amplitudes)
    {
      ok := ValidateGateTargets(qubits, numQubits, |g.rows|);
      if ok {
        TargetsFit(g, qubits, numQubits);
        var layout := MakeGateBlockLayout(qubits, numQubits);
        ApplyGateByBlocks(g, layout, TargetBits(qubits, numQubits));
      }
    }

    method Initialise(call: Call) returns (o: Outcome)
      requires Valid() && WellFormed(call, numQubits) && IsInitialisation(call)
      modifies this
      ensures Valid() && numQubits == old(numQubits)
      ensures amplitudes == Effect(call, old(amplitudes), numQubits, num, Dense)
      ensures o == OutcomeOf(call, old(amplitudes), numQubits, 0, Dense)
    {
      hide UniformVec, SortUnique;
      var ok := true;
      match call {
        case InitialZero => InitZero(numQubits);
        case InitialBasis(s, a) => ok := InitBasis(numQubits, s, a);
        case InitialUniform(states) => ok := InitUniformSuperposition(numQubits, states);
        case Load(v) => ok := LoadAmplitudes(numQubits, v);
      }
      o := if ok then Done else Rejected;
    }

    method Answer(call: Call) returns (o: Outcome)
      requires Valid() && IsReading(call)
      ensures o == OutcomeOf(call, amplitudes, numQubits, 0, Dense)
    {
      match call {
        case Read(s) =>
          if s >= numStates { return Rejected; }
          o := Value(amplitudes[s]);
        case Total =>
          var total := TotalProbability();
          o := Mass(total);
        case Sample(rnd) =>
          var m := SampleMeasurement(rnd);
          o := Measurement(m);
        case Export =>
          o := Exported(amplitudes);
      }
    }

    method ApplyGateCall(call: Call) returns (o: Outcome)
      requires Valid() && WellFormed(call, numQubits) && IsGate(call)
      modifies this`amplitudes
      ensures Valid()
      ensures amplitudes == Effect(call, old(amplitudes), numQubits, num, Dense)
      ensures o == OutcomeOf(call, old(amplitudes), numQubits, 0, Dense)
    {
      match call {
        case ApplyH(q) =>
          if q >= numQubits { return Rejected; }
          RunPairKernel(BitOf(q, numQubits), HadamardKernel(num.invSqrt(2)));
        case ApplyX(q) =>
          if q >= numQubits { return Rejected; }
          RunPairKernel(BitOf(q, numQubits), PauliXKernel());
        case ApplyPhase(c, t, phase) =>
          if c >= numQubits || t >= numQubits || c == t { return Rejected; }
          RunPairKernel(BitOf(t, numQubits), PhaseKernel(Pow2(BitOf(c, numQubits)), phase));
        case ApplyCNot(c, t) =>
          if c >= numQubits || t >= numQubits || c == t { return Rejected; }
          RunPairKernel(BitOf(t, numQubits), ControlledNotKernel(Pow2(BitOf(c, numQubits))));
        case ApplyMatrixGate(g, qubits) =>
          var ok := ApplyGate(g, qubits);
          if !ok { return Rejected; }
      }
      o := Done;
    }

    method Update(call: Call) returns (o: Outcome)
      requires Valid() && !IsInitialisation(call) && !IsReading(call) && !IsGate(call)
      modifies this`amplitudes
      ensures Valid()
      ensures amplitudes == Effect(call, old(amplitudes), numQubits, num, Dense)
      ensures o == OutcomeOf(call, old(amplitudes), numQubits, 0, Dense)
    {
      match call {
        case SetAmplitude(s, a) =>
          if s >= numStates { return Rejected; }
          amplitudes := amplitudes[s := a];
        case PhaseFlipState(s) =>
          if s >= numStates { return Rejected; }
          amplitudes := amplitudes[s := Neg(amplitudes[s])];
        case InvertAboutMean =>
          var mean := ComputeMean();
          InversionAboutMean(mean);
        case InvertAbout(mean) =>
          InversionAboutMean(mean);
        case AffineTransform(scale, bias) =>
          ApplyAffineTransform(scale, bias);
        case BeginBatch =>
        case EndBatch =>
      }
      o := Done;
    }

    /** One call, with the backend's own validation. Batches are no-ops. */
    method Execute(call: Call) returns (o: Outcome)
      requires Valid() && WellFormed(call, numQubits)
      modifies this
      ensures Valid() && numQubits == old(numQubits)
      ensures amplitudes == Effect(call, old(amplitudes), numQubits, num, Dense)
      ensures o == OutcomeOf(call, old(amplitudes), numQubits, 0, Dense)
    {
      if IsInitialisation(call) {
        o := Initialise(call);
      } else if IsReading(call) {
        o := Answer(call);
        ReadingKeeps(call, amplitudes, numQubits, num, Dense);
      } else if IsGate(call) {
        o := ApplyGateCall(call);
      } else {
        o := Update(call);
      }
    }

    method Run(calls: seq<Call>) returns (outcomes: seq<Outcome>)
      requires Valid() && AllWellFormed(calls, numQubits)
      modifies this
      ensures Valid() && numQubits == old(numQubits)
      ensures amplitudes == RunVec(calls, old(amplitudes), numQubits, num, Dense)
      ensures outcomes == RunOutcomes(calls, old(amplitudes), numQubits, num, 0, Dense)
    {
      hide Effect, OutcomeOf;
      ghost var v, n := amplitudes, numQubits;
      outcomes := [];
      var i := 0;
      while i < |calls|
        invariant i <= |calls| && Valid() && numQubits == n
        invariant amplitudes == RunVec(calls[..i], v, n, num, Dense)
        invariant outcomes == RunOutcomes(calls[..i], v, n, num, 0, Dense)
      {
        assert calls[..i + 1][..i] == calls[..i];
        DenseIgnoresDepth(calls[i], amplitudes, n, DepthOf(calls[..i], 0));
        var o := Execute(calls[i]);
        outcomes := outcomes + [o];
        i := i + 1;
      }
      assert calls[..i] == calls;
    }
  }
}
