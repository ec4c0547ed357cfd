/** The quantum register: a store under a lazy affine overlay, with a running amplitude sum. */
module Registers {
  import opened Amplitudes
  import opened Bits
  import opened Gates
  import opened BasisLists
  import opened StateOps
  import opened BlockEngine
  import opened GateMatch
  import opened ChunkStores
  import opened ChunkViews
  import opened Options
  import opened CompressedBackend
  import opened AffineOverlays

  class QuantumRegister<P> {
    const backend: CompressedStateBackend<P>
    var overlay: Overlay
    var cachedSum: Option<Amp>

    /** The logical vector: the stored one seen through the overlay; `None` if an invariant is broken. */
    ghost function Abs(): (v: Option<Vec>)
      reads this, backend, backend.cache, backend.store
      ensures v.Some? ==> backend.Valid() && |v.value| == backend.numStates == Pow2(backend.numQubits)
    {
      if backend.Valid() then Image(overlay, cachedSum, backend.Logical()) else None
    }

    /** The overlay scale is +1 or -1, and a cached sum is the sum of the logical amplitudes. */
    ghost predicate Valid()
      reads this, backend, backend.cache, backend.store
    {
      Abs().Some?
    }

    ghost function Logical(): (v: Vec)
      requires Valid()
      reads this, backend, backend.cache, backend.store
      ensures |v| == backend.numStates == Pow2(backend.numQubits)
    {
      Abs().value
    }

    /** What the register shows once its store is valid. */
    lemma Seen()
      requires backend.Valid()
      ensures Abs() == Image(overlay, cachedSum, backend.Logical())
    {
    }

    lemma SeenThrough()
      requires Valid()
      ensures backend.Valid() && IsReflection(overlay) && Logical() == ApplyAll(overlay, backend.Logical())
    {
    }

    /** Without an overlay the register shows its store. */
    lemma SeenPlainly()
      requires Valid() && !overlay.active
      ensures backend.Valid() && backend.Logical() == Logical() && overlay == IDENTITY
    {
      ImageInactive(overlay, cachedSum, backend.Logical());
    }

    /** After a flush and with the sum dropped, the register shows its store. */
    lemma ShowsStore()
      requires backend.Valid() && overlay == IDENTITY && cachedSum == None
      ensures Abs() == Some(backend.Logical())
    {
      ImageFresh(backend.Logical());
    }

    lemma FirstChunk()
      requires Valid()
      ensures AtChunk(backend.layout, 0, 0)
    {
      ChunkLoopStart(backend.layout);
    }

    lemma NoMoreChunks(m: nat)
      requires Valid() && AtChunk(backend.layout, backend.layout.chunkCount, m)
      ensures m == |Logical()|
    {
    }

    /** A register before its first initialisation. */
    constructor (num: Numerics, codec: Codec<P>, chunkStates: nat, cacheSlots: nat)
      requires chunkStates >= 1 && cacheSlots >= 2 && codec.Lossless()
      ensures fresh(backend) && fresh(backend.cache) && fresh(backend.store) && backend.Ready()
      ensures backend.num == num && overlay == IDENTITY && cachedSum == None
    {
      backend := new CompressedStateBackend(num, codec, chunkStates, cacheSlots);
      overlay, cachedSum := IDENTITY, None;
    }

    /** The constructor for one basis state; an out-of-range state makes no register. */
    static method FromBasis(num: Numerics, codec: Codec<P>, chunkStates: nat, cacheSlots: nat, n: nat, initState: nat,
                            amp: Amp)
      returns (reg: Option<QuantumRegister<P>>)
      requires chunkStates >= 1 && cacheSlots >= 2 && codec.Lossless() && n <= 31
      ensures reg.Some? == (initState < Pow2(n))
      ensures reg.Some? ==> reg.value.IsNew(num, n) && fresh(reg.value) && fresh(reg.value.Parts())
      ensures reg.Some? ==> reg.value.Logical() == ZeroVec(n)[initState := amp]
    {
      hide QuantumRegister.Abs, Image, CompressedStateBackend.Abs;
      var r := new QuantumRegister(num, codec, chunkStates, cacheSlots);
      var ok := r.backend.InitBasis(n, initState, amp);
      if !ok { return None; }
      r.ShowsStore();
      reg := Some(r);
    }

    /** The constructor for a whole vector; a wrong length makes no register. */
    static method FromAmplitudes(num: Numerics, codec: Codec<P>, chunkStates: nat, cacheSlots: nat, n: nat,
                                 amplitudes: Vec)
      returns (reg: Option<QuantumRegister<P>>)
      requires chunkStates >= 1 && cacheSlots >= 2 && codec.Lossless() && n <= 31
      ensures reg.Some? == (|amplitudes| == Pow2(n))
      ensures reg.Some? ==> reg.value.IsNew(num, n) && fresh(reg.value) && fresh(reg.value.Parts())
      ensures reg.Some? ==> reg.value.Logical() == amplitudes
    {
      hide QuantumRegister.Abs, Image, CompressedStateBackend.Abs;
      var r := new QuantumRegister(num, codec, chunkStates, cacheSlots);
      var ok := r.backend.LoadAmplitudes(n, amplitudes);
      if !ok { return None; }
      r.ShowsStore();
      reg := Some(r);
    }

    /** A valid register of `n` qubits with no open batch. */
    ghost predicate IsNew(num: Numerics, n: nat)
      reads this, backend, backend.cache, backend.store
    {
      Valid() && backend.numQubits == n && backend.num == num && backend.batchDepth == 0
    }

    ghost function Parts(): set<object> {
      {backend, backend.cache, backend.store}
    }

    method ResetAffineOverlay()
      modifies this
      ensures overlay == IDENTITY && cachedSum == None
    {
      overlay, cachedSum := IDENTITY, None;
    }

    // ---------------------------------------------------------------- reading

    /** The next chunk of the logical vector, overlay applied; `m` states came before it. */
    method LogicalChunk(c: nat, ghost m: nat) returns (data: Vec)
      requires Valid() && c < backend.layout.chunkCount && AtChunk(backend.layout, c, m)
      ensures m + |data| <= |Logical()| && AtChunk(backend.layout, c + 1, m + |data|)
      ensures data == Logical()[m..m + |data|]
    {
      hide Image, Abs, ApplyAll, CompressedStateBackend.Abs;
      SeenThrough();
      var peeked := backend.PeekChunk(c);
      var stored := peeked.value;
      data := ApplyAll(overlay, stored);
      ChunkLoopStep(backend.layout, backend.Logical(), c, m, stored);
      ApplyAllSlice(overlay, backend.Logical(), m, |stored|);
    }

    /** One pass over the chunks. */
    method SumOverChunks() returns (sum: Amp)
      requires Valid()
      ensures sum == Sum(Logical())
    {
      hide Image, Abs, Sum, Add;
      hide CompressedStateBackend.Valid, CompressedStateBackend.Abs, CompressedStateBackend.Geometry;
      ghost var v, m: nat := Logical(), 0;
      FirstChunk();
      EmptySum(v);
      sum := ZERO;
      var c: nat := 0;
      while c < backend.layout.chunkCount
        invariant c <= backend.layout.chunkCount && AtChunk(backend.layout, c, m) && m <= |v| && sum == Sum(v[..m])
      {
        var data := LogicalChunk(c, m);
        sum := AddChunk(data, sum, v, m);
        m := m + |data|;
        c := c + 1;
      }
      NoMoreChunks(m);
      assert v[..m] == v;
    }

    /** `logicalAmplitudeSum`: the cached sum, or a freshly computed one that is then cached. */
    method LogicalAmplitudeSum() returns (sum: Amp)
      requires Valid()
      modifies this`cachedSum
      ensures Abs() == old(Abs()) && sum == Sum(Logical()) && cachedSum == Some(sum)
    {
      ImageSummed(overlay, cachedSum, backend.Logical());
      Seen();
      hide Image, Abs;
      if cachedSum.Some? { return cachedSum.value; }
      sum := SumOverChunks();
      cachedSum := Some(sum);
      Seen();
    }

    method Amplitude(s: nat) returns (a: Option<Amp>)
      requires Valid()
      modifies backend.cache, backend.store`payloads
      ensures Abs() == old(Abs()) && backend.Logical() == old(backend.Logical())
      ensures a == if s < backend.numStates then Some(Logical()[s]) else None
    {
      if s >= backend.numStates { return None; }
      ImageAt(overlay, cachedSum, backend.Logical(), s);
      hide Image;
      var stored := backend.Amplitude(s);
      a := Some(ApplyOverlay(overlay, stored.value));
    }

    method TotalProbability() returns (total: real)
      requires Valid()
      ensures total == Prob(Logical())
    {
      if !overlay.active {
        SeenPlainly();
        total := backend.TotalProbability();
      } else {
        total := ProbabilityOverChunks();
      }
    }

    method ProbabilityOverChunks() returns (total: real)
      requires Valid()
      ensures total == Prob(Logical())
    {
      hide Image, Abs, Prob, NormSq;
      hide CompressedStateBackend.Valid, CompressedStateBackend.Abs, CompressedStateBackend.Geometry;
      ghost var v, m: nat := Logical(), 0;
      FirstChunk();
      EmptySum(v);
      total := 0.0;
      var c: nat := 0;
      while c < backend.layout.chunkCount
        invariant c <= backend.layout.chunkCount && AtChunk(backend.layout, c, m) && m <= |v| && total == Prob(v[..m])
      {
        var data := LogicalChunk(c, m);
        total := AddChunkProbability(data, total, v, m);
        m := m + |data|;
        c := c + 1;
      }
      NoMoreChunks(m);
      assert v[..m] == v;
    }

    /** `measure`: only the store checks that the sample lies in [0, 1). */
    method MeasureState(rnd: real) returns (r: Measured)
      requires Valid()
      ensures r == if overlay.active then MeasureUnchecked(Logical(), rnd) else Measure(Logical(), rnd)
    {
      if !overlay.active {
        SeenPlainly();
        r := backend.SampleMeasurement(rnd);
      } else {
        r := SampleOverChunks(rnd);
      }
    }

    method SampleOverChunks(rnd: real) returns (r: Measured)
      requires Valid()
      ensures r == MeasureUnchecked(Logical(), rnd)
    {
      hide Image, Abs, Prob, NormSq, AtChunk;
      hide CompressedStateBackend.Valid, CompressedStateBackend.Abs, CompressedStateBackend.Geometry;
      ghost var v := Logical();
      FirstChunk();
      EmptySum(v);
      var cumulative, baseState: nat, c: nat := 0.0, 0, 0;
      while c < backend.layout.chunkCount
        invariant c <= backend.layout.chunkCount && AtChunk(backend.layout, c, baseState) && baseState <= |v|
        invariant cumulative == Prob(v[..baseState]) && SampleFrom(v, rnd, 0) == SampleFrom(v, rnd, baseState)
      {
        var data := LogicalChunk(c, baseState);
        var found;
        found, cumulative := SampleChunk(data, rnd, cumulative, baseState, v);
        if found.Some? { return Sampled(baseState + found.value); }
        baseState := baseState + |data|;
        c := c + 1;
      }
      NoMoreChunks(baseState);
      r := NotReached;
    }

    /** The full logical vector, chunk by chunk. */
    method Amplitudes() returns (snapshot: Vec)
      requires Valid()
      ensures snapshot == Logical()
    {
      hide Image, Abs, CompressedStateBackend.Valid, CompressedStateBackend.Abs, CompressedStateBackend.Geometry;
      ghost var v, m: nat := Logical(), 0;
      FirstChunk();
      snapshot := [];
      var c: nat := 0;
      while c < backend.layout.chunkCount
        invariant c <= backend.layout.chunkCount && AtChunk(backend.layout, c, m) && m <= |v| && snapshot == v[..m]
      {
        var data := LogicalChunk(c, m);
        snapshot := snapshot + data;
        m := m + |data|;
        c := c + 1;
      }
      NoMoreChunks(m);
    }

    // ---------------------------------------------------------------- writing

    method SetAmplitude(s: nat, amp: Amp) returns (ok: bool)
      requires Valid()
      modifies this`cachedSum, backend.cache, backend.store`payloads
      ensures Valid() && ok == (s < backend.numStates)
      ensures Logical() == if ok then old(Logical())[s := amp] else old(Logical())
    {
      hide Image, Abs, RemoveOverlay, CompressedStateBackend.Abs;
      if s >= backend.numStates { return false; }
      Seen();
      ImageSet(overlay, cachedSum, backend.Logical(), s, amp);
      ok := backend.SetAmplitude(s, RemoveOverlay(overlay, amp).value);
      cachedSum := None;
      Seen();
    }

    /** A successful load closes every open batch. */
    method LoadAmplitudes(amplitudes: Vec) returns (ok: bool)
      requires Valid()
      modifies this, backend, backend.cache, backend.store
      ensures Valid() && backend.numQubits == old(backend.numQubits) && ok == (|amplitudes| == old(backend.numStates))
      ensures Logical() == if ok then amplitudes else old(Logical())
      ensures backend.batchDepth == if ok then 0 else old(backend.batchDepth)
    {
      hide Abs, Image, CompressedStateBackend.Abs;
      if |amplitudes| != backend.numStates { return false; }
      backend.ValidIsReady();
      ResetAffineOverlay();
      ok := backend.LoadAmplitudes(backend.numQubits, amplitudes);
      ShowsStore();
    }

    /** A successful initialisation closes every open batch. */
    method InitUniformSuperposition(basisStates: seq<nat>) returns (ok: bool)
      requires Valid()
      modifies this, backend, backend.cache, backend.store
      ensures Valid() && backend.numQubits == old(backend.numQubits) && ok == ListFits(basisStates, backend.numQubits)
      ensures Logical() ==
              if ok then UniformVec(backend.numQubits, basisStates, backend.num.invSqrt(|SortUnique(basisStates)|))
              else old(Logical())
      ensures backend.batchDepth == if ok then 0 else old(backend.batchDepth)
    {
      hide Abs, Image, SortUnique, UniformVec, CompressedStateBackend.Abs;
      if basisStates == [] { return false; }
      ok := CheckRange(basisStates, backend.numStates);
      if !ok { return; }
      backend.ValidIsReady();
      ResetAffineOverlay();
      ok := backend.InitUniformSuperposition(backend.numQubits, basisStates);
      ShowsStore();
    }

    /** `flushAffineOverlay`: the store takes over what the overlay showed; the sum is left as it is. */
    method FlushAffineOverlay()
      requires backend.Valid() && IsReflection(overlay)
      modifies this, backend.cache, backend.store`payloads
      ensures backend.Valid() && overlay == IDENTITY && cachedSum == old(cachedSum)
      ensures backend.Logical() == ApplyAll(old(overlay), old(backend.Logical()))
      ensures old(Abs()).Some? ==> Abs() == old(Abs())
    {
      hide Abs, Image, Affine, ApplyAll, CompressedStateBackend.Abs;
      ghost var v := backend.Logical();
      Seen();
      FlushStores(overlay, v);
      if Abs().Some? {
        ImageFlushed(overlay, cachedSum, v);
      }
      if overlay.active {
        var savedSum := cachedSum;
        backend.ApplyAffineTransform(overlay.scale, overlay.bias);
        ResetAffineOverlay();
        cachedSum := savedSum;
      }
      Seen();
    }

    /** The reflection about a caller-supplied mean, lazily: only the overlay and the sum change. */
    method InversionAboutGivenMean(mean: Amp)
      requires Valid()
      modifies this
      ensures Valid() && Logical() == InvertWith(old(Logical()), mean) && overlay.active
    {
      ImageReflect(overlay, cachedSum, backend.Logical(), mean);
      hide Image, Reflected, InvertWith;
      cachedSum := ReflectedSum(cachedSum, mean, backend.numStates);
      overlay := Reflected(overlay, mean);
    }

    /** The same through the store. */
    method InversionAboutGivenMeanMaterialized(mean: Amp)
      requires Valid()
      modifies this, backend.cache, backend.store`payloads
      ensures Valid() && Logical() == InvertWith(old(Logical()), mean) && !overlay.active
    {
      hide Abs, Image, InvertWith, ApplyAll, CompressedStateBackend.Abs;
      ghost var v := Logical();
      Seen();
      SeenThrough();
      ImageFlushed(overlay, cachedSum, backend.Logical());
      ImageReflectStored(cachedSum, v, mean);
      cachedSum := ReflectedSum(cachedSum, mean, backend.numStates);
      FlushAffineOverlay();
      backend.InversionAboutGivenMean(mean);
      Seen();
    }

    /** Diffusion: both ways reflect about the mean of the logical amplitudes. */
    method InversionAboutMean(materialized: bool)
      requires Valid()
      modifies this, backend.cache, backend.store`payloads
      ensures Valid() && Logical() == InvertWith(old(Logical()), Mean(old(Logical())))
      ensures overlay.active == !materialized
    {
      var sum := LogicalAmplitudeSum();
      var n := backend.numStates as real;
      var mean := Amp(sum.re / n, sum.im / n);
      if materialized {
        InversionAboutGivenMeanMaterialized(mean);
      } else {
        InversionAboutGivenMean(mean);
      }
    }

    /** The basis-state phase flip, with its three paths. */
    method PhaseFlipBasisState(s: nat) returns (ok: bool)
      requires Valid()
      modifies this`cachedSum, backend.cache, backend.store`payloads
      ensures Valid() && ok == (s < backend.numStates)
      ensures Logical() == if ok then PhaseFlip(old(Logical()), s) else old(Logical())
    {
      hide Image, RemoveOverlay, PhaseFlip, ApplyOverlay, Neg, Abs, CompressedStateBackend.Abs;
      if s >= backend.numStates { return false; }
      ghost var v, w := backend.Logical(), Logical();
      Seen();
      ImageFlip(overlay, cachedSum, v, s);
      ok := true;
      if cachedSum.Some? || overlay.active {
        var logical := Amplitude(s);
        assert logical.value == w[s];
        cachedSum := FlippedSum(cachedSum, logical.value);
        if overlay.active {
          var stored := RemoveOverlay(overlay, Neg(logical.value)).value;
          ok := backend.SetAmplitude(s, stored);
          Seen();
          return;
        }
      }
      ok := backend.PhaseFlipBasisState(s);
      Seen();
    }

    // ------------------------------------------------------------------ gates

    method ApplyHadamard(q: nat) returns (ok: bool)
      requires Valid()
      modifies this, backend.cache, backend.store`payloads
      ensures Valid() && ok == (q < backend.numQubits)
      ensures Logical() ==
              if ok then Hadamard(old(Logical()), backend.numQubits, q, backend.num.invSqrt(2)) else old(Logical())
    {
      hide Abs, ApplyAll, CompressedStateBackend.Abs;
      if q >= backend.numQubits { return false; }
      SeenThrough();
      FlushAffineOverlay();
      ok := backend.ApplyHadamard(q);
      cachedSum := None;
      ShowsStore();
    }

    method ApplyPauliX(q: nat) returns (ok: bool)
      requires Valid()
      modifies this, backend.cache, backend.store`payloads
      ensures Valid() && ok == (q < backend.numQubits)
      ensures Logical() == if ok then PauliX(old(Logical()), backend.numQubits, q) else old(Logical())
    {
      hide Abs, ApplyAll, CompressedStateBackend.Abs;
      if q >= backend.numQubits { return false; }
      SeenThrough();
      FlushAffineOverlay();
      ok := backend.ApplyPauliX(q);
      cachedSum := None;
      ShowsStore();
    }

    method ApplyControlledPhaseShift(c: nat, t: nat, phase: Amp) returns (ok: bool)
      requires Valid()
      modifies this, backend.cache, backend.store`payloads
      ensures Valid() && ok == (c < backend.numQubits && t < backend.numQubits && c != t)
      ensures Logical() ==
              if ok then ControlledPhase(old(Logical()), backend.numQubits, c, t, phase) else old(Logical())
    {
      hide Abs, ApplyAll, CompressedStateBackend.Abs;
      if c >= backend.numQubits || t >= backend.numQubits || c == t { return false; }
      SeenThrough();
      FlushAffineOverlay();
      ok := backend.ApplyControlledPhaseShift(c, t, phase);
      cachedSum := None;
      ShowsStore();
    }

    method ApplyControlledNot(c: nat, t: nat) returns (ok: bool)
      requires Valid()
      modifies this, backend.cache, backend.store`payloads
      ensures Valid() && ok == (c < backend.numQubits && t < backend.numQubits && c != t)
      ensures Logical() == if ok then ControlledNot(old(Logical()), backend.numQubits, c, t) else old(Logical())
    {
      hide Abs, ApplyAll, CompressedStateBackend.Abs;
      if c >= backend.numQubits || t >= backend.numQubits || c == t { return false; }
      SeenThrough();
      FlushAffineOverlay();
      ok := backend.ApplyControlledNot(c, t);
      cachedSum := None;
      ShowsStore();
    }

    /** Three controlled-NOTs. */
    method ApplySwap(a: nat, b: nat) returns (ok: bool)
      requires Valid()
      modifies this, backend.cache, backend.store`payloads
      ensures Valid() && ok == (a < backend.numQubits && b < backend.numQubits && a != b)
      ensures Logical() == if ok then Swap(old(Logical()), backend.numQubits, a, b) else old(Logical())
    {
      hide Abs, CompressedStateBackend.Abs, ControlledNot;
      if a >= backend.numQubits || b >= backend.numQubits || a == b { return false; }
      ok := ApplyControlledNot(a, b);
      ok := ApplyControlledNot(b, a);
      ok := ApplyControlledNot(a, b);
    }

    method ApplyGate(g: QuantumGate, qubits: seq<nat>) returns (ok: bool)
      requires Valid() && g.Square()
      modifies this, backend.cache, backend.store`payloads
      ensures Valid() && (ok <==> GateFits(g, qubits, backend.numQubits))
      ensures Logical() ==
              if ok then DispatchedGate(old(Logical()), backend.numQubits, g, qubits, backend.num) else old(Logical())
    {
      hide Abs, ApplyAll, CompressedStateBackend.Abs, DispatchedGate;
      ok := ValidateGateTargets(qubits, backend.numQubits, |g.rows|);
      if ok {
        SeenThrough();
        FlushAffineOverlay();
        ok := backend.ApplyGate(g, qubits);
        cachedSum := None;
        ShowsStore();
      }
    }

    // ----------------------------------------------------------------- batches

    method BeginOperationBatch()
      requires Valid()
      modifies backend`batchDepth
      ensures Valid() && Abs() == old(Abs()) && backend.batchDepth == old(backend.batchDepth) + 1
    {
      backend.BeginOperationBatch();
    }

    method EndOperationBatch() returns (ok: bool)
      requires Valid()
      modifies backend`batchDepth, backend.cache`slots, backend.store`payloads
      ensures Valid() && Abs() == old(Abs()) && ok == (old(backend.batchDepth) > 0)
      ensures backend.batchDepth == if ok then old(backend.batchDepth) - 1 else 0
    {
      ok := backend.EndOperationBatch();
    }
  }
}
