/** The chunked, compressed, write-back cached store. */
module CompressedBackend {
  import opened Amplitudes
  import opened Bits
  import opened PairKernels
  import opened PairKernelExecutor
  import opened Gates
  import opened GateBlocks
  import opened BlockEngine
  import opened BasisLists
  import opened StateOps
  import opened GateMatch
  import opened ChunkLayouts
  import opened ChunkStores
  import opened ChunkCaches
  import opened ChunkViews
  import opened Options
  import opened DenseBackend
  import opened Runs = BackendRuns

  class CompressedStateBackend<P> {
    const num: Numerics
    const chunkStates: nat
    const cacheSlots: nat
    const cache: ChunkCache
    const store: ChunkStore<P>
    var numQubits: nat
    var numStates: nat
    var layout: ChunkLayout
    var batchDepth: nat

    /** The sizes fit together. */
    ghost predicate Geometry()
      reads this
    {
      && chunkStates >= 1 && cacheSlots >= 2
      && numQubits <= 31 && numStates == Pow2(numQubits)
      && layout.Valid() && layout.totalStates == numStates && layout.statesPerChunk == chunkStates
    }

    /** The state vector this store stands for; `None` if one of its invariants is broken. */
    ghost function Abs(): (v: Option<Vec>)
      reads this, cache, store
      ensures v.Some? ==> Geometry() && |v.value| == numStates && |cache.chunkToSlot| == layout.chunkCount
      ensures v.Some? ==> cache.capacity == Min(cacheSlots, layout.chunkCount)
    {
      if Geometry() && cache.capacity == Min(cacheSlots, layout.chunkCount)
      then VectorOf(layout, cache.Contents(store)) else None
    }

    /** Between operations the invariants hold, and outside a batch nothing is dirty. */
    ghost predicate Valid()
      reads this, cache, store
    {
      Abs().Some? && (batchDepth == 0 ==> Clean(cache.slots))
    }

    ghost function Logical(): (v: Vec)
      requires Abs().Some?
      reads this, cache, store
      ensures |v| == numStates == Pow2(numQubits)
    {
      Abs().value
    }

    /** Outside a batch the payloads alone decode to the state vector. */
    lemma PayloadsSuffice()
      requires Valid() && batchDepth == 0
      ensures |store.payloads| == |store.counts|
      ensures Shaped(layout, store.Decoded()) && Flatten(layout, store.Decoded()) == Logical()
    {
      CleanReading(cache.State(), store.Decoded());
    }

    // ---------------------------------------------------------- initialisation

    /** What initialisation needs: a sane configuration and a lossless codec. */
    ghost predicate Ready()
      reads this, store
    {
      chunkStates >= 1 && cacheSlots >= 2 && store.Sized()
    }

    /** A valid store can be initialised again. */
    lemma ValidIsReady()
      requires Abs().Some?
      ensures Ready() && numQubits <= 31 && numStates == Pow2(numQubits)
    {
    }

    /** An empty cache over chunks of the right widths, no open batch, and the first `c` chunks of `v` encoded. */
    ghost predicate Building(v: Vec, c: nat)
      reads this, cache, store
    {
      && Geometry() && batchDepth == 0 && |v| == numStates && c <= layout.chunkCount
      && store.Sized() && Widths(layout, store.counts)
      && (forall i | 0 <= i < c :: store.Holds(i, ChunkSlice(layout, v, i)))
      && (forall i | c <= i < layout.chunkCount :: store.payloads[i].None?)
      && cache.touchCounter == 0
      && cache.State() == EmptyCache(Min(cacheSlots, layout.chunkCount), layout.chunkCount)
    }

    /** The size being initialised, while `Building` holds. */
    ghost function Encoding(v: Vec, c: nat): Option<nat>
      reads this, cache, store
    {
      if Building(v, c) then Some(numQubits) else None
    }

    lemma EncodingGeometry(v: Vec, c: nat)
      requires Encoding(v, c).Some?
      ensures layout.Valid() && layout.totalStates == |v| == numStates && batchDepth == 0
      ensures Encoding(v, c) == Some(numQubits)
    {
    }

    lemma BuiltStore(v: Vec)
      requires Building(v, layout.chunkCount)
      ensures store.Valid() && store.Decoded() == Slices(layout, v, layout.chunkCount)
    {
      var chunks := Slices(layout, v, layout.chunkCount);
      forall c | 0 <= c < |chunks|
        ensures store.Holds(c, chunks[c]) && |chunks[c]| == store.counts[c]
      {
        assert store.Holds(c, ChunkSlice(layout, v, c));
      }
      store.AllHeld(chunks);
    }

    /** Once all chunks are encoded the store is valid and stands for the vector. */
    lemma Built(v: Vec)
      requires Encoding(v, layout.chunkCount).Some?
      ensures Valid() && Abs() == Some(v)
    {
      BuiltStore(v);
      EmptyReading(Min(cacheSlots, layout.chunkCount), store.Decoded());
      FlattenSlices(layout, v);
      hide Slices, Flatten, Shaped;
    }

    /** The state an initialisation that fails after `configureStorage` leaves: no chunk has a payload any more. */
    ghost predicate Dropped()
      reads this, cache, store
    {
      exists v: Vec :: Encoding(v, 0).Some?
    }

    /** Nothing is stored before the first initialisation. */
    constructor (num: Numerics, codec: Codec<P>, chunkStates: nat, cacheSlots: nat)
      requires chunkStates >= 1 && cacheSlots >= 2 && codec.Lossless()
      ensures Ready() && fresh(cache) && fresh(store) && numStates == 0 && store.counts == []
      ensures this.num == num && this.chunkStates == chunkStates && this.cacheSlots == cacheSlots
    {
      this.num, this.chunkStates, this.cacheSlots := num, chunkStates, cacheSlots;
      cache := new ChunkCache();
      store := new ChunkStore(codec);
      numQubits, numStates, batchDepth := 0, 0, 0;
      layout := ChunkLayout(0, 0, 0, 0, 0);
      new;
      var configured := cache.Configure(cacheSlots, 1);
    }

    /** `configureStorage`: every initialisation resets chunks, cache and batch depth. */
    method ConfigureStorage(n: nat, ghost v: Vec)
      requires Ready() && n <= 31 && |v| == Pow2(n)
      modifies this, cache, store
      ensures Encoding(v, 0) == Some(n)
    {
      numQubits, numStates := n, Pow2(n);
      layout := MakeLayout(numStates, chunkStates).value;
      var widths := WidthsOf(layout);
      store.Configure(widths);
      var configured := cache.Configure(Min(cacheSlots, layout.chunkCount), layout.chunkCount);
      batchDepth := 0;
    }

    method EncodeChunk(chunk: Vec, ghost v: Vec, c: nat)
      requires Encoding(v, c).Some? && c < layout.chunkCount && layout.Valid() && layout.totalStates == |v|
      requires chunk == ChunkSlice(layout, v, c)
      modifies store`payloads
      ensures Encoding(v, c + 1) == old(Encoding(v, c))
    {
      ghost var before := store.payloads;
      var stored := store.StoreChunk(c, chunk, store.counts[c]);
      assert forall i | 0 <= i < |before| && i != c :: store.payloads[i] == before[i];
    }

    method InitZero(n: nat)
      requires Ready() && n <= 31
      modifies this, cache, store
      ensures Valid() && numQubits == n && batchDepth == 0
      ensures Logical() == ZeroVec(n)
    {
      hide Encoding, Abs;
      ghost var v := ZeroVec(n);
      ConfigureStorage(n, v);
      EncodingGeometry(v, 0);
      var c: nat := 0;
      while c < layout.chunkCount
        invariant layout.Valid() && layout.totalStates == Pow2(n)
        invariant c <= layout.chunkCount && Encoding(v, c) == Some(n)
      {
        var zeroChunk := seq(layout.StatesIn(c), _ => ZERO);
        ZeroSlice(layout, n, c);
        EncodeChunk(zeroChunk, v, c);
        c := c + 1;
      }
      EncodingGeometry(v, c);
      Built(v);
    }

    method InitBasis(n: nat, initState: nat, amp: Amp) returns (ok: bool)
      requires Ready() && n <= 31
      modifies this, cache, store
      ensures Valid() && numQubits == n && batchDepth == 0 && ok == (initState < Pow2(n))
      ensures Logical() == if ok then ZeroVec(n)[initState := amp] else ZeroVec(n)
    {
      InitZero(n);
      if initState >= numStates { return false; }
      WriteAmplitude(initState, amp);
      FlushCacheIfNeeded();
      ok := true;
    }

    /** A vector of the wrong length is an error that comes after the old payloads are gone. */
    method LoadAmplitudes(n: nat, amplitudes: Vec) returns (ok: bool)
      requires Ready() && n <= 31
      modifies this, cache, store
      ensures numQubits == n && batchDepth == 0 && ok == (|amplitudes| == Pow2(n))
      ensures if ok then Valid() && Logical() == amplitudes else Dropped()
    {
      hide Encoding, Abs, Pow2;
      if |amplitudes| != Pow2(n) {
        ConfigureStorage(n, ZeroVec(n));
        EncodingGeometry(ZeroVec(n), 0);
        return false;
      }
      ConfigureStorage(n, amplitudes);
      EncodingGeometry(amplitudes, 0);
      var c: nat := 0;
      while c < layout.chunkCount
        invariant layout.Valid() && layout.totalStates == |amplitudes|
        invariant c <= layout.chunkCount && Encoding(amplitudes, c) == Some(n)
      {
        layout.ChunkShape(c);
        var begin := c * layout.statesPerChunk;
        EncodeChunk(amplitudes[begin..begin + layout.StatesIn(c)], amplitudes, c);
        c := c + 1;
      }
      EncodingGeometry(amplitudes, c);
      Built(amplitudes);
      ok := true;
    }

    /**
     * The cursor merge: one pass over the sorted states fills the chunks in order. An empty list and an
     * out-of-range state are errors that come after the old payloads are gone.
     */
    method InitUniformSuperposition(n: nat, basisStates: seq<nat>) returns (ok: bool)
      requires Ready() && n <= 31
      modifies this, cache, store
      ensures numQubits == n && batchDepth == 0 && ok == ListFits(basisStates, n)
      ensures if ok then Valid() && Logical() == UniformVec(n, basisStates, num.invSqrt(|SortUnique(basisStates)|))
              else Dropped()
    {
      hide Encoding, Abs, SortUnique, UniformVec;
      var selected := SortUnique(basisStates);
      ghost var v := UniformVec(n, basisStates, num.invSqrt(|selected|));
      ConfigureStorage(n, v);
      EncodingGeometry(v, 0);
      ok := CheckRange(basisStates, numStates);
      if !ok || |selected| == 0 { return false; }
      FillUniform(n, basisStates, selected, num.invSqrt(|selected|));
    }

    /** The cursor loop. */
    method FillUniform(n: nat, ghost basisStates: seq<nat>, selected: seq<nat>, r: real)
      requires Encoding(UniformVec(n, basisStates, r), 0) == Some(n)
      requires selected == SortUnique(basisStates)
      modifies store`payloads
      ensures Valid() && Logical() == UniformVec(n, basisStates, r)
    {
      hide Encoding, Abs, SortUnique, UniformVec;
      ghost var v := UniformVec(n, basisStates, r);
      EncodingGeometry(v, 0);
      var selectedPos: nat := 0;
      var c: nat := 0;
      while c < layout.chunkCount
        invariant layout.Valid() && layout.totalStates == Pow2(n)
        invariant c <= layout.chunkCount && selectedPos <= |selected| && Encoding(v, c) == Some(n)
        invariant c < layout.chunkCount ==> CursorAt(selected, selectedPos, layout.ChunkStateBegin(c))
      {
        layout.ChunkShape(c);
        var begin, denseChunk := layout.ChunkStateBegin(c), [];
        denseChunk, selectedPos := MergeChunk(selected, selectedPos, begin, layout.StatesIn(c), r);
        UniformSlice(layout, n, basisStates, selected, r, c, denseChunk);
        EncodeChunk(denseChunk, v, c);
        c := c + 1;
      }
      EncodingGeometry(v, c);
      Built(v);
    }

    // ------------------------------------------------------------ chunk access

    method AcquireChunk(c: nat) returns (slotIndex: nat)
      requires Abs().Some? && c < layout.chunkCount
      modifies cache, store`payloads
      ensures Abs() == old(Abs()) && Acquired(old(cache.State()), cache.State(), c, slotIndex)
      ensures slotIndex < |cache.slots| && cache.slots[slotIndex].chunkIndex == c
    {
      var acquired := cache.Acquire(store, c);
      slotIndex := acquired.value;
    }

    /** What a slot holds at a state's home is what the vector holds there. */
    lemma SlotHolds(slotIndex: nat, s: nat, c: nat, l: nat)
      requires Abs().Some? && slotIndex < |cache.slots| && cache.slots[slotIndex].chunkIndex == c
      requires IsHome(layout, s, c, l)
      ensures s < numStates && l < |cache.slots[slotIndex].buffer|
      ensures cache.slots[slotIndex].buffer[l] == Abs().value[s]
    {
      SlotReading(cache.State(), store.Decoded(), slotIndex);
      HomeHolds(layout, cache.Contents(store), s, c, l);
    }

    /** A kernel's write through a slot handle, seen as a write to one state. */
    method WriteSlot(slotIndex: nat, ghost s: nat, ghost c: nat, l: nat, a: Amp, mark: bool)
      requires Abs().Some? && slotIndex < |cache.slots| && cache.slots[slotIndex].chunkIndex == c
      requires IsHome(layout, s, c, l)
      requires l < |cache.slots[slotIndex].buffer| && (mark || cache.slots[slotIndex].buffer[l] == a)
      modifies cache`slots
      ensures cache.State() == Written(old(cache.State()), slotIndex, l, a, mark)
      ensures s < numStates && Abs() == Some(old(Abs()).value[s := a])
    {
      HomeWrite(layout, cache.Contents(store), s, c, l, a);
      hide VectorOf, Reading;
      cache.WriteThrough(store, slotIndex, l, a, mark);
    }

    /** `acquireAmplitudeRef`: the slot holding state `s`, and where in it. */
    method AcquireAmplitudeRef(s: nat) returns (slot: nat, ghost c: nat, l: nat)
      requires Abs().Some? && s < numStates
      modifies cache, store`payloads
      ensures Abs() == old(Abs()) && Acquired(old(cache.State()), cache.State(), c, slot)
      ensures slot < |cache.slots| && cache.slots[slot].chunkIndex == c
      ensures IsHome(layout, s, c, l) && l < |cache.slots[slot].buffer|
      ensures cache.slots[slot].buffer[l] == Abs().value[s]
    {
      HomeOf(layout, s);
      var ref := layout.StateRef(s);
      c, l := ref.chunkIndex, ref.elemOffset / 2;
      slot := AcquireChunk(ref.chunkIndex);
      SlotHolds(slot, s, c, l);
    }

    /** `writeAmplitudeMutable`. */
    method WriteAmplitude(s: nat, a: Amp)
      requires Abs().Some? && s < numStates
      modifies cache, store`payloads
      ensures Abs() == Some(old(Abs()).value[s := a])
    {
      hide Abs;
      ghost var c;
      var slot, l;
      slot, c, l := AcquireAmplitudeRef(s);
      WriteSlot(slot, s, c, l, a, true);
    }

    /** `readAmplitudeMutable`. */
    method ReadAmplitude(s: nat) returns (a: Amp)
      requires Abs().Some? && s < numStates
      modifies cache, store`payloads
      ensures Abs() == old(Abs()) && a == Abs().value[s]
      ensures Clean(old(cache.slots)) ==> Clean(cache.slots)
    {
      hide Abs;
      ghost var c;
      var slot, l;
      slot, c, l := AcquireAmplitudeRef(s);
      a := cache.slots[slot].buffer[l];
    }

    method FlushCache()
      requires Abs().Some?
      modifies cache`slots, store`payloads
      ensures Abs() == old(Abs()) && Clean(cache.slots)
    {
      cache.FlushAll(store);
    }

    method FlushCacheIfNeeded()
      requires Abs().Some?
      modifies cache`slots, store`payloads
      ensures Valid() && Abs() == old(Abs())
    {
      if batchDepth == 0 {
        FlushCache();
      }
    }

    // ------------------------------------------------------------ pair kernels

    /** The intra-chunk callback: both amplitudes live in the active slot. */
    method VisitIntra(slot: nat, v: IntraVisit, f: PairFn, ghost k: nat)
      requires Abs().Some? && Honest(f) && slot < |cache.slots| && cache.slots[slot].chunkIndex == v.chunkIndex
      requires InChunk(layout, v) && v.pair.state1 == v.pair.state0 + Pow2(k)
      modifies cache`slots
      ensures v.pair.state1 < numStates && Abs() == Some(PairStep(old(Abs()).value, k, f, v.pair.state0))
      ensures SameMapping(old(cache.State()), cache.State())
    {
      hide Abs;
      SlotHolds(slot, v.pair.state0, v.chunkIndex, v.local0);
      SlotHolds(slot, v.pair.state1, v.chunkIndex, v.local1);
      var a0, a1 := cache.slots[slot].buffer[v.local0], cache.slots[slot].buffer[v.local1];
      var out := f(v.pair.state0, v.pair.state1, a0, a1);
      var mark := out.mutation != Neither;
      WriteSlot(slot, v.pair.state0, v.chunkIndex, v.local0, out.a0, mark);
      WriteSlot(slot, v.pair.state1, v.chunkIndex, v.local1, out.a1, mark);
    }

    /** The inter-chunk callback: the amplitudes live at one position of two slots. */
    method VisitInter(slot0: nat, slot1: nat, v: InterVisit, f: PairFn, ghost k: nat, ghost delta: nat)
      requires Abs().Some? && Honest(f) && slot0 < |cache.slots| && slot1 < |cache.slots|
      requires cache.slots[slot0].chunkIndex == v.chunk0 && cache.slots[slot1].chunkIndex == v.chunk1
      requires AcrossChunks(layout, delta, v) && v.pair.state1 == v.pair.state0 + Pow2(k)
      modifies cache`slots
      ensures v.pair.state1 < numStates && Abs() == Some(PairStep(old(Abs()).value, k, f, v.pair.state0))
      ensures SameMapping(old(cache.State()), cache.State())
    {
      hide Abs;
      SlotHolds(slot0, v.pair.state0, v.chunk0, v.local);
      SlotHolds(slot1, v.pair.state1, v.chunk1, v.local);
      var a0, a1 := cache.slots[slot0].buffer[v.local], cache.slots[slot1].buffer[v.local];
      var out := f(v.pair.state0, v.pair.state1, a0, a1);
      WriteSlot(slot0, v.pair.state0, v.chunk0, v.local, out.a0, TouchesFirst(out.mutation));
      WriteSlot(slot1, v.pair.state1, v.chunk1, v.local, out.a1, TouchesSecond(out.mutation));
    }

    /** The generic callback: both amplitudes are acquired, one after the other. */
    method VisitFallback(s0: nat, s1: nat, f: PairFn, ghost k: nat)
      requires Abs().Some? && Honest(f) && s1 == s0 + Pow2(k) < numStates
      modifies cache, store`payloads
      ensures Abs() == Some(PairStep(old(Abs()).value, k, f, s0))
    {
      hide Abs, Acquired;
      ghost var c0, c1;
      var slot0, l0, slot1, l1;
      ghost var st0 := cache.State();
      slot0, c0, l0 := AcquireAmplitudeRef(s0);
      ghost var st1 := cache.State();
      slot1, c1, l1 := AcquireAmplitudeRef(s1);
      BothHandles(st0, st1, c0, slot0, c1, slot1);
      SlotHolds(slot0, s0, c0, l0);
      var out := f(s0, s1, cache.slots[slot0].buffer[l0], cache.slots[slot1].buffer[l1]);
      if out.mutation == Neither {
        assert PairStep(Abs().value, k, f, s0) == Abs().value;
        return;
      }
      WritePair(slot0, s0, c0, l0, slot1, s1, c1, l1, out);
    }

    /** Both writes of one pair; two states of one chunk share its dirty flag. */
    method WritePair(slot0: nat, ghost s0: nat, ghost c0: nat, l0: nat, slot1: nat, ghost s1: nat, ghost c1: nat,
                     l1: nat, out: PairOut)
      requires Abs().Some? && s0 < s1 < numStates && IsHome(layout, s0, c0, l0) && IsHome(layout, s1, c1, l1)
      requires slot0 < |cache.slots| && cache.slots[slot0].chunkIndex == c0
      requires slot1 < |cache.slots| && cache.slots[slot1].chunkIndex == c1
      requires TouchesFirst(out.mutation) || out.a0 == Abs().value[s0]
      requires TouchesSecond(out.mutation) || out.a1 == Abs().value[s1]
      modifies cache`slots
      ensures Abs() == Some(old(Abs()).value[s0 := out.a0][s1 := out.a1])
    {
      hide Abs;
      SlotHolds(slot0, s0, c0, l0);
      SlotHolds(slot1, s1, c1, l1);
      var sameSlot := slot0 == slot1;
      WriteSlot(slot0, s0, c0, l0, out.a0, sameSlot || TouchesFirst(out.mutation));
      SlotHolds(slot1, s1, c1, l1);
      WriteSlot(slot1, s1, c1, l1, out.a1, sameSlot || TouchesSecond(out.mutation));
    }

    lemma BothHandles(st0: CacheState, st1: CacheState, c0: nat, slot0: nat, c1: nat, slot1: nat)
      requires Abs().Some? && Acquired(st0, st1, c0, slot0) && Acquired(st1, cache.State(), c1, slot1)
      ensures slot0 < |cache.slots| && cache.slots[slot0].chunkIndex == c0
      ensures slot1 < |cache.slots| && cache.slots[slot1].chunkIndex == c1
      ensures c0 != c1 ==> slot0 != slot1
    {
      hide Acquired, Reading;
      TwoHandles(st0, st1, cache.State(), store.Decoded(), c0, slot0, c1, slot1);
    }

    method RunFallbackKernel(k: nat, f: PairFn)
      requires Abs().Some? && Honest(f) && k < numQubits
      modifies cache, store`payloads
      ensures Abs() == Some(PairMap(old(Abs()).value, numQubits, k, f))
    {
      hide Abs;
      ghost var v, states := Abs().value, ClearStates(numStates, k);
      VisitsAreMap(v, numQubits, k, f);
      var visits := RunFallback(numStates, Pow2(k), numQubits, k);
      var i := 0;
      while i < |visits|
        invariant i <= |visits| == |states| && Abs() == Some(RunVisits(v, k, f, states[..i]))
      {
        NextVisit(v, k, f, states, i, visits);
        VisitFallback(visits[i].state0, visits[i].state1, f, k);
        i := i + 1;
      }
      assert states[..i] == states;
    }

    method RunIntraKernel(k: nat, f: PairFn)
      requires Abs().Some? && Honest(f) && k < numQubits && SelectMode(layout, Pow2(k)) == IntraChunk
      modifies cache, store`payloads
      ensures Abs() == Some(PairMap(old(Abs()).value, numQubits, k, f))
    {
      hide Abs, Acquired, SelectMode, PairStep, RunVisits, PairMap;
      ghost var v, states := Abs().value, ClearStates(numStates, k);
      VisitsAreMap(v, numQubits, k, f);
      NoVisits(v, k, f);
      var visits := RunIntraChunk(layout, Pow2(k), numQubits, k);
      ghost var pairs := IntraPairs(visits);
      var activeChunk, activeSlot: nat := INVALID, 0;
      var i := 0;
      while i < |visits|
        invariant i <= |visits| == |states| && Abs() == Some(RunVisits(v, k, f, states[..i]))
        invariant activeChunk != INVALID ==>
                    activeSlot < |cache.slots| && cache.slots[activeSlot].chunkIndex == activeChunk
      {
        NextVisit(v, k, f, states, i, pairs);
        var visit := visits[i];
        assert pairs[i] == visit.pair && InChunk(layout, visit);
        if activeChunk != visit.chunkIndex {
          activeSlot := AcquireChunk(visit.chunkIndex);
          activeChunk := visit.chunkIndex;
        }
        VisitIntra(activeSlot, visit, f, k);
        i := i + 1;
      }
      assert states[..i] == states;
    }

    /** The two slots for the next callback: acquired anew unless they are the remembered ones. */
    method TakeHandles(chunk0Active: int, chunk1Active: int, s0: nat, s1: nat, visit: InterVisit, ghost delta: nat)
      returns (slot0: nat, slot1: nat)
      requires Abs().Some? && cache.capacity >= 2
      requires visit.chunk0 < layout.chunkCount && visit.chunk1 < layout.chunkCount
      requires visit.chunk1 == visit.chunk0 + delta
      requires if chunk0Active == INVALID then chunk1Active == INVALID else chunk1Active == chunk0Active + delta
      requires chunk0Active != INVALID ==> s0 < |cache.slots| && cache.slots[s0].chunkIndex == chunk0Active
      requires chunk0Active != INVALID ==> s1 < |cache.slots| && cache.slots[s1].chunkIndex == chunk1Active
      modifies cache, store`payloads
      ensures Abs() == old(Abs()) && cache.capacity >= 2
      ensures slot0 < |cache.slots| && cache.slots[slot0].chunkIndex == visit.chunk0
      ensures slot1 < |cache.slots| && cache.slots[slot1].chunkIndex == visit.chunk1
    {
      hide Abs, Acquired;
      slot0, slot1 := s0, s1;
      ghost var st0 := cache.State();
      if chunk0Active != visit.chunk0 {
        slot0 := AcquireChunk(visit.chunk0);
      }
      ghost var st1 := cache.State();
      if chunk1Active != visit.chunk1 {
        slot1 := AcquireChunk(visit.chunk1);
        BothHandles(st0, st1, visit.chunk0, slot0, visit.chunk1, slot1);
      }
    }

    method RunInterKernel(k: nat, f: PairFn)
      requires Abs().Some? && Honest(f) && k < numQubits && SelectMode(layout, Pow2(k)) == InterChunk
      requires cache.capacity >= 2
      modifies cache, store`payloads
      ensures Abs() == Some(PairMap(old(Abs()).value, numQubits, k, f))
    {
      hide Abs, SelectMode, PairStep, RunVisits, PairMap;
      ghost var v, states := Abs().value, ClearStates(numStates, k);
      VisitsAreMap(v, numQubits, k, f);
      NoVisits(v, k, f);
      var visits := RunInterChunk(layout, Pow2(k), numQubits, k);
      ghost var pairs, delta := InterPairs(visits), Pow2(k) / layout.statesPerChunk;
      var chunk0Active, chunk1Active, slot0: nat, slot1: nat := INVALID, INVALID, 0, 0;
      var i := 0;
      while i < |visits|
        invariant i <= |visits| == |states| && Abs() == Some(RunVisits(v, k, f, states[..i])) && cache.capacity >= 2
        invariant if chunk0Active == INVALID then chunk1Active == INVALID else chunk1Active == chunk0Active + delta
        invariant chunk0Active != INVALID ==> slot0 < |cache.slots| && cache.slots[slot0].chunkIndex == chunk0Active
        invariant chunk0Active != INVALID ==> slot1 < |cache.slots| && cache.slots[slot1].chunkIndex == chunk1Active
      {
        NextVisit(v, k, f, states, i, pairs);
        var visit := visits[i];
        assert pairs[i] == visit.pair && AcrossChunks(layout, delta, visit);
        slot0, slot1 := TakeHandles(chunk0Active, chunk1Active, slot0, slot1, visit, delta);
        chunk0Active, chunk1Active := visit.chunk0, visit.chunk1;
        VisitInter(slot0, slot1, visit, f, k, delta);
        i := i + 1;
      }
      assert states[..i] == states;
    }

    /** `runPairKernel`: whatever traversal the geometry selects, the kernel is applied to every pair. */
    method RunPairKernel(k: nat, f: PairFn)
      requires Abs().Some? && Honest(f) && k < numQubits
      modifies cache, store`payloads
      ensures Abs() == Some(PairMap(old(Abs()).value, numQubits, k, f))
    {
      hide Abs;
      var mode := SelectMode(layout, Pow2(k));
      if mode == IntraChunk {
        RunIntraKernel(k, f);
      } else if mode == InterChunk && cache.capacity >= 2 {
        RunInterKernel(k, f);
      } else {
        RunFallbackKernel(k, f);
      }
    }

    // ------------------------------------------------------- whole-vector passes

    /** A chunk's content without touching the cache: the cached buffer, or the payload decoded into scratch. */
    method PeekChunk(c: nat) returns (data: Option<Vec>)
      requires (Abs().Some? || Dropped()) && c < layout.chunkCount
      ensures Abs().Some? ==> data.Some? && IsChunk(layout, Abs().value, c, data.value)
      ensures Dropped() ==> data.None?
    {
      PeekRight(c);
      hide Abs, Dropped, IsChunk;
      var cached := cache.FindBuffer(c);
      if cached.Some? {
        data := cached;
      } else {
        data := store.LoadChunk(c, store.counts[c]);
      }
    }

    /** Where a chunk's content is; after a failed initialisation, nowhere. */
    lemma PeekRight(c: nat)
      requires (Abs().Some? || Dropped()) && c < layout.chunkCount
      ensures store.Sized() && c < |store.counts| && c < |cache.chunkToSlot|
      ensures cache.chunkToSlot[c] == INVALID || 0 <= cache.chunkToSlot[c] < |cache.slots|
      ensures Dropped() ==> cache.chunkToSlot[c] == INVALID && store.payloads[c].None?
      ensures Abs().Some? ==> store.payloads[c].Some? &&
                              IsChunk(layout, Abs().value, c,
                                      if cache.chunkToSlot[c] == INVALID then store.Decoded()[c]
                                      else cache.slots[cache.chunkToSlot[c]].buffer)
    {
      if Abs().Some? {
        ChunkReading(cache.State(), store.Decoded(), c);
        ContentIsChunk(layout, cache.Contents(store), c);
      }
    }

    /** The in-place loop over one chunk: every amplitude goes through `g`, and the slot is dirty. */
    method MapChunk(c: nat, g: Amp -> Amp, ghost v: Vec, ghost m: nat)
      requires c < layout.chunkCount && AtChunk(layout, c, m) && |v| == numStates && Abs() == Some(MapUpTo(v, g, m))
      modifies cache, store`payloads
      ensures m + layout.StatesIn(c) <= numStates && AtChunk(layout, c + 1, m + layout.StatesIn(c))
      ensures Abs() == Some(MapUpTo(v, g, m + layout.StatesIn(c)))
    {
      hide Abs, Acquired, MapUpTo;
      var slot := AcquireChunk(c);
      var l := 0;
      ChunkLoopStep(layout, v, c, m, ChunkSlice(layout, v, c));
      while l < layout.ChunkElemCount(c) / 2
        invariant l <= layout.StatesIn(c) && Abs() == Some(MapUpTo(v, g, m + l))
        invariant slot < |cache.slots| && cache.slots[slot].chunkIndex == c
      {
        HomeInChunk(layout, c, m, l);
        SlotHolds(slot, m + l, c, l);
        MapNext(v, g, m + l);
        WriteSlot(slot, m + l, c, l, g(cache.slots[slot].buffer[l]), true);
        l := l + 1;
      }
    }

    method MapAll(g: Amp -> Amp)
      requires Abs().Some?
      modifies cache, store`payloads
      ensures Abs() == Some(MapUpTo(old(Abs()).value, g, numStates))
    {
      hide Abs;
      ghost var v, m: nat := Abs().value, 0;
      assert MapUpTo(v, g, 0) == v;
      ChunkLoopStart(layout);
      var c: nat := 0;
      while c < layout.chunkCount
        invariant c <= layout.chunkCount && AtChunk(layout, c, m) && Abs() == Some(MapUpTo(v, g, m))
      {
        MapChunk(c, g, v, m);
        m := m + layout.StatesIn(c);
        c := c + 1;
      }
    }

    /** The mean, summed over acquired chunks. */
    method ComputeMean() returns (mean: Amp)
      requires Abs().Some?
      modifies cache, store`payloads
      ensures Abs() == old(Abs()) && mean == Mean(Abs().value)
    {
      hide Abs, Acquired;
      ghost var v, m: nat := Abs().value, 0;
      ChunkLoopStart(layout);
      var sum := ZERO;
      var c: nat := 0;
      while c < layout.chunkCount
        invariant c <= layout.chunkCount && AtChunk(layout, c, m) && m <= |v| && Abs() == Some(v) && sum == Sum(v[..m])
      {
        var slot := AcquireChunk(c);
        SlotIsChunk(slot, c);
        var data := cache.slots[slot].buffer;
        ChunkLoopStep(layout, v, c, m, data);
        sum := AddChunk(data, sum, v, m);
        m := m + |data|;
        c := c + 1;
      }
      assert v[..m] == v;
      mean := Amp(sum.re / (numStates as real), sum.im / (numStates as real));
    }

    lemma SlotIsChunk(slot: nat, c: nat)
      requires Abs().Some? && slot < |cache.slots| && cache.slots[slot].chunkIndex == c
      ensures IsChunk(layout, Abs().value, c, cache.slots[slot].buffer)
    {
      SlotReading(cache.State(), store.Decoded(), slot);
      ContentIsChunk(layout, cache.Contents(store), c);
    }

    method TotalProbability() returns (total: real)
      requires Abs().Some?
      ensures total == Prob(Abs().value)
    {
      hide Abs;
      ghost var v, m: nat := Abs().value, 0;
      ChunkLoopStart(layout);
      total := 0.0;
      var c: nat := 0;
      while c < layout.chunkCount
        invariant c <= layout.chunkCount && AtChunk(layout, c, m) && m <= |v| && total == Prob(v[..m])
      {
        var peeked := PeekChunk(c);
        var data := peeked.value;
        ChunkLoopStep(layout, v, c, m, data);
        total := AddChunkProbability(data, total, v, m);
        m := m + |data|;
        c := c + 1;
      }
      assert v[..m] == v;
    }

    method SampleMeasurement(rnd: real) returns (r: Measured)
      requires Abs().Some?
      ensures r == Measure(Abs().value, rnd)
    {
      hide Abs;
      if rnd < 0.0 || rnd >= 1.0 { return BadSample; }
      ghost var v := Abs().value;
      ChunkLoopStart(layout);
      var cumulative, baseState: nat, c: nat := 0.0, 0, 0;
      while c < layout.chunkCount
        invariant c <= layout.chunkCount && AtChunk(layout, c, baseState) && baseState <= |v|
        invariant cumulative == Prob(v[..baseState]) && SampleFrom(v, rnd, 0) == SampleFrom(v, rnd, baseState)
      {
        var peeked := PeekChunk(c);
        var data := peeked.value;
        ChunkLoopStep(layout, v, c, baseState, data);
        var found;
        found, cumulative := SampleChunk(data, rnd, cumulative, baseState, v);
        if found.Some? { return Sampled(baseState + found.value); }
        baseState := baseState + |data|;
        c := c + 1;
      }
      r := NotReached;
    }

    // -------------------------------------------------------------- matrix gates

    method LoadBlock(states: seq<nat>) returns (amps: Vec)
      requires Abs().Some? && forall i | 0 <= i < |states| :: states[i] < numStates
      modifies cache, store`payloads
      ensures Abs() == old(Abs()) && amps == Loads(Abs().value, states)
    {
      hide Abs;
      amps := [];
      var i: nat := 0;
      while i < |states|
        invariant i <= |states| && |amps| == i && Abs() == old(Abs())
        invariant forall j | 0 <= j < i :: amps[j] == Abs().value[states[j]]
      {
        var a := ReadAmplitude(states[i]);
        amps := amps + [a];
        i := i + 1;
      }
    }

    method StoreAll(states: seq<nat>, outs: Vec)
      requires Abs().Some? && |states| == |outs| && forall i | 0 <= i < |states| :: states[i] < numStates
      modifies cache, store`payloads
      ensures Abs() == Some(StoreBlock(old(Abs()).value, states, outs, |states|))
    {
      hide Abs;
      ghost var w := Abs().value;
      var row: nat := 0;
      while row < |states|
        invariant row <= |states| && Abs() == Some(StoreBlock(w, states, outs, row))
      {
        WriteAmplitude(states[row], outs[row]);
        row := row + 1;
      }
    }

    method ApplyGateByBlocks(g: QuantumGate, blockLayout: GateBlockLayout, ghost t: seq<nat>)
      requires Abs().Some? && Fits(g, t, numQubits) && |t| <= numQubits && blockLayout == LayoutOf(numQubits, t)
      modifies cache, store`payloads
      ensures Abs() == Some(ApplyMatrix(old(Abs()).value, numQubits, g, t))
    {
      hide Abs, Dot, Mul, Add, MatVec, StoreBlock, BlockStatesOf, ApplyMatrix, MatrixAt;
      ghost var v, w := Abs().value, Abs().value;
      var block: nat := 0;
      while block < blockLayout.numBlocks
        invariant block <= blockLayout.numBlocks && Abs() == Some(w) && DoneBelow(v, w, numQubits, g, t, block)
      {
        BlockTurn(v, w, numQubits, g, t, block);
        BlockAddresses(numQubits, t, block);
        var states := BlockStates(blockLayout, block, numQubits, t);
        var amps := LoadBlock(states);
        if !AllZero(amps) {
          var outs := BlockProduct(g, amps);
          StoreAll(states, outs);
        }
        w := AfterBlock(w, numQubits, g, t, block);
        block := block + 1;
      }
      AllBlocksDone(v, w, numQubits, g, t);
    }

    // ------------------------------------------------------------- public calls

    method BeginOperationBatch()
      requires Valid()
      modifies this`batchDepth
      ensures Valid() && batchDepth == old(batchDepth) + 1 && Abs() == old(Abs())
    {
      batchDepth := batchDepth + 1;
    }

    /** Closing the outermost batch writes everything back; closing one that is not open is an error. */
    method EndOperationBatch() returns (ok: bool)
      requires Valid()
      modifies this`batchDepth, cache`slots, store`payloads
      ensures Valid() && Abs() == old(Abs()) && ok == (old(batchDepth) > 0)
      ensures batchDepth == if ok then old(batchDepth) - 1 else 0
    {
      if batchDepth == 0 { return false; }
      batchDepth := batchDepth - 1;
      if batchDepth == 0 {
        FlushCache();
      }
      ok := true;
    }

    /** A resident chunk is read without touching the cache, any other is acquired. */
    method Amplitude(s: nat) returns (a: Option<Amp>)
      requires Valid()
      modifies cache, store`payloads
      ensures Valid() && Abs() == old(Abs())
      ensures a == if s < numStates then Some(Logical()[s]) else None
    {
      if s >= numStates { return None; }
      HomeOf(layout, s);
      var ref := layout.StateRef(s);
      ChunkReading(cache.State(), store.Decoded(), ref.chunkIndex);
      HomeHolds(layout, cache.Contents(store), s, ref.chunkIndex, ref.elemOffset / 2);
      var cached := cache.FindBuffer(ref.chunkIndex);
      if cached.Some? {
        a := Some(cached.value[ref.elemOffset / 2]);
      } else {
        var amp := ReadAmplitude(s);
        a := Some(amp);
      }
    }

    method SetAmplitude(s: nat, amp: Amp) returns (ok: bool)
      requires Valid()
      modifies cache, store`payloads
      ensures Valid() && ok == (s < numStates)
      ensures Logical() == if ok then old(Logical())[s := amp] else old(Logical())
    {
      if s >= numStates { return false; }
      WriteAmplitude(s, amp);
      FlushCacheIfNeeded();
      ok := true;
    }

    method PhaseFlipBasisState(s: nat) returns (ok: bool)
      requires Valid()
      modifies cache, store`payloads
      ensures Valid() && ok == (s < numStates)
      ensures Logical() == if ok then PhaseFlip(old(Logical()), s) else old(Logical())
    {
      hide Abs;
      if s >= numStates { return false; }
      ghost var c;
      var slot, l;
      slot, c, l := AcquireAmplitudeRef(s);
      WriteSlot(slot, s, c, l, Neg(cache.slots[slot].buffer[l]), true);
      FlushCacheIfNeeded();
      ok := true;
    }

    method InversionAboutGivenMean(mean: Amp)
      requires Valid()
      modifies cache, store`payloads
      ensures Valid() && Logical() == InvertWith(old(Logical()), mean)
    {
      MapAll(Reflection(mean));
      ReflectionInverts(old(Abs().value), mean);
      FlushCacheIfNeeded();
    }

    method InversionAboutMean()
      requires Valid()
      modifies cache, store`payloads
      ensures Valid() && Logical() == InvertWith(old(Logical()), Mean(old(Logical())))
    {
      var mean := ComputeMean();
      MapAll(Reflection(mean));
      ReflectionInverts(old(Abs().value), mean);
      FlushCacheIfNeeded();
    }

    method ApplyAffineTransform(scale: Amp, bias: Amp)
      requires Valid()
      modifies cache, store`payloads
      ensures Valid() && Logical() == Affine(old(Logical()), scale, bias)
    {
      hide Mul;
      MapAll((a: Amp) => Add(Mul(scale, a), bias));
      assert Abs().value == Affine(old(Abs().value), scale, bias);
      FlushCacheIfNeeded();
    }

    method ApplyHadamard(q: nat) returns (ok: bool)
      requires Valid()
      modifies cache, store`payloads
      ensures Valid() && ok == (q < numQubits)
      ensures Logical() == if ok then Hadamard(old(Logical()), numQubits, q, num.invSqrt(2)) else old(Logical())
    {
      if q >= numQubits { return false; }
      KernelsAreHonest(num.invSqrt(2), 0, ZERO);
      RunPairKernel(BitOf(q, numQubits), HadamardKernel(num.invSqrt(2)));
      FlushCacheIfNeeded();
      ok := true;
    }

    method ApplyPauliX(q: nat) returns (ok: bool)
      requires Valid()
      modifies cache, store`payloads
      ensures Valid() && ok == (q < numQubits)
      ensures Logical() == if ok then PauliX(old(Logical()), numQubits, q) else old(Logical())
    {
      if q >= numQubits { return false; }
      KernelsAreHonest(0.0, 0, ZERO);
      RunPairKernel(BitOf(q, numQubits), PauliXKernel());
      FlushCacheIfNeeded();
      ok := true;
    }

    method ApplyControlledPhaseShift(c: nat, t: nat, phase: Amp) returns (ok: bool)
      requires Valid()
      modifies cache, store`payloads
      ensures Valid() && ok == (c < numQubits && t < numQubits && c != t)
      ensures Logical() == if ok then ControlledPhase(old(Logical()), numQubits, c, t, phase) else old(Logical())
    {
      if c >= numQubits || t >= numQubits || c == t { return false; }
      KernelsAreHonest(0.0, Pow2(BitOf(c, numQubits)), phase);
      RunPairKernel(BitOf(t, numQubits), PhaseKernel(Pow2(BitOf(c, numQubits)), phase));
      FlushCacheIfNeeded();
      ok := true;
    }

    method ApplyControlledNot(c: nat, t: nat) returns (ok: bool)
      requires Valid()
      modifies cache, store`payloads
      ensures Valid() && ok == (c < numQubits && t < numQubits && c != t)
      ensures Logical() == if ok then ControlledNot(old(Logical()), numQubits, c, t) else old(Logical())
    {
      if c >= numQubits || t >= numQubits || c == t { return false; }
      KernelsAreHonest(0.0, Pow2(BitOf(c, numQubits)), ZERO);
      RunPairKernel(BitOf(t, numQubits), ControlledNotKernel(Pow2(BitOf(c, numQubits))));
      FlushCacheIfNeeded();
      ok := true;
    }

    /** Matched gates take their kernel, all others the block engine. */
    method ApplyGate(g: QuantumGate, qubits: seq<nat>) returns (ok: bool)
      requires Valid() && g.Square()
      modifies cache, store`payloads
      ensures Valid() && (ok <==> GateFits(g, qubits, numQubits))
      ensures Logical() == if ok then DispatchedGate(old(Logical()), numQubits, g, qubits, num) else old(Logical())
    {
      RouteValidates(g, qubits, numQubits, num);
      hide Abs, RouteOf, Hadamard, PauliX, ControlledNot, ControlledPhase;
      match RouteOf(g, |qubits|, num) {
        case AsHadamard =>
          ok := ApplyHadamard(qubits[0]);
        case AsPauliX =>
          ok := ApplyPauliX(qubits[0]);
        case AsControlledNot =>
          ok := ApplyControlledNot(qubits[0], qubits[1]);
        case AsPhase(phase) =>
          ok := ApplyControlledPhaseShift(qubits[0], qubits[1], phase);
        case AsMatrix =>
          ok := ApplyMatrixGate(g, qubits);
      }
    }

    method ApplyMatrixGate(g: QuantumGate, qubits: seq<nat>) returns (ok: bool)
      requires Valid() && g.Square()
      modifies cache, store`payloads
      ensures Valid() && (ok <==> GateFits(g, qubits, numQubits))
      ensures Logical() == if ok then StateOps.ApplyGate(old(Logical()), numQubits, g, qubits) else old(Logical())
    {
      hide Abs, ApplyMatrix, TargetBits, LayoutOf;
      ok := ValidateGateTargets(qubits, numQubits, |g.rows|);
      if ok {
        TargetsFit(g, qubits, numQubits);
        var blockLayout := MakeGateBlockLayout(qubits, numQubits);
        ApplyGateByBlocks(g, blockLayout, TargetBits(qubits, numQubits));
        FlushCacheIfNeeded();
      }
    }

    /** The exported vector, chunk by chunk. */
    method ExportAmplitudes() returns (out: Vec)
      requires Abs().Some?
      ensures out == Abs().value
    {
      hide Abs;
      ghost var v, m: nat := Abs().value, 0;
      ChunkLoopStart(layout);
      out := [];
      var c: nat := 0;
      while c < layout.chunkCount
        invariant c <= layout.chunkCount && AtChunk(layout, c, m) && m <= |v| && out == v[..m]
      {
        var peeked := PeekChunk(c);
        var data := peeked.value;
        ChunkLoopStep(layout, v, c, m, data);
        out := out + data;
        m := m + |data|;
        c := c + 1;
      }
      assert v[..m] == v;
    }

    method Initialise(call: Call) returns (o: Outcome)
      requires Valid() && WellFormed(call, numQubits) && IsInitialisation(call)
      modifies this, cache, store
      ensures Valid() && numQubits == old(numQubits) && batchDepth == 0
      ensures Logical() == Effect(call, old(Logical()), numQubits, num, Chunked)
      ensures o == OutcomeOf(call, old(Logical()), numQubits, old(batchDepth), Chunked)
    {
      hide Abs, UniformVec, SortUnique, Effect, OutcomeOf, ZeroVec;
      ValidIsReady();
      InitialisationMeans(call, Logical(), numQubits, num, batchDepth, Chunked);
      var ok := true;
      match call {
        case InitialZero => InitZero(numQubits);
        case InitialBasis(s, a) => ok := InitBasis(numQubits, s, a);
        case InitialUniform(states) => ok := InitUniformSuperposition(numQubits, states);
        case Load(v) => ok := LoadAmplitudes(numQubits, v);
      }
      o := if ok then Done else Rejected;
    }

    method Answer(call: Call) returns (o: Outcome)
      requires Valid() && IsReading(call)
      modifies cache, store`payloads
      ensures Valid() && Abs() == old(Abs())
      ensures o == OutcomeOf(call, Logical(), numQubits, batchDepth, Chunked)
    {
      hide Abs, Clean;
      match call {
        case Read(s) =>
          var a := Amplitude(s);
          o := if a.Some? then Value(a.value) else Rejected;
        case Total =>
          var total := TotalProbability();
          o := Mass(total);
        case Sample(rnd) =>
          var m := SampleMeasurement(rnd);
          o := Measurement(m);
        case Export =>
          var v := ExportAmplitudes();
          o := Exported(v);
      }
    }

    method ApplyGateCall(call: Call) returns (o: Outcome)
      requires Valid() && WellFormed(call, numQubits) && IsGate(call)
      modifies this`batchDepth, cache, store`payloads
      ensures Valid()
      ensures Logical() == Effect(call, old(Logical()), numQubits, num, Chunked)
      ensures o == OutcomeOf(call, old(Logical()), numQubits, old(batchDepth), Chunked)
      ensures batchDepth == DepthAfter(call, old(batchDepth))
    {
      hide Abs, Hadamard, PauliX, ControlledNot, ControlledPhase, DispatchedGate, Clean;
      var ok;
      match call {
        case ApplyH(q) => ok := ApplyHadamard(q);
        case ApplyX(q) => ok := ApplyPauliX(q);
        case ApplyPhase(c, t, phase) => ok := ApplyControlledPhaseShift(c, t, phase);
        case ApplyCNot(c, t) => ok := ApplyControlledNot(c, t);
        case ApplyMatrixGate(g, qubits) => ok := ApplyGate(g, qubits);
      }
      o := if ok then Done else Rejected;
    }

    method Update(call: Call) returns (o: Outcome)
      requires Valid() && WellFormed(call, numQubits) && !IsInitialisation(call) && !IsReading(call) && !IsGate(call)
      modifies this`batchDepth, cache, store`payloads
      ensures Valid()
      ensures Logical() == Effect(call, old(Logical()), numQubits, num, Chunked)
      ensures o == OutcomeOf(call, old(Logical()), numQubits, old(batchDepth), Chunked)
      ensures batchDepth == DepthAfter(call, old(batchDepth))
    {
      hide Abs, InvertWith, Affine, Clean;
      var ok := true;
      match call {
        case SetAmplitude(s, a) => ok := SetAmplitude(s, a);
        case PhaseFlipState(s) => ok := PhaseFlipBasisState(s);
        case InvertAboutMean => InversionAboutMean();
        case InvertAbout(mean) => InversionAboutGivenMean(mean);
        case AffineTransform(scale, bias) => ApplyAffineTransform(scale, bias);
        case BeginBatch => BeginOperationBatch();
        case EndBatch => ok := EndOperationBatch();
      }
      o := if ok then Done else Rejected;
    }

    /** One call of a run. */
    method Execute(call: Call) returns (o: Outcome)
      requires Valid() && WellFormed(call, numQubits)
      modifies this, cache, store
      ensures Valid() && numQubits == old(numQubits)
      ensures Logical() == Effect(call, old(Logical()), numQubits, num, Chunked)
      ensures o == OutcomeOf(call, old(Logical()), numQubits, old(batchDepth), Chunked)
      ensures batchDepth == DepthAfter(call, old(batchDepth))
    {
      hide Abs, Clean, Effect, OutcomeOf;
      if IsInitialisation(call) {
        o := Initialise(call);
      } else if IsReading(call) {
        ReadingKeeps(call, Logical(), numQubits, num, Chunked);
        o := Answer(call);
      } else if IsGate(call) {
        o := ApplyGateCall(call);
      } else {
        o := Update(call);
      }
    }

    /** A whole run: the vector and everything the caller sees are the specification's. */
    method Run(calls: seq<Call>) returns (outcomes: seq<Outcome>)
      requires Valid() && AllWellFormed(calls, numQubits)
      modifies this, cache, store
      ensures Valid() && numQubits == old(numQubits)
      ensures Logical() == RunVec(calls, old(Logical()), numQubits, num, Chunked)
      ensures outcomes == RunOutcomes(calls, old(Logical()), numQubits, num, old(batchDepth), Chunked)
      ensures batchDepth == DepthOf(calls, old(batchDepth))
    {
      hide Abs, Effect, OutcomeOf, Clean;
      ghost var v, n, d := Logical(), numQubits, batchDepth;
      outcomes := [];
      var i: nat := 0;
      while i < |calls|
        invariant i <= |calls| && Valid() && numQubits == n && batchDepth == DepthOf(calls[..i], d)
        invariant Logical() == RunVec(calls[..i], v, n, num, Chunked)
        invariant outcomes == RunOutcomes(calls[..i], v, n, num, d, Chunked)
      {
        assert calls[..i + 1][..i] == calls[..i];
        var o := Execute(calls[i]);
        outcomes := outcomes + [o];
        i := i + 1;
      }
      assert calls[..i] == calls;
    }
  }

  /**
   * The same run on a dense and a chunked store, of calls whose gates are exactly built-in or matched by nothing:
   * the vectors stay equal, and the callers see the same results exactly when no batch is closed that was not
   * opened since the last initialisation.
   */
  method RunBoth<P>(dense: DenseStateBackend, chunked: CompressedStateBackend<P>, calls: seq<Call>)
    returns (denseOutcomes: seq<Outcome>, chunkedOutcomes: seq<Outcome>)
    requires dense.Valid() && chunked.Valid() && AllWellFormed(calls, dense.numQubits)
    requires dense.num == chunked.num && dense.numQubits == chunked.numQubits && dense.amplitudes == chunked.Logical()
    requires FaithfulGates(calls, dense.num) && dense.num.Exact()
    modifies dense, chunked, chunked.cache, chunked.store
    ensures dense.Valid() && chunked.Valid() && chunked.Logical() == dense.amplitudes
    ensures denseOutcomes == chunkedOutcomes <==> Balanced(calls, old(chunked.batchDepth))
  {
    ghost var v, n, d := dense.amplitudes, dense.numQubits, chunked.batchDepth;
    denseOutcomes := dense.Run(calls);
    chunkedOutcomes := chunked.Run(calls);
    SameVector(calls, v, n, dense.num);
    SameOutcomes(calls, v, n, dense.num, d);
    DenseDepth(calls, v, n, dense.num, d);
  }

  /** Dense outcomes do not depend on the batch depth. */
  lemma {:induction false} DenseDepth(calls: seq<Call>, v: Vec, n: nat, num: Numerics, d: nat)
    requires IsRegister(v, n) && AllWellFormed(calls, n)
    ensures RunOutcomes(calls, v, n, num, d, Dense) == RunOutcomes(calls, v, n, num, 0, Dense)
  {
    if calls != [] {
      DenseDepth(calls[..|calls| - 1], v, n, num, d);
    }
  }

  /** Adds one chunk to a running sum. */
  method AddChunk(data: Vec, start: Amp, ghost v: Vec, ghost m: nat) returns (sum: Amp)
    requires m + |data| <= |v| && start == Sum(v[..m]) && data == v[m..m + |data|]
    ensures sum == Sum(v[..m + |data|])
  {
    sum := start;
    var l := 0;
    while l < |data|
      invariant l <= |data| && sum == Sum(v[..m + l])
    {
      SumSnoc(v, m + l);
      sum := Add(sum, data[l]);
      l := l + 1;
    }
  }

  /** Adds one chunk to a running total probability. */
  method AddChunkProbability(data: Vec, start: real, ghost v: Vec, ghost m: nat) returns (total: real)
    requires m + |data| <= |v| && start == Prob(v[..m]) && data == v[m..m + |data|]
    ensures total == Prob(v[..m + |data|])
  {
    total := start;
    var l := 0;
    while l < |data|
      invariant l <= |data| && total == Prob(v[..m + l])
    {
      SumSnoc(v, m + l);
      total := total + NormSq(data[l]);
      l := l + 1;
    }
  }

  /** Scans one chunk for the sample. */
  method SampleChunk(data: Vec, rnd: real, start: real, ghost base: nat, ghost v: Vec)
    returns (found: Option<nat>, cumulative: real)
    requires base + |data| <= |v| && start == Prob(v[..base]) && data == v[base..base + |data|]
    ensures found.Some? ==> found.value < |data| && SampleFrom(v, rnd, base) == base + found.value
    ensures found.None? ==> cumulative == Prob(v[..base + |data|])
    ensures found.None? ==> SampleFrom(v, rnd, base) == SampleFrom(v, rnd, base + |data|)
  {
    hide Prob, NormSq, SampleFrom;
    cumulative := start;
    var l: nat := 0;
    while l < |data|
      invariant l <= |data| && cumulative == Prob(v[..base + l])
      invariant SampleFrom(v, rnd, base) == SampleFrom(v, rnd, base + l)
    {
      SampleNext(v, rnd, base + l);
      assert data[l] == v[base + l];
      cumulative := cumulative + NormSq(data[l]);
      if rnd <= cumulative { return Some(l), cumulative; }
      l := l + 1;
    }
    found := None;
  }

  lemma ZeroSlice(layout: ChunkLayout, n: nat, c: nat)
    requires layout.Valid() && layout.totalStates == Pow2(n) && c < layout.chunkCount
    ensures seq(layout.StatesIn(c), _ => ZERO) == ChunkSlice(layout, ZeroVec(n), c)
  {
    layout.ChunkShape(c);
  }

  /** `chunk` holds `r` at the listed states it covers, starting at state `begin`, and zero elsewhere. */
  ghost predicate HoldsListed(chunk: Vec, begin: nat, selected: seq<nat>, r: real) {
    forall l: nat | l < |chunk| :: chunk[l] == if begin + l in selected then Real(r) else ZERO
  }

  lemma UniformSlice(layout: ChunkLayout, n: nat, basisStates: seq<nat>, selected: seq<nat>, r: real, c: nat,
                     chunk: Vec)
    requires layout.Valid() && layout.totalStates == Pow2(n) && c < layout.chunkCount
    requires forall s :: s in selected <==> s in basisStates
    requires |chunk| == layout.StatesIn(c) && HoldsListed(chunk, layout.ChunkStateBegin(c), selected, r)
    ensures chunk == ChunkSlice(layout, UniformVec(n, basisStates, r), c)
  {
    layout.ChunkShape(c);
  }

  /** The cursor has passed exactly the listed states below `s`. */
  ghost predicate CursorAt(selected: seq<nat>, pos: nat, s: nat) {
    && pos <= |selected|
    && (forall i | 0 <= i < pos :: selected[i] < s)
    && (forall i | pos <= i < |selected| :: selected[i] >= s)
  }

  /** Fills one chunk from the cursor on, and moves the cursor past it. */
  method MergeChunk(selected: seq<nat>, start: nat, chunkStateBegin: nat, statesInChunk: nat, r: real)
    returns (denseChunk: Vec, selectedPos: nat)
    requires Increasing(selected) && CursorAt(selected, start, chunkStateBegin)
    ensures CursorAt(selected, selectedPos, chunkStateBegin + statesInChunk)
    ensures |denseChunk| == statesInChunk
    ensures HoldsListed(denseChunk, chunkStateBegin, selected, r)
  {
    var chunkStateEnd := chunkStateBegin + statesInChunk;
    denseChunk, selectedPos := seq(statesInChunk, _ => ZERO), start;
    while selectedPos < |selected| && selected[selectedPos] < chunkStateEnd
      invariant start <= selectedPos <= |selected| && |denseChunk| == statesInChunk
      invariant forall i | 0 <= i < selectedPos :: selected[i] < chunkStateEnd
      invariant HoldsListed(denseChunk, chunkStateBegin, selected[..selectedPos], r)
    {
      if selected[selectedPos] >= chunkStateBegin {
        denseChunk := denseChunk[selected[selectedPos] - chunkStateBegin := Real(r)];
      }
      assert selected[..selectedPos + 1] == selected[..selectedPos] + [selected[selectedPos]];
      selectedPos := selectedPos + 1;
    }
    assert forall s | s in selected && s < chunkStateEnd :: s in selected[..selectedPos];
  }
}
