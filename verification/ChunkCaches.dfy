/** The write-back cache of decoded chunks: LRU eviction, dirty flags, live slot handles. */
module ChunkCaches {
  import opened Amplitudes
  import opened ChunkStores
  import opened Options

  /** `kInvalidIndex`. */
  const INVALID: int := -1

  datatype Slot = Slot(chunkIndex: int, buffer: Vec, dirty: bool, touch: nat)

  // ------------------------------------------------- histories of acquisitions

  /** One more than the position of the last use of `c` in `trace`; 0 if it was never used. */
  function LastUse(trace: seq<nat>, c: int): (u: nat)
    ensures u <= |trace|
    ensures u > 0 <==> c >= 0 && c in trace
    ensures u > 0 ==> trace[u - 1] == c
  {
    if trace == [] then 0
    else if trace[|trace| - 1] == c then |trace|
    else
      assert trace == trace[..|trace| - 1] + [trace[|trace| - 1]];
      LastUse(trace[..|trace| - 1], c)
  }

  lemma LastUseSnoc(trace: seq<nat>, c: nat, d: int)
    ensures LastUse(trace + [c], d) == if d == c then |trace| + 1 else LastUse(trace, d)
  {
    assert (trace + [c])[..|trace|] == trace;
  }

  function Elements(trace: seq<nat>): set<nat> { set c | c in trace }

  /** `c` was last used before `d` was. */
  ghost predicate Older(trace: seq<nat>, c: nat, d: nat) {
    LastUse(trace, c) < LastUse(trace, d)
  }

  /** `resident` is the set of the `capacity` most recently used distinct chunks of `trace`. */
  ghost predicate MostRecent(trace: seq<nat>, capacity: nat, resident: set<nat>) {
    && resident <= Elements(trace)
    && |resident| == (if |Elements(trace)| <= capacity then |Elements(trace)| else capacity)
    && forall r, d | r in resident && d in Elements(trace) && d !in resident :: Older(trace, d, r)
  }

  /** The history determines the most recent set. */
  lemma MostRecentUnique(trace: seq<nat>, capacity: nat, a: set<nat>, b: set<nat>)
    requires MostRecent(trace, capacity, a) && MostRecent(trace, capacity, b)
    ensures a == b
  {
    if a <= b {
      SubsetSize(a, b);
    } else if b <= a {
      SubsetSize(b, a);
    } else {
      var x :| x in a && x !in b;
      var y :| y in b && y !in a;
      var yOlder, xOlder := Older(trace, y, x), Older(trace, x, y);
    }
  }

  lemma SubsetSize<T>(a: set<T>, b: set<T>)
    requires a <= b
    ensures |a| <= |b| && (|a| == |b| ==> a == b)
  {
    assert b == a + (b - a);
  }

  // --------------------------------------------------------- cache invariants

  /** `chunkToSlot` and the slots are mutually inverse. */
  ghost predicate Mapped(slots: seq<Slot>, chunkToSlot: seq<int>) {
    && (forall i | 0 <= i < |slots| ::
          0 <= slots[i].chunkIndex < |chunkToSlot| && chunkToSlot[slots[i].chunkIndex] == i)
    && (forall c | 0 <= c < |chunkToSlot| && chunkToSlot[c] != INVALID ::
          0 <= chunkToSlot[c] < |slots| && slots[chunkToSlot[c]].chunkIndex == c)
  }

  /** A slot's touch stamp is the time its chunk was last acquired. */
  ghost predicate Stamped(slots: seq<Slot>, trace: seq<nat>) {
    forall i | 0 <= i < |slots| :: slots[i].touch == LastUse(trace, slots[i].chunkIndex) && slots[i].touch > 0
  }

  /** A chunk that was used and is no longer resident is older than every resident one, and the cache is full. */
  ghost predicate EvictedOldest(capacity: nat, slots: seq<Slot>, chunkToSlot: seq<int>, trace: seq<nat>) {
    forall c | 0 <= c < |chunkToSlot| && c in trace && chunkToSlot[c] == INVALID ::
      |slots| == capacity && forall i | 0 <= i < |slots| :: LastUse(trace, c) < slots[i].touch
  }

  /** The fields of a cache together with the chunks acquired since its last reset, oldest first. */
  datatype CacheState = CacheState(capacity: nat, slots: seq<Slot>, chunkToSlot: seq<int>, trace: seq<nat>)

  /** The bookkeeping invariants of a cache with the given history. */
  ghost predicate Tracks(st: CacheState) {
    match st
    case CacheState(capacity, slots, chunkToSlot, trace) =>
      && 1 <= capacity && |slots| <= capacity
      && Mapped(slots, chunkToSlot)
      && (forall i | 0 <= i < |trace| :: trace[i] < |chunkToSlot|)
      && Stamped(slots, trace)
      && EvictedOldest(capacity, slots, chunkToSlot, trace)
  }

  /** Cached buffers have their chunk's width, and the clean ones equal what the payload decodes to. */
  ghost predicate Coherent(st: CacheState, decoded: seq<Vec>) {
    match st
    case CacheState(_, slots, chunkToSlot, _) =>
      && |chunkToSlot| == |decoded|
      && (forall i | 0 <= i < |slots| ::
            && 0 <= slots[i].chunkIndex < |decoded|
            && |slots[i].buffer| == |decoded[slots[i].chunkIndex]|
            && (slots[i].dirty || slots[i].buffer == decoded[slots[i].chunkIndex]))
  }

  /** The logical content of each chunk: its cached buffer if resident, else its decoded payload. */
  ghost function View(st: CacheState, decoded: seq<Vec>): (v: seq<Vec>)
    requires Tracks(st) && Coherent(st, decoded)
    ensures |v| == |decoded|
  {
    seq(|decoded|, c requires 0 <= c < |decoded| =>
      if st.chunkToSlot[c] != INVALID then st.slots[st.chunkToSlot[c]].buffer else decoded[c])
  }

  ghost predicate Clean(slots: seq<Slot>) {
    forall i | 0 <= i < |slots| :: !slots[i].dirty
  }

  /** What a cache over the given payloads stands for; `None` if one of its invariants is broken. */
  ghost function Reading(st: CacheState, decoded: seq<Vec>): (v: Option<seq<Vec>>)
    ensures v.Some? ==> |v.value| == |decoded| == |st.chunkToSlot|
  {
    if Tracks(st) && Coherent(st, decoded) then Some(View(st, decoded)) else None
  }

  /** With no dirty slot the payloads alone are the logical content. */
  lemma CleanReading(st: CacheState, decoded: seq<Vec>)
    requires Reading(st, decoded).Some? && Clean(st.slots)
    ensures Reading(st, decoded) == Some(decoded)
  {
    assert View(st, decoded) == decoded;
  }

  /** A slot is mapped, has its chunk's width, and holds that chunk's logical content. */
  lemma SlotReading(st: CacheState, decoded: seq<Vec>, i: nat)
    requires Reading(st, decoded).Some? && i < |st.slots|
    ensures 0 <= st.slots[i].chunkIndex < |decoded|
    ensures |st.slots[i].buffer| == |decoded[st.slots[i].chunkIndex]|
    ensures Reading(st, decoded).value[st.slots[i].chunkIndex] == st.slots[i].buffer
    ensures st.slots[i].dirty || st.slots[i].buffer == decoded[st.slots[i].chunkIndex]
  {
  }

  lemma FullIsNonEmpty(st: CacheState, decoded: seq<Vec>)
    requires Reading(st, decoded).Some?
    ensures |st.slots| <= st.capacity && st.capacity >= 1
  {
  }

  /** A chunk is resident in a slot of its own or its content is its payload's. */
  lemma ChunkReading(st: CacheState, decoded: seq<Vec>, c: nat)
    requires Reading(st, decoded).Some? && c < |decoded|
    ensures st.chunkToSlot[c] == INVALID ||
            (0 <= st.chunkToSlot[c] < |st.slots| && st.slots[st.chunkToSlot[c]].chunkIndex == c)
    ensures Reading(st, decoded).value[c] ==
            if st.chunkToSlot[c] == INVALID then decoded[c] else st.slots[st.chunkToSlot[c]].buffer
  {
  }

  // ------------------------------------------------------- single transitions

  lemma SnocAll(trace: seq<nat>, c: nat)
    ensures forall d: int :: LastUse(trace + [c], d) == if d == c then |trace| + 1 else LastUse(trace, d)
  {
    forall d: int
      ensures LastUse(trace + [c], d) == if d == c then |trace| + 1 else LastUse(trace, d)
    {
      LastUseSnoc(trace, c, d);
    }
  }

  function Hit(st: CacheState, c: nat): CacheState
    requires c < |st.chunkToSlot| && 0 <= st.chunkToSlot[c] < |st.slots|
  {
    var i := st.chunkToSlot[c];
    st.(slots := st.slots[i := st.slots[i].(touch := |st.trace| + 1)], trace := st.trace + [c])
  }

  lemma HitTracks(st: CacheState, c: nat)
    requires Tracks(st) && c < |st.chunkToSlot| && st.chunkToSlot[c] != INVALID
    ensures Tracks(Hit(st, c))
  {
    SnocAll(st.trace, c);
    hide LastUse;
    var st' := Hit(st, c);
    MappedSame(st.slots, st'.slots, st.chunkToSlot);
    assert Stamped(st'.slots, st'.trace);
    HitEvicted(st, c);
  }

  lemma HitEvicted(st: CacheState, c: nat)
    requires Tracks(st) && c < |st.chunkToSlot| && st.chunkToSlot[c] != INVALID
    ensures var st' := Hit(st, c); EvictedOldest(st'.capacity, st'.slots, st'.chunkToSlot, st'.trace)
  {
    SnocAll(st.trace, c);
    var st' := Hit(st, c);
    forall d | 0 <= d < |st.chunkToSlot| && d in st'.trace && st.chunkToSlot[d] == INVALID
      ensures d in st.trace && LastUse(st'.trace, d) == LastUse(st.trace, d)
    {
    }
  }

  lemma HitKeeps(st: CacheState, decoded: seq<Vec>, c: nat)
    requires Reading(st, decoded).Some? && c < |decoded| && st.chunkToSlot[c] != INVALID
    ensures 0 <= st.chunkToSlot[c] < |st.slots|
    ensures Reading(Hit(st, c), decoded) == Reading(st, decoded)
  {
    HitTracks(st, c);
    hide Stamped, EvictedOldest;
    assert View(Hit(st, c), decoded) == View(st, decoded);
  }

  function Fresh(st: CacheState, c: nat, buffer: Vec): CacheState
    requires c < |st.chunkToSlot|
  {
    CacheState(st.capacity, st.slots + [Slot(c, buffer, false, |st.trace| + 1)],
               st.chunkToSlot[c := |st.slots|], st.trace + [c])
  }

  lemma FreshTracks(st: CacheState, c: nat, buffer: Vec)
    requires Tracks(st) && c < |st.chunkToSlot| && st.chunkToSlot[c] == INVALID && |st.slots| < st.capacity
    ensures Tracks(Fresh(st, c, buffer))
  {
    SnocAll(st.trace, c);
  }

  lemma FreshKeeps(st: CacheState, decoded: seq<Vec>, c: nat)
    requires Reading(st, decoded).Some? && c < |decoded| && st.chunkToSlot[c] == INVALID
    requires |st.slots| < st.capacity
    ensures Reading(Fresh(st, c, decoded[c]), decoded) == Reading(st, decoded)
  {
    FreshTracks(st, c, decoded[c]);
    assert View(Fresh(st, c, decoded[c]), decoded) == View(st, decoded);
  }

  /** `chunkToSlot_[chunk] = kInvalidIndex` unless the slot was unmapped already. */
  function Unmap(chunkToSlot: seq<int>, chunk: int): (r: seq<int>)
    ensures |r| == |chunkToSlot|
  {
    if 0 <= chunk < |chunkToSlot| then chunkToSlot[chunk := INVALID] else chunkToSlot
  }

  function Evict(st: CacheState, c: nat, buffer: Vec, e: nat): CacheState
    requires c < |st.chunkToSlot| && e < |st.slots|
  {
    CacheState(st.capacity, st.slots[e := Slot(c, buffer, false, |st.trace| + 1)],
               Unmap(st.chunkToSlot, st.slots[e].chunkIndex)[c := e], st.trace + [c])
  }

  ghost predicate IsOldest(slots: seq<Slot>, e: nat) {
    e < |slots| && forall i | 0 <= i < |slots| :: slots[e].touch <= slots[i].touch
  }

  /** The eviction victim is strictly older than every other slot. */
  lemma OldestIsStrict(st: CacheState, e: nat, i: nat)
    requires Tracks(st) && IsOldest(st.slots, e) && i < |st.slots| && i != e
    ensures st.slots[e].touch < st.slots[i].touch && st.slots[i].chunkIndex != st.slots[e].chunkIndex
  {
    StampsDistinct(st, e, i);
    assert st.chunkToSlot[st.slots[i].chunkIndex] == i;
  }

  /** Touch stamps of resident slots are pairwise distinct. */
  lemma StampsDistinct(st: CacheState, i: nat, j: nat)
    requires Tracks(st) && i < |st.slots| && j < |st.slots| && i != j
    ensures st.slots[i].touch != st.slots[j].touch
  {
    assert st.chunkToSlot[st.slots[i].chunkIndex] == i && st.chunkToSlot[st.slots[j].chunkIndex] == j;
    assert st.trace[st.slots[i].touch - 1] == st.slots[i].chunkIndex;
    assert st.trace[st.slots[j].touch - 1] == st.slots[j].chunkIndex;
  }

  lemma EvictMapped(slots: seq<Slot>, chunkToSlot: seq<int>, e: nat, slot: Slot)
    requires Mapped(slots, chunkToSlot) && e < |slots|
    requires 0 <= slot.chunkIndex < |chunkToSlot| && chunkToSlot[slot.chunkIndex] == INVALID
    ensures Mapped(slots[e := slot], chunkToSlot[slots[e].chunkIndex := INVALID][slot.chunkIndex := e])
  {
    forall i | 0 <= i < |slots| && i != e
      ensures slots[i].chunkIndex != slots[e].chunkIndex && slots[i].chunkIndex != slot.chunkIndex
    {
      assert chunkToSlot[slots[i].chunkIndex] == i;
    }
  }

  lemma EvictTracks(st: CacheState, c: nat, buffer: Vec, e: nat)
    requires Tracks(st) && c < |st.chunkToSlot| && st.chunkToSlot[c] == INVALID
    requires |st.slots| == st.capacity && IsOldest(st.slots, e)
    ensures Tracks(Evict(st, c, buffer, e))
  {
    hide LastUse;
    var st' := Evict(st, c, buffer, e);
    SnocAll(st.trace, c);
    forall i: nat | i < |st.slots| && i != e
      ensures st.slots[e].touch < st.slots[i].touch
    {
      OldestIsStrict(st, e, i);
    }
    EvictMapped(st.slots, st.chunkToSlot, e, st'.slots[e]);
    assert Stamped(st'.slots, st'.trace);
    EvictEvicted(st, st', c, buffer, e);
  }

  lemma EvictEvicted(st: CacheState, st': CacheState, c: nat, buffer: Vec, e: nat)
    requires Tracks(st) && c < |st.chunkToSlot| && st.chunkToSlot[c] == INVALID
    requires |st.slots| == st.capacity && IsOldest(st.slots, e)
    requires st' == Evict(st, c, buffer, e)
    requires forall i: nat | i < |st.slots| && i != e :: st.slots[e].touch < st.slots[i].touch
    ensures EvictedOldest(st'.capacity, st'.slots, st'.chunkToSlot, st'.trace)
  {
    hide LastUse;
    SnocAll(st.trace, c);
    forall d, i | 0 <= d < |st.chunkToSlot| && d in st'.trace && st'.chunkToSlot[d] == INVALID && 0 <= i < |st'.slots|
      ensures LastUse(st'.trace, d) < st'.slots[i].touch
    {
      assert d != c && d in st.trace;
    }
  }

  lemma EvictCoherent(st: CacheState, decoded: seq<Vec>, c: nat, e: nat)
    requires Tracks(st) && Coherent(st, decoded) && c < |decoded| && e < |st.slots|
    ensures Coherent(Evict(st, c, decoded[c], e), decoded)
  {
  }

  /** No other slot holds the chunk being evicted or the one coming in. */
  lemma OtherSlots(st: CacheState, c: nat, e: nat)
    requires Tracks(st) && c < |st.chunkToSlot| && st.chunkToSlot[c] == INVALID && e < |st.slots|
    ensures forall d | 0 <= d < |st.chunkToSlot| && d != c && st.chunkToSlot[d] == e :: d == st.slots[e].chunkIndex
  {
  }

  lemma EvictKeeps(st: CacheState, decoded: seq<Vec>, c: nat, e: nat)
    requires Reading(st, decoded).Some? && c < |decoded| && st.chunkToSlot[c] == INVALID
    requires |st.slots| == st.capacity && IsOldest(st.slots, e) && !st.slots[e].dirty
    ensures Reading(Evict(st, c, decoded[c], e), decoded) == Reading(st, decoded)
  {
    EvictTracks(st, c, decoded[c], e);
    EvictCoherent(st, decoded, c, e);
    OtherSlots(st, c, e);
    hide Stamped, EvictedOldest, IsOldest;
    assert View(Evict(st, c, decoded[c], e), decoded) == View(st, decoded);
  }

  function Flushed(st: CacheState, i: nat): CacheState
    requires i < |st.slots|
  {
    st.(slots := st.slots[i := st.slots[i].(dirty := false)])
  }

  /** Replacing a slot by one with the same chunk and stamp keeps the bookkeeping. */
  lemma SlotReplaced(st: CacheState, i: nat, slot: Slot)
    requires Tracks(st) && i < |st.slots|
    requires slot.chunkIndex == st.slots[i].chunkIndex && slot.touch == st.slots[i].touch
    ensures Tracks(st.(slots := st.slots[i := slot]))
    ensures forall j | 0 <= j < |st.slots| && j != i :: st.slots[j].chunkIndex != st.slots[i].chunkIndex
  {
    hide LastUse;
    var slots := st.slots[i := slot];
    assert forall j | 0 <= j < |slots| ::
             slots[j].chunkIndex == st.slots[j].chunkIndex && slots[j].touch == st.slots[j].touch;
    MappedSame(st.slots, slots, st.chunkToSlot);
    assert Stamped(slots, st.trace);
    assert EvictedOldest(st.capacity, slots, st.chunkToSlot, st.trace);
  }

  lemma MappedSame(slots: seq<Slot>, slots': seq<Slot>, chunkToSlot: seq<int>)
    requires Mapped(slots, chunkToSlot) && |slots'| == |slots|
    requires forall j | 0 <= j < |slots| :: slots'[j].chunkIndex == slots[j].chunkIndex
    ensures Mapped(slots', chunkToSlot)
    ensures forall i, j | 0 <= i < |slots| && 0 <= j < |slots| && i != j :: slots[j].chunkIndex != slots[i].chunkIndex
  {
  }

  lemma FlushTracks(st: CacheState, decoded: seq<Vec>, i: nat)
    requires Tracks(st) && Coherent(st, decoded) && i < |st.slots|
    ensures Tracks(Flushed(st, i))
    ensures 0 <= st.slots[i].chunkIndex < |decoded|
    ensures Coherent(Flushed(st, i), decoded[st.slots[i].chunkIndex := st.slots[i].buffer])
  {
    SlotReplaced(st, i, st.slots[i].(dirty := false));
    hide Tracks;
  }

  lemma FlushKeeps(st: CacheState, decoded: seq<Vec>, i: nat)
    requires Reading(st, decoded).Some? && i < |st.slots|
    ensures 0 <= st.slots[i].chunkIndex < |decoded|
    ensures Reading(Flushed(st, i), decoded[st.slots[i].chunkIndex := st.slots[i].buffer]) == Reading(st, decoded)
  {
    FlushTracks(st, decoded, i);
    var decoded' := decoded[st.slots[i].chunkIndex := st.slots[i].buffer];
    hide Stamped, EvictedOldest;
    assert View(Flushed(st, i), decoded') == View(st, decoded);
  }

  function Written(st: CacheState, i: nat, local: nat, a: Amp, mark: bool): CacheState
    requires i < |st.slots| && local < |st.slots[i].buffer|
  {
    var slot := st.slots[i];
    st.(slots := st.slots[i := slot.(buffer := slot.buffer[local := a], dirty := slot.dirty || mark)])
  }

  lemma WriteTracks(st: CacheState, decoded: seq<Vec>, i: nat, local: nat, a: Amp, mark: bool)
    requires Tracks(st) && Coherent(st, decoded) && i < |st.slots| && local < |st.slots[i].buffer|
    requires mark || st.slots[i].buffer[local] == a
    ensures Tracks(Written(st, i, local, a, mark)) && Coherent(Written(st, i, local, a, mark), decoded)
  {
    SlotReplaced(st, i, Written(st, i, local, a, mark).slots[i]);
    assert !mark ==> st.slots[i].buffer[local := a] == st.slots[i].buffer;
  }

  lemma WriteKeeps(st: CacheState, decoded: seq<Vec>, i: nat, local: nat, a: Amp, mark: bool)
    requires Reading(st, decoded).Some? && i < |st.slots| && local < |st.slots[i].buffer|
    requires mark || st.slots[i].buffer[local] == a
    ensures var c, v := st.slots[i].chunkIndex, Reading(st, decoded).value;
            && 0 <= c < |v| && local < |v[c]|
            && Reading(Written(st, i, local, a, mark), decoded) == Some(v[c := v[c][local := a]])
  {
    WriteTracks(st, decoded, i, local, a, mark);
    var c, v := st.slots[i].chunkIndex, View(st, decoded);
    assert View(Written(st, i, local, a, mark), decoded) == v[c := v[c][local := a]];
  }

  /** The chunk acquired last is resident, and with two slots it is not the oldest. */
  lemma LastIsSafe(st: CacheState, e: nat)
    requires Tracks(st) && st.trace != []
    ensures st.chunkToSlot[st.trace[|st.trace| - 1]] != INVALID
    ensures |st.slots| >= 2 && IsOldest(st.slots, e) ==> e != st.chunkToSlot[st.trace[|st.trace| - 1]]
  {
    var slots, trace := st.slots, st.trace;
    var last := trace[|trace| - 1];
    assert LastUse(trace, last) == |trace|;
    var oldest := if |slots| > 0 then slots[0].touch else 0;
    assert oldest <= |trace|;
    if |slots| >= 2 && st.chunkToSlot[last] != INVALID {
      var other := if st.chunkToSlot[last] == 0 then 1 else 0;
      assert trace[slots[other].touch - 1] == slots[other].chunkIndex;
    }
  }

  /** What one acquisition of chunk `c` does, with `slotIndex` the slot it returns. */
  ghost predicate Acquired(st: CacheState, st': CacheState, c: nat, slotIndex: nat) {
    && st'.capacity == st.capacity && |st'.chunkToSlot| == |st.chunkToSlot| && st'.trace == st.trace + [c]
    && c < |st'.chunkToSlot| && slotIndex < |st'.slots|
    && st'.chunkToSlot[c] == slotIndex && st'.slots[slotIndex].chunkIndex == c
    && (Clean(st.slots) ==> Clean(st'.slots))
    && (forall i | 0 <= i < |st.slots| && i != slotIndex :: i < |st'.slots| && st'.slots[i] == st.slots[i])
    && (st.trace != [] && st.capacity >= 2 ==> KeepsLast(st, st'))
  }

  /** The chunk acquired last stays in its slot. */
  ghost predicate KeepsLast(st: CacheState, st': CacheState)
    requires st.trace != []
  {
    var last := st.trace[|st.trace| - 1];
    && last < |st.chunkToSlot| && last < |st'.chunkToSlot|
    && st.chunkToSlot[last] != INVALID && st'.chunkToSlot[last] == st.chunkToSlot[last]
  }

  lemma AcquiredEffect(st: CacheState, st': CacheState, decoded: seq<Vec>, c: nat, buffer: Vec, slotIndex: nat)
    requires Reading(st, decoded).Some? && c < |st.chunkToSlot|
    requires st.chunkToSlot[c] != INVALID ==> slotIndex == st.chunkToSlot[c] && st' == Hit(st, c)
    requires st.chunkToSlot[c] == INVALID && |st.slots| < st.capacity ==>
               slotIndex == |st.slots| && st' == Fresh(st, c, buffer)
    requires st.chunkToSlot[c] == INVALID && |st.slots| == st.capacity ==>
               IsOldest(st.slots, slotIndex) && st' == Evict(Flushed(st, slotIndex), c, buffer, slotIndex)
    ensures Acquired(st, st', c, slotIndex)
  {
    if st.trace != [] {
      LastIsSafe(st, slotIndex);
    }
  }

  /**
   * Two handles live at once: a second acquisition leaves the chunk acquired just before it in its slot,
   * because the cache has two slots or there is only one chunk.
   */
  lemma TwoHandles(st0: CacheState, st1: CacheState, st2: CacheState, decoded: seq<Vec>, c0: nat, slot0: nat,
                   c1: nat, slot1: nat)
    requires Acquired(st0, st1, c0, slot0) && Acquired(st1, st2, c1, slot1)
    requires Reading(st2, decoded).Some? && (st2.capacity >= 2 || |decoded| == 1)
    ensures slot0 < |st2.slots| && st2.slots[slot0].chunkIndex == c0 && st2.chunkToSlot[c0] == slot0
    ensures slot1 < |st2.slots| && st2.slots[slot1].chunkIndex == c1 && st2.chunkToSlot[c1] == slot1
    ensures c0 != c1 ==> slot0 != slot1
  {
    if st2.capacity >= 2 {
      assert st1.trace[|st1.trace| - 1] == c0;
      ChunkReading(st2, decoded, c0);
    } else {
      FullIsNonEmpty(st2, decoded);
      SlotReading(st2, decoded, slot1);
    }
  }

  /** Writes through handles leave every slot mapped as it was. */
  ghost predicate SameMapping(st: CacheState, st': CacheState) {
    && st'.chunkToSlot == st.chunkToSlot && st'.trace == st.trace && |st'.slots| == |st.slots|
    && forall i | 0 <= i < |st.slots| :: st'.slots[i].chunkIndex == st.slots[i].chunkIndex
  }

  function EmptyCache(capacity: nat, chunkCount: nat): CacheState {
    CacheState(capacity, [], seq(chunkCount, _ => INVALID), [])
  }

  lemma EmptyReading(capacity: nat, decoded: seq<Vec>)
    requires capacity >= 1
    ensures Reading(EmptyCache(capacity, |decoded|), decoded) == Some(decoded)
  {
    var st := EmptyCache(capacity, |decoded|);
    assert Tracks(st) && Coherent(st, decoded);
    assert View(st, decoded) == decoded;
  }

  // ------------------------------------------------------------------ the cache

  class ChunkCache {
    var capacity: nat
    var slots: seq<Slot>
    var chunkToSlot: seq<int>
    var touchCounter: nat
    /** Every chunk acquired since the last reset, oldest first. */
    ghost var trace: seq<nat>

    ghost function State(): CacheState
      reads this
    {
      CacheState(capacity, slots, chunkToSlot, trace)
    }

    /** The logical content of every chunk; `None` if an invariant of the cache is broken. */
    ghost function Contents<P>(store: ChunkStore<P>): (v: Option<seq<Vec>>)
      reads this, store
    {
      if touchCounter == |trace| && store.Valid() then Reading(State(), store.Decoded()) else None
    }

    /** A cache without chunks and without room; `Configure` gives it both. */
    constructor ()
      ensures touchCounter == 0 && State() == EmptyCache(0, 0)
    {
      capacity, slots, chunkToSlot, touchCounter, trace := 0, [], [], 0, [];
    }

    /** The LRU theorem for a live cache. */
    lemma HoldsMostRecent<P>(store: ChunkStore<P>)
      requires Contents(store).Some?
      ensures MostRecent(trace, capacity, Resident(State()))
    {
      ResidentIsMostRecent(State());
    }

    /** A capacity of zero is an error. */
    method Configure(capacity: nat, chunkCount: nat) returns (ok: bool)
      modifies this
      ensures ok == (capacity >= 1)
      ensures ok ==> touchCounter == 0 && State() == EmptyCache(capacity, chunkCount)
      ensures !ok ==> touchCounter == old(touchCounter) && State() == old(State())
    {
      if capacity == 0 { return false; }
      ok := true;
      this.capacity := capacity;
      chunkToSlot := seq(chunkCount, _ => INVALID);
      slots, touchCounter, trace := [], 0, [];
    }

    method FindBuffer(c: nat) returns (buffer: Option<Vec>)
      requires c < |chunkToSlot| && chunkToSlot[c] != INVALID ==> 0 <= chunkToSlot[c] < |slots|
      ensures buffer ==
              if c < |chunkToSlot| && chunkToSlot[c] != INVALID then Some(slots[chunkToSlot[c]].buffer) else None
    {
      if c >= |chunkToSlot| { return None; }
      var slotIndex := chunkToSlot[c];
      if slotIndex == INVALID { return None; }
      return Some(slots[slotIndex].buffer);
    }

    /** The slot whose chunk was used longest ago. */
    method SelectEvictionSlot() returns (candidate: nat)
      requires |slots| > 0
      ensures IsOldest(slots, candidate)
    {
      candidate := 0;
      var minTouch := slots[0].touch;
      var idx := 1;
      while idx < |slots|
        invariant 1 <= idx <= |slots| && candidate < |slots| && minTouch == slots[candidate].touch
        invariant forall i | 0 <= i < idx :: minTouch <= slots[i].touch
      {
        if slots[idx].touch < minTouch {
          minTouch := slots[idx].touch;
          candidate := idx;
        }
        idx := idx + 1;
      }
    }

    /** Writes one dirty slot back; the logical content of every chunk stays what it was. */
    method FlushSlot<P>(store: ChunkStore<P>, slotIndex: nat)
      requires Contents(store).Some? && slotIndex < |slots|
      modifies this`slots, store`payloads
      ensures State() == Flushed(old(State()), slotIndex) && Contents(store) == old(Contents(store))
    {
      hide Reading;
      var slot := slots[slotIndex];
      SlotReading(State(), store.Decoded(), slotIndex);
      FlushKeeps(State(), store.Decoded(), slotIndex);
      if !slot.dirty || slot.chunkIndex == INVALID {
        assert Flushed(State(), slotIndex) == State();
        return;
      }
      var stored := store.StoreChunk(slot.chunkIndex, slot.buffer, store.counts[slot.chunkIndex]);
      slots := slots[slotIndex := slot.(dirty := false)];
    }

    /** Afterwards nothing is dirty, so the payloads alone decode to the logical content. */
    method FlushAll<P>(store: ChunkStore<P>)
      requires Contents(store).Some?
      modifies this`slots, store`payloads
      ensures Contents(store) == old(Contents(store)) && Clean(slots)
    {
      var slotIndex := 0;
      while slotIndex < |slots|
        invariant slotIndex <= |slots|
        invariant Contents(store) == old(Contents(store))
        invariant forall i | 0 <= i < slotIndex :: !slots[i].dirty
      {
        FlushSlot(store, slotIndex);
        slotIndex := slotIndex + 1;
      }
    }

    /** A hit: only the touch stamp changes. */
    method AcquireResident<P>(store: ChunkStore<P>, c: nat) returns (slotIndex: nat)
      requires Contents(store).Some? && c < |chunkToSlot| && chunkToSlot[c] != INVALID
      modifies this
      ensures State() == Hit(old(State()), c) && slotIndex == chunkToSlot[c]
      ensures Contents(store) == old(Contents(store))
    {
      hide Reading;
      HitKeeps(State(), store.Decoded(), c);
      slotIndex := chunkToSlot[c];
      touchCounter := touchCounter + 1;
      slots := slots[slotIndex := slots[slotIndex].(touch := touchCounter)];
      trace := trace + [c];
    }

    /** A miss with a free slot. */
    method AcquireFresh<P>(store: ChunkStore<P>, c: nat) returns (slotIndex: nat, ghost buffer: Vec)
      requires Contents(store).Some? && c < |chunkToSlot| && chunkToSlot[c] == INVALID && |slots| < capacity
      modifies this
      ensures State() == Fresh(old(State()), c, buffer) && slotIndex == |old(slots)|
      ensures Contents(store) == old(Contents(store))
    {
      hide Reading;
      FreshKeeps(State(), store.Decoded(), c);
      slotIndex := |slots|;
      var loaded := store.LoadChunk(c, store.counts[c]);
      touchCounter := touchCounter + 1;
      slots := slots + [Slot(c, loaded.value, false, touchCounter)];
      chunkToSlot := chunkToSlot[c := slotIndex];
      trace := trace + [c];
      buffer := loaded.value;
    }

    /** Gives slot `e` over to chunk `c`, just loaded into `buffer`. */
    method Remap(e: nat, c: nat, buffer: Vec)
      requires c < |chunkToSlot| && e < |slots|
      requires touchCounter == |trace|
      modifies this
      ensures State() == Evict(old(State()), c, buffer, e) && touchCounter == |trace|
    {
      touchCounter := touchCounter + 1;
      chunkToSlot := Unmap(chunkToSlot, slots[e].chunkIndex)[c := e];
      slots := slots[e := Slot(c, buffer, false, touchCounter)];
      trace := trace + [c];
    }

    /** A miss with all slots taken: the oldest slot is written back, unmapped and reused. */
    method AcquireEvicting<P>(store: ChunkStore<P>, c: nat) returns (slotIndex: nat, ghost buffer: Vec)
      requires Contents(store).Some? && c < |chunkToSlot| && chunkToSlot[c] == INVALID && |slots| == capacity
      modifies this, store`payloads
      ensures IsOldest(old(slots), slotIndex)
      ensures State() == Evict(Flushed(old(State()), slotIndex), c, buffer, slotIndex)
      ensures Contents(store) == old(Contents(store))
    {
      hide Reading;
      FullIsNonEmpty(State(), store.Decoded());
      slotIndex := SelectEvictionSlot();
      FlushSlot(store, slotIndex);
      EvictKeeps(State(), store.Decoded(), c, slotIndex);
      var loaded := store.LoadChunk(c, store.counts[c]);
      Remap(slotIndex, c, loaded.value);
      buffer := loaded.value;
    }

    /** The acquisition of a chunk the cache knows. */
    method AcquireKnown<P>(store: ChunkStore<P>, c: nat) returns (slotIndex: nat)
      requires Contents(store).Some? && c < |chunkToSlot|
      modifies this, store`payloads
      ensures Contents(store) == old(Contents(store))
      ensures Acquired(old(State()), State(), c, slotIndex)
    {
      hide Reading;
      ghost var before, buffer := State(), [];
      FullIsNonEmpty(State(), store.Decoded());
      if chunkToSlot[c] != INVALID {
        slotIndex := AcquireResident(store, c);
      } else if |slots| < capacity {
        slotIndex, buffer := AcquireFresh(store, c);
      } else {
        slotIndex, buffer := AcquireEvicting(store, c);
      }
      AcquiredEffect(before, State(), old(store.Decoded()), c, buffer, slotIndex);
    }

    /**
     * Returns the slot of chunk `c`, loading it and evicting the least recently used chunk if need be.
     * No chunk's logical content changes, no other slot is touched, nothing becomes dirty, and with two
     * slots the chunk acquired just before stays where it was. An unknown chunk is an error.
     */
    method Acquire<P>(store: ChunkStore<P>, c: nat) returns (slotIndex: Option<nat>)
      requires Contents(store).Some?
      modifies this, store`payloads
      ensures Contents(store) == old(Contents(store)) && slotIndex.Some? == (c < |old(chunkToSlot)|)
      ensures slotIndex.Some? ==> Acquired(old(State()), State(), c, slotIndex.value)
      ensures slotIndex.None? ==> State() == old(State())
    {
      if c >= |chunkToSlot| { return None; }
      var slot := AcquireKnown(store, c);
      slotIndex := Some(slot);
    }

    /**
     * A kernel's write through a live handle: `slot.data[local] = a`, and `*slot.dirty = true` if `mark`.
     * A write that changes a buffer must mark it.
     */
    method WriteThrough<P>(store: ChunkStore<P>, slotIndex: nat, local: nat, a: Amp, mark: bool)
      requires Contents(store).Some? && slotIndex < |slots| && local < |slots[slotIndex].buffer|
      requires mark || slots[slotIndex].buffer[local] == a
      modifies this`slots
      ensures State() == Written(old(State()), slotIndex, local, a, mark)
      ensures var c, v := old(slots)[slotIndex].chunkIndex, old(Contents(store)).value;
              0 <= c < |v| && local < |v[c]| && Contents(store) == Some(v[c := v[c][local := a]])
    {
      hide Reading;
      WriteKeeps(State(), store.Decoded(), slotIndex, local, a, mark);
      var slot := slots[slotIndex];
      slots := slots[slotIndex := slot.(buffer := slot.buffer[local := a], dirty := slot.dirty || mark)];
    }
  }

  // ----------------------------------------------------------- the LRU theorem

  ghost function Resident(st: CacheState): set<nat> {
    set c: nat | c < |st.chunkToSlot| && st.chunkToSlot[c] != INVALID
  }

  /** After any history, exactly the `capacity` most recently acquired distinct chunks are resident. */
  lemma ResidentIsMostRecent(st: CacheState)
    requires Tracks(st)
    ensures MostRecent(st.trace, st.capacity, Resident(st))
  {
    var r, trace := Resident(st), st.trace;
    forall c | c in r
      ensures c in Elements(trace)
    {
      assert st.slots[st.chunkToSlot[c]].chunkIndex == c;
    }
    ResidentCount(st);
    SubsetSize(r, Elements(trace));
    if d :| d in Elements(trace) && d !in r {
      assert d in trace && st.chunkToSlot[d] == INVALID;
    } else {
      assert r == Elements(trace);
    }
  }

  /** As many chunks are resident as there are slots. */
  lemma ResidentCount(st: CacheState)
    requires Tracks(st)
    ensures |Resident(st)| == |st.slots|
  {
    var chunks := seq(|st.slots|, i requires 0 <= i < |st.slots| => st.slots[i].chunkIndex);
    InverseSize(Resident(st), |st.slots|, st.chunkToSlot, chunks);
  }

  /** A finite set in bijection with `[0, n)` has `n` elements. */
  lemma {:induction false} InverseSize(r: set<int>, n: nat, to: seq<int>, from: seq<int>)
    requires n <= |from|
    requires forall c | c in r :: 0 <= c < |to| && 0 <= to[c] < n && from[to[c]] == c
    requires forall i | 0 <= i < n :: from[i] in r && to[from[i]] == i
    ensures |r| == n
  {
    if n == 0 {
      forall c: int
        ensures c !in r
      {
        var inside := c in r;
      }
      assert r == {};
    } else {
      InverseSize(r - {from[n - 1]}, n - 1, to, from);
    }
  }
}
