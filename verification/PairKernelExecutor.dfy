/** The three traversals that enumerate the pairs one target bit induces. */
module PairKernelExecutor {
  import opened Amplitudes
  import opened Bits
  import opened ChunkLayouts
  import opened PairKernels

  datatype PairKernelMode = Fallback | IntraChunk | InterChunk

  /** The arguments of one callback, per traversal. */
  datatype PairVisit = PairVisit(state0: nat, state1: nat)
  datatype IntraVisit = IntraVisit(chunkIndex: nat, local0: nat, local1: nat, pair: PairVisit)
  datatype InterVisit = InterVisit(chunk0: nat, chunk1: nat, local: nat, pair: PairVisit)

  function SelectMode(layout: ChunkLayout, targetMask: nat): PairKernelMode {
    var spc := layout.statesPerChunk;
    if spc == 0 || And(spc, spc - 1) != 0 then Fallback
    else if targetMask < spc then IntraChunk
    else if targetMask % spc == 0 then InterChunk
    else Fallback
  }

  /** The lower states of the visited pairs, in order. */
  function Firsts(visits: seq<PairVisit>): seq<nat> {
    seq(|visits|, i requires 0 <= i < |visits| => visits[i].state0)
  }

  function IntraPairs(visits: seq<IntraVisit>): seq<PairVisit> {
    seq(|visits|, i requires 0 <= i < |visits| => visits[i].pair)
  }

  function InterPairs(visits: seq<InterVisit>): seq<PairVisit> {
    seq(|visits|, i requires 0 <= i < |visits| => visits[i].pair)
  }

  /** The visits are the pairs (s, s + 2^k) of all clear states s < m, each once, in order. */
  ghost predicate Enumerates(visits: seq<PairVisit>, m: nat, k: nat) {
    && Firsts(visits) == ClearStates(m, k)
    && forall i | 0 <= i < |visits| :: visits[i].state1 == visits[i].state0 + Pow2(k)
  }

  ghost predicate InChunk(layout: ChunkLayout, v: IntraVisit)
    requires layout.Valid()
  {
    && v.chunkIndex < layout.chunkCount
    && v.local0 < v.local1 < layout.StatesIn(v.chunkIndex)
    && v.pair.state0 == layout.ChunkStateBegin(v.chunkIndex) + v.local0
    && v.pair.state1 == layout.ChunkStateBegin(v.chunkIndex) + v.local1
  }

  ghost predicate AcrossChunks(layout: ChunkLayout, delta: nat, v: InterVisit)
    requires layout.Valid()
  {
    && v.chunk1 == v.chunk0 + delta && v.chunk0 < v.chunk1 < layout.chunkCount
    && v.local < layout.StatesIn(v.chunk0) && v.local < layout.StatesIn(v.chunk1)
    && v.pair.state0 == layout.ChunkStateBegin(v.chunk0) + v.local
    && v.pair.state1 == layout.ChunkStateBegin(v.chunk1) + v.local
  }

  /** The traversal so far has done exactly the pairs based below `m`. */
  ghost predicate IntraUpTo(layout: ChunkLayout, visits: seq<IntraVisit>, m: nat, k: nat)
    requires layout.Valid()
  {
    && Enumerates(IntraPairs(visits), m, k)
    && forall i | 0 <= i < |visits| :: InChunk(layout, visits[i])
  }

  ghost predicate InterUpTo(layout: ChunkLayout, delta: nat, visits: seq<InterVisit>, m: nat, k: nat)
    requires layout.Valid()
  {
    && Enumerates(InterPairs(visits), m, k)
    && forall i | 0 <= i < |visits| :: AcrossChunks(layout, delta, visits[i])
  }

  lemma NextPair(visits: seq<PairVisit>, m: nat, k: nat)
    requires Enumerates(visits, m, k) && !Bit(m, k)
    ensures Enumerates(visits + [PairVisit(m, m + Pow2(k))], m + 1, k)
  {
    hide Bit, Pow2;
    assert Firsts(visits + [PairVisit(m, m + Pow2(k))]) == Firsts(visits) + [m];
  }

  lemma NextIntra(layout: ChunkLayout, visits: seq<IntraVisit>, v: IntraVisit, m: nat, k: nat)
    requires layout.Valid() && IntraUpTo(layout, visits, m, k) && !Bit(m, k)
    requires v.pair == PairVisit(m, m + Pow2(k)) && InChunk(layout, v)
    ensures IntraUpTo(layout, visits + [v], m + 1, k)
  {
    NextPair(IntraPairs(visits), m, k);
    assert IntraPairs(visits + [v]) == IntraPairs(visits) + [v.pair];
  }

  lemma NextInter(layout: ChunkLayout, delta: nat, visits: seq<InterVisit>, v: InterVisit, m: nat, k: nat)
    requires layout.Valid() && InterUpTo(layout, delta, visits, m, k) && !Bit(m, k)
    requires v.pair == PairVisit(m, m + Pow2(k)) && AcrossChunks(layout, delta, v)
    ensures InterUpTo(layout, delta, visits + [v], m + 1, k)
  {
    NextPair(InterPairs(visits), m, k);
    assert InterPairs(visits + [v]) == InterPairs(visits) + [v.pair];
  }

  // ----------------------------------------------------------- bit geometry

  /** Where the `m`-th block of 2^(k+1) states starts. */
  function BlockStart(m: nat, k: nat): nat {
    if m == 0 then 0 else BlockStart(m - 1, k) + 2 * Pow2(k)
  }

  lemma {:induction false} BlockStartIsProduct(m: nat, k: nat)
    ensures BlockStart(m, k) == m * (2 * Pow2(k))
  {
    if m > 0 {
      BlockStartIsProduct(m - 1, k);
    }
  }

  lemma {:induction false} BlockStartAdd(a: nat, b: nat, k: nat)
    ensures BlockStart(a + b, k) == BlockStart(a, k) + BlockStart(b, k)
  {
    if b > 0 {
      BlockStartAdd(a, b - 1, k);
    }
  }

  lemma NextStart(m: nat, k: nat)
    ensures BlockStart(m + 1, k) == BlockStart(m, k) + 2 * Pow2(k)
  {
  }

  lemma StartsEmpty(k: nat)
    ensures BlockStart(0, k) == 0 && ClearStates(0, k) == []
  {
  }

  /** A block that starts before the end of a whole number of blocks ends by it. */
  lemma {:induction false} NextBlock(m: nat, total: nat, k: nat)
    ensures m >= total ==> BlockStart(m, k) >= BlockStart(total, k)
    ensures m < total ==> BlockStart(m, k) + 2 * Pow2(k) <= BlockStart(total, k)
    decreases m + total
  {
    if m > total {
      NextBlock(m - 1, total, k);
    } else if m + 1 < total {
      NextBlock(m, total - 1, k);
    }
  }

  /** 2^n states are a whole number of 2^(k+1)-blocks. */
  lemma WholeBlocks(n: nat, k: nat)
    requires k < n
    ensures Pow2(n) == BlockStart(Pow2(n - k - 1), k)
  {
    BlockStartIsProduct(Pow2(n - k - 1), k);
    Pow2Add(n - k - 1, k + 1);
  }

  lemma Regroup(m: nat, a: nat, b: nat)
    ensures m * (2 * a) * b == m * (2 * (a * b))
  {
    assert (2 * a) * b == 2 * (a * b);
  }

  /** Blocks of 2^(k-p+1) chunks of 2^p states are blocks of 2^(k+1) states. */
  lemma BlocksOfChunks(m: nat, k: nat, p: nat)
    requires p <= k
    ensures BlockStart(m, k - p) * Pow2(p) == BlockStart(m, k)
  {
    hide BlockStart, Pow2;
    BlockStartIsProduct(m, k - p);
    BlockStartIsProduct(m, k);
    Pow2Add(k - p, p);
    Regroup(m, Pow2(k - p), Pow2(p));
  }

  /** In a block the first half has bit `k` clear, the second half set. */
  lemma HalfBlocks(m: nat, o: nat, k: nat)
    ensures o < Pow2(k) ==> !Bit(BlockStart(m, k) + o, k)
    ensures Pow2(k) <= o < 2 * Pow2(k) ==> Bit(BlockStart(m, k) + o, k)
  {
    BlockStartIsProduct(m, k);
    BitAddMultiple(m, o, k);
    BitBound(o, k);
  }

  /** Skipping the second half of a block skips no clear state. */
  lemma {:induction false} SkipSetHalf(m: nat, o: nat, k: nat)
    requires o <= Pow2(k)
    ensures var b := BlockStart(m, k) + Pow2(k);
            ClearStates(b + o, k) == ClearStates(b, k)
  {
    if o > 0 {
      SkipSetHalf(m, o - 1, k);
      HalfBlocks(m, Pow2(k) + o - 1, k);
      var b := BlockStart(m, k) + Pow2(k);
      assert ClearStates(b + o, k) == ClearStates(b + o - 1, k) + [];
    }
  }

  lemma DoubledWidth(c: int, d: int)
    ensures c * (2 * d) == 2 * (c * d)
  {
  }

  /** The chunk count is pinned down by the tiling. */
  lemma CountIs(layout: ChunkLayout, count: nat)
    requires layout.Valid() && count >= 1
    requires (count - 1) * layout.statesPerChunk < layout.totalStates <= count * layout.statesPerChunk
    ensures layout.chunkCount == count
  {
    var cc, d := layout.chunkCount, layout.statesPerChunk;
    DoubledWidth(cc - 1, d);
    DoubledWidth(cc, d);
    if cc < count {
      MulMono(cc, count - 1, d);
    } else if count < cc {
      MulMono(count, cc - 1, d);
    }
  }

  /** With 2^p-wide chunks a register of 2^n states is one short chunk or all full chunks. */
  lemma AlignedChunks(layout: ChunkLayout, n: nat, p: nat)
    requires layout.Valid() && layout.totalStates == Pow2(n) && layout.statesPerChunk == Pow2(p)
    ensures n < p ==> layout.chunkCount == 1 && layout.StatesIn(0) == Pow2(n)
    ensures p <= n ==> layout.chunkCount == Pow2(n - p)
    ensures p <= n ==> forall c: nat | c < layout.chunkCount :: layout.StatesIn(c) == Pow2(p)
  {
    if n < p {
      Pow2Mono(n, p);
      CountIs(layout, 1);
      layout.ChunkShape(0);
    } else {
      var count := Pow2(n - p);
      Pow2Add(n - p, p);
      assert (count - 1) * Pow2(p) == count * Pow2(p) - Pow2(p);
      CountIs(layout, count);
      forall c: nat | c < count
        ensures layout.StatesIn(c) == Pow2(p)
      {
        layout.ChunkShape(c);
      }
    }
  }

  /** What each mode tells the traversal about chunk width and target bit. */
  lemma ModeMeans(layout: ChunkLayout, k: nat) returns (p: nat)
    requires layout.Valid()
    ensures SelectMode(layout, Pow2(k)) == IntraChunk ==> layout.statesPerChunk == Pow2(p) && k < p
    ensures SelectMode(layout, Pow2(k)) == InterChunk ==> layout.statesPerChunk == Pow2(p) && p <= k
  {
    p := 0;
    if SelectMode(layout, Pow2(k)) != Fallback {
      PowerOfTwoTest(layout.statesPerChunk);
      p :| layout.statesPerChunk == Pow2(p);
      if p <= k {
        Pow2Mono(p, k);
      } else {
        Pow2Mono(k, p);
      }
    }
  }

  /** The generic traversal is taken exactly for chunk widths that are not powers of two. */
  lemma FallbackExactly(layout: ChunkLayout, k: nat)
    requires layout.Valid()
    ensures SelectMode(layout, Pow2(k)) == Fallback <==>
            forall p: nat :: layout.statesPerChunk != Pow2(p)
  {
    PowerOfTwoTest(layout.statesPerChunk);
    if p: nat :| layout.statesPerChunk == Pow2(p) {
      if p <= k {
        Pow2Add(k - p, p);
        DivUnique(Pow2(k - p), 0, Pow2(p));
      } else {
        Pow2Mono(k, p);
      }
    }
  }

  predicate Covers(v: PairVisit, s: nat) { s == v.state0 || s == v.state1 }

  ghost predicate IsVisited(visits: seq<PairVisit>, s: nat) {
    exists i :: 0 <= i < |visits| && Covers(visits[i], s)
  }

  /** What every traversal delivers: the visited pairs partition the register. */
  lemma PairsPartition(visits: seq<PairVisit>, n: nat, k: nat)
    requires k < n && Enumerates(visits, Pow2(n), k)
    ensures forall i | 0 <= i < |visits| :: visits[i].state0 < visits[i].state1 < Pow2(n)
    ensures forall s: nat | s < Pow2(n) :: IsVisited(visits, s)
    ensures forall i, j, s: nat | 0 <= i < |visits| && 0 <= j < |visits| &&
                                  Covers(visits[i], s) && Covers(visits[j], s) :: i == j
  {
    hide Bit, ClearStates, Pow2;
    var states := ClearStates(Pow2(n), k);
    ClearStatesExact(Pow2(n), k);
    assert forall i | 0 <= i < |visits| :: visits[i].state0 == states[i];
    forall i | 0 <= i < |visits|
      ensures !Bit(visits[i].state0, k) && Bit(visits[i].state1, k) && visits[i].state1 < Pow2(n)
    {
      assert states[i] in states;
      SetBit(states[i], k, k);
      SetBitRange(states[i], k, n);
    }
    forall s: nat | s < Pow2(n)
      ensures IsVisited(visits, s)
    {
      BaseIsClear(s, k);
      assert PairBase(s, k) in states;
      var i :| 0 <= i < |states| && states[i] == PairBase(s, k);
      assert |Firsts(visits)| == |visits| && visits[i].state0 == PairBase(s, k);
      assert Covers(visits[i], s);
    }
  }

  /** The next callback of a traversal that has done the first `i`. */
  lemma NextVisit(v: Vec, k: nat, f: PairFn, states: seq<nat>, i: nat, pairs: seq<PairVisit>)
    requires PairsFit(states, k, |v|) && i < |states| && Enumerates(pairs, |v|, k) && states == ClearStates(|v|, k)
    ensures |pairs| == |states| && pairs[i].state0 == states[i] && pairs[i].state1 == states[i] + Pow2(k) < |v|
    ensures RunVisits(v, k, f, states[..i + 1]) == PairStep(RunVisits(v, k, f, states[..i]), k, f, states[i])
  {
    assert Firsts(pairs)[i] == pairs[i].state0;
    assert states[..i + 1][..i] == states[..i];
  }

  // -------------------------------------------------------------- traversals

  /** The inner loop of the generic traversal: the pairs of one block, appended to `prior`. */
  method VisitStride(targetMask: nat, base: nat, prior: seq<PairVisit>, ghost m: nat, ghost k: nat)
    returns (visits: seq<PairVisit>)
    requires targetMask == Pow2(k) && base == BlockStart(m, k) && Enumerates(prior, base, k)
    ensures Enumerates(visits, BlockStart(m + 1, k), k)
  {
    hide Bit;
    visits := prior;
    var offset := 0;
    while offset < targetMask
      invariant offset <= targetMask
      invariant Enumerates(visits, base + offset, k)
    {
      var state0 := base + offset;
      HalfBlocks(m, offset, k);
      NextPair(visits, state0, k);
      visits := visits + [PairVisit(state0, state0 + targetMask)];
      offset := offset + 1;
    }
    SkipSetHalf(m, targetMask, k);
  }

  method RunFallback(numStates: nat, targetMask: nat, ghost n: nat, ghost k: nat) returns (visits: seq<PairVisit>)
    requires numStates == Pow2(n) && targetMask == Pow2(k) && k < n
    ensures Enumerates(visits, numStates, k)
  {
    var stride := targetMask * 2;
    ghost var total := Pow2(n - k - 1);
    WholeBlocks(n, k);
    ghost var m: nat := 0;
    visits := [];
    var base := 0;
    while base < numStates
      invariant base == BlockStart(m, k) <= numStates
      invariant Enumerates(visits, base, k)
      decreases numStates - base
    {
      visits := VisitStride(targetMask, base, visits, m, k);
      NextBlock(m, total, k);
      base, m := base + stride, m + 1;
    }
  }

  /** The innermost loop of the intra-chunk traversal: the pairs of one block, appended to `prior`. */
  method VisitBlock(layout: ChunkLayout, localMask: nat, chunkIndex: nat, base: nat, prior: seq<IntraVisit>,
                    ghost g: nat, ghost k: nat) returns (visits: seq<IntraVisit>)
    requires layout.Valid() && chunkIndex < layout.chunkCount && localMask == Pow2(k)
    requires layout.ChunkStateBegin(chunkIndex) + base == BlockStart(g, k)
    requires base + 2 * localMask <= layout.StatesIn(chunkIndex)
    requires IntraUpTo(layout, prior, BlockStart(g, k), k)
    ensures IntraUpTo(layout, visits, BlockStart(g + 1, k), k)
  {
    var statesInChunk := layout.ChunkElemCount(chunkIndex) / 2;
    var chunkBaseState := layout.ChunkStateBegin(chunkIndex);
    visits := prior;
    var offset := 0;
    while offset < localMask
      invariant offset <= localMask
      invariant IntraUpTo(layout, visits, BlockStart(g, k) + offset, k)
    {
      var local0 := base + offset;
      if local0 + localMask >= statesInChunk { break; }
      var local1 := local0 + localMask;
      var visit := IntraVisit(chunkIndex, local0, local1, PairVisit(chunkBaseState + local0, chunkBaseState + local1));
      HalfBlocks(g, offset, k);
      NextIntra(layout, visits, visit, chunkBaseState + local0, k);
      visits := visits + [visit];
      offset := offset + 1;
    }
    SkipSetHalf(g, localMask, k);
  }

  /** The middle loop: all pairs of one chunk, appended to `prior`. */
  method VisitChunk(layout: ChunkLayout, localMask: nat, chunkIndex: nat, prior: seq<IntraVisit>,
                    ghost first: nat, ghost blocks: nat, ghost k: nat) returns (visits: seq<IntraVisit>)
    requires layout.Valid() && chunkIndex < layout.chunkCount && localMask == Pow2(k)
    requires layout.ChunkStateBegin(chunkIndex) == BlockStart(first, k)
    requires layout.StatesIn(chunkIndex) == BlockStart(blocks, k)
    requires IntraUpTo(layout, prior, BlockStart(first, k), k)
    ensures IntraUpTo(layout, visits, BlockStart(first + blocks, k), k)
  {
    var stride := localMask * 2;
    var statesInChunk := layout.ChunkElemCount(chunkIndex) / 2;
    ghost var m: nat := 0;
    visits := prior;
    var base := 0;
    while base < statesInChunk
      invariant base == BlockStart(m, k) && m <= blocks
      invariant IntraUpTo(layout, visits, BlockStart(first + m, k), k)
      decreases statesInChunk - base
    {
      NextBlock(m, blocks, k);
      BlockStartAdd(first, m, k);
      visits := VisitBlock(layout, localMask, chunkIndex, base, visits, first + m, k);
      base, m := base + stride, m + 1;
    }
    NextBlock(m, blocks, k);
  }

  method RunIntraChunk(layout: ChunkLayout, targetMask: nat, ghost n: nat, ghost k: nat)
    returns (visits: seq<IntraVisit>)
    requires layout.Valid() && layout.totalStates == Pow2(n)
    requires targetMask == Pow2(k) && k < n && SelectMode(layout, targetMask) == IntraChunk
    ensures IntraUpTo(layout, visits, layout.totalStates, k)
  {
    ghost var p := ModeMeans(layout, k);
    AlignedChunks(layout, n, p);
    ghost var width := if n < p then n else p;
    WholeBlocks(width, k);
    ghost var perChunk := Pow2(width - k - 1);
    visits := [];
    ghost var first: nat := 0;
    var chunkIndex := 0;
    while chunkIndex < layout.chunkCount
      invariant chunkIndex <= layout.chunkCount
      invariant BlockStart(first, k) ==
                if chunkIndex < layout.chunkCount then layout.ChunkStateBegin(chunkIndex) else layout.totalStates
      invariant IntraUpTo(layout, visits, BlockStart(first, k), k)
    {
      layout.ChunkShape(chunkIndex);
      visits := VisitChunk(layout, targetMask, chunkIndex, visits, first, perChunk, k);
      BlockStartAdd(first, perChunk, k);
      first := first + perChunk;
      chunkIndex := chunkIndex + 1;
    }
  }

  /** The innermost loop of the inter-chunk traversal: all pairs of two partner chunks, appended to `prior`. */
  method VisitChunkPair(layout: ChunkLayout, chunk0: nat, chunk1: nat, prior: seq<InterVisit>, ghost delta: nat,
                        ghost m: nat, ghost o: nat, ghost k: nat) returns (visits: seq<InterVisit>)
    requires layout.Valid() && chunk0 < chunk1 == chunk0 + delta < layout.chunkCount
    requires layout.StatesIn(chunk0) == layout.StatesIn(chunk1) == layout.statesPerChunk
    requires layout.ChunkStateBegin(chunk0) == BlockStart(m, k) + o
    requires layout.ChunkStateBegin(chunk1) == layout.ChunkStateBegin(chunk0) + Pow2(k)
    requires o + layout.statesPerChunk <= Pow2(k)
    requires InterUpTo(layout, delta, prior, BlockStart(m, k) + o, k)
    ensures InterUpTo(layout, delta, visits, BlockStart(m, k) + o + layout.statesPerChunk, k)
  {
    var statesInPair := Min(layout.ChunkElemCount(chunk0) / 2, layout.ChunkElemCount(chunk1) / 2);
    var chunk0BaseState := layout.ChunkStateBegin(chunk0);
    var chunk1BaseState := layout.ChunkStateBegin(chunk1);
    visits := prior;
    var local := 0;
    while local < statesInPair
      invariant local <= statesInPair
      invariant InterUpTo(layout, delta, visits, chunk0BaseState + local, k)
    {
      var visit := InterVisit(chunk0, chunk1, local, PairVisit(chunk0BaseState + local, chunk1BaseState + local));
      HalfBlocks(m, o + local, k);
      NextInter(layout, delta, visits, visit, chunk0BaseState + local, k);
      visits := visits + [visit];
      local := local + 1;
    }
  }

  /** The middle loop: the partner chunks of one group, appended to `prior`. */
  method VisitGroup(layout: ChunkLayout, groupBase: nat, chunkDelta: nat, prior: seq<InterVisit>,
                    ghost m: nat, ghost k: nat) returns (visits: seq<InterVisit>)
    requires layout.Valid() && chunkDelta * layout.statesPerChunk == Pow2(k)
    requires forall c: nat | c < layout.chunkCount :: layout.StatesIn(c) == layout.statesPerChunk
    requires groupBase + 2 * chunkDelta <= layout.chunkCount
    requires groupBase * layout.statesPerChunk == BlockStart(m, k)
    requires InterUpTo(layout, chunkDelta, prior, BlockStart(m, k), k)
    ensures InterUpTo(layout, chunkDelta, visits, BlockStart(m, k) + Pow2(k), k)
  {
    visits := prior;
    ghost var o: nat := 0;
    var groupOffset := 0;
    while groupOffset < chunkDelta
      invariant groupOffset <= chunkDelta && o == groupOffset * layout.statesPerChunk
      invariant InterUpTo(layout, chunkDelta, visits, BlockStart(m, k) + o, k)
    {
      var chunk0 := groupBase + groupOffset;
      var chunk1 := chunk0 + chunkDelta;
      if chunk1 >= layout.chunkCount { break; }
      ChunkPairGeometry(groupBase, groupOffset, chunkDelta, layout.statesPerChunk);
      visits := VisitChunkPair(layout, chunk0, chunk1, visits, chunkDelta, m, o, k);
      groupOffset, o := groupOffset + 1, o + layout.statesPerChunk;
    }
  }

  lemma NoGroups(layout: ChunkLayout, delta: nat, k: nat)
    requires layout.Valid()
    ensures InterUpTo(layout, delta, [], BlockStart(0, k), k)
  {
    StartsEmpty(k);
  }

  /** The set half of a block holds no further pair. */
  lemma GroupDone(layout: ChunkLayout, delta: nat, visits: seq<InterVisit>, m: nat, k: nat)
    requires layout.Valid() && InterUpTo(layout, delta, visits, BlockStart(m, k) + Pow2(k), k)
    ensures InterUpTo(layout, delta, visits, BlockStart(m + 1, k), k)
  {
    hide BlockStart, ClearStates, InterPairs, AcrossChunks;
    SkipSetHalf(m, Pow2(k), k);
    NextStart(m, k);
  }

  method RunInterChunk(layout: ChunkLayout, targetMask: nat, ghost n: nat, ghost k: nat)
    returns (visits: seq<InterVisit>)
    requires layout.Valid() && layout.totalStates == Pow2(n)
    requires targetMask == Pow2(k) && k < n && SelectMode(layout, targetMask) == InterChunk
    ensures InterUpTo(layout, targetMask / layout.statesPerChunk, visits, layout.totalStates, k)
  {
    hide BlockStart, Bit, SelectMode, ClearStates, InterPairs, AcrossChunks;
    ghost var p := ModeMeans(layout, k);
    StartsEmpty(k - p);
    var chunkDelta := targetMask / layout.statesPerChunk;
    var chunkStride := chunkDelta * 2;
    ghost var groups := Pow2(n - k - 1);
    ChunkGroups(layout, n, k, p);
    visits := [];
    NoGroups(layout, chunkDelta, k);
    ghost var m: nat := 0;
    var groupBase := 0;
    while groupBase < layout.chunkCount
      invariant groupBase == BlockStart(m, k - p) && m <= groups
      invariant InterUpTo(layout, chunkDelta, visits, BlockStart(m, k), k)
      decreases layout.chunkCount - groupBase
    {
      NextBlock(m, groups, k - p);
      BlocksOfChunks(m, k, p);
      visits := VisitGroup(layout, groupBase, chunkDelta, visits, m, k);
      GroupDone(layout, chunkDelta, visits, m, k);
      NextStart(m, k - p);
      groupBase, m := groupBase + chunkStride, m + 1;
    }
    NextBlock(m, groups, k - p);
  }

  /** The inter-chunk loop bounds in blocks. */
  lemma ChunkGroups(layout: ChunkLayout, n: nat, k: nat, p: nat)
    requires layout.Valid() && layout.totalStates == Pow2(n) && layout.statesPerChunk == Pow2(p) && p <= k < n
    ensures Pow2(k) / Pow2(p) == Pow2(k - p) && Pow2(k - p) * Pow2(p) == Pow2(k)
    ensures forall c: nat | c < layout.chunkCount :: layout.StatesIn(c) == Pow2(p)
    ensures layout.chunkCount == BlockStart(Pow2(n - k - 1), k - p)
    ensures layout.totalStates == BlockStart(Pow2(n - k - 1), k)
  {
    AlignedChunks(layout, n, p);
    Pow2Add(k - p, p);
    DivUnique(Pow2(k - p), 0, Pow2(p));
    WholeBlocks(n - p, k - p);
    WholeBlocks(n, k);
  }

  /** Chunk `g + o` and its partner `d` chunks further on, in states. */
  lemma ChunkPairGeometry(g: nat, o: nat, d: nat, spc: nat)
    requires o < d
    ensures (g + o) * spc == g * spc + o * spc
    ensures (g + o + d) * spc == (g + o) * spc + d * spc
    ensures (o + 1) * spc == o * spc + spc <= d * spc
  {
    MulMono(o + 1, d, spc);
  }
}
