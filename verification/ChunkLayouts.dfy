/** How a state vector is cut into fixed-width chunks of interleaved doubles. */
module ChunkLayouts {
  import opened Options

  function Min(a: nat, b: nat): nat { if a <= b then a else b }

  lemma DivUnique(q: nat, r: nat, d: nat)
    requires r < d
    ensures (q * d + r) / d == q && (q * d + r) % d == r
  {
    var s := q * d + r;
    Quotient(s, d, q, r, s / d, s % d);
  }

  /** Quotient and remainder are unique. */
  lemma Quotient(s: nat, d: nat, q: nat, r: nat, q': nat, r': nat)
    requires s == q * d + r && r < d
    requires s == q' * d + r' && r' < d
    ensures q == q' && r == r'
  {
    if q < q' {
      assert (q + 1) * d == q * d + d;
      MulMono(q + 1, q', d);
    } else if q' < q {
      assert (q' + 1) * d == q' * d + d;
      MulMono(q' + 1, q, d);
    }
  }

  lemma MulMono(a: nat, b: nat, d: nat)
    requires a <= b
    ensures a * d <= b * d
  {
  }

  datatype ChunkRef = ChunkRef(chunkIndex: nat, elemOffset: nat)

  /** The constructor of the layout: `totalStates` states cut every `statesPerChunk` states. */
  function MakeLayout(totalStates: nat, statesPerChunk: nat): (l: Option<ChunkLayout>)
    ensures l.None? <==> statesPerChunk == 0
    ensures l.Some? ==> l.value.totalStates == totalStates && l.value.statesPerChunk == statesPerChunk
    ensures l.Some? ==> if totalStates == 0 then l.value.chunkCount == 0 else l.value.Valid()
  {
    if statesPerChunk == 0 then None
    else
      var t, d := totalStates * 2, statesPerChunk * 2;
      var count := if t == 0 then 0 else (t + d - 1) / d;
      assert t > 0 ==> count >= 1 && (count - 1) * d < t <= count * d by {
        if t > 0 { CeilDiv(t, d, count); }
      }
      Some(ChunkLayout(totalStates, t, statesPerChunk, d, count))
  }

  /** The rounded-up quotient. */
  lemma CeilDiv(t: nat, d: nat, q: nat)
    requires t >= 1 && d >= 1 && q == (t + d - 1) / d
    ensures q >= 1 && (q - 1) * d < t <= q * d
  {
    assert t + d - 1 == q * d + (t + d - 1) % d;
    assert (q - 1) * d == q * d - d;
  }

  datatype ChunkLayout = ChunkLayout(
    totalStates: nat, totalElems: nat, statesPerChunk: nat, elemsPerChunk: nat, chunkCount: nat) {

    /** All chunks but the last are full and the last one is not empty. */
    ghost predicate Valid() {
      && statesPerChunk >= 1 && totalStates >= 1 && chunkCount >= 1
      && totalElems == totalStates * 2
      && elemsPerChunk == statesPerChunk * 2
      && (chunkCount - 1) * elemsPerChunk < totalElems <= chunkCount * elemsPerChunk
    }

    /** Actual width of one chunk in doubles; only the last one may be short. */
    function ChunkElemCount(c: nat): nat
      requires Valid() && c < chunkCount
    {
      MulMono(c, chunkCount - 1, elemsPerChunk);
      Min(elemsPerChunk, totalElems - c * elemsPerChunk)
    }

    function ChunkStateBegin(c: nat): nat
      requires Valid() && c < chunkCount
    {
      c * statesPerChunk
    }

    function StateRef(s: nat): ChunkRef
      requires Valid()
    {
      ChunkRef(s / statesPerChunk, (s % statesPerChunk) * 2)
    }

    /** Width of a chunk in basis states. */
    function StatesIn(c: nat): nat
      requires Valid() && c < chunkCount
    {
      ChunkElemCount(c) / 2
    }

    /** A chunk holds whole states, at least one; the chunks tile the register in order. */
    lemma ChunkShape(c: nat)
      requires Valid() && c < chunkCount
      ensures ChunkElemCount(c) == 2 * StatesIn(c)
      ensures 1 <= StatesIn(c) <= statesPerChunk
      ensures ChunkStateBegin(c) + StatesIn(c) ==
              if c + 1 < chunkCount then ChunkStateBegin(c + 1) else totalStates
      ensures ChunkStateBegin(c) + StatesIn(c) <= totalStates
      ensures c + 1 < chunkCount ==> StatesIn(c) == statesPerChunk
    {
      assert c * elemsPerChunk == 2 * ChunkStateBegin(c);
      assert (c + 1) * elemsPerChunk == c * elemsPerChunk + elemsPerChunk;
      MulMono(c, chunkCount - 1, elemsPerChunk);
      if c + 1 < chunkCount {
        MulMono(c + 1, chunkCount - 1, elemsPerChunk);
      }
    }

    /** Every state lives in exactly one chunk slot, and `StateRef` finds it. */
    lemma StateRefCorrect(s: nat)
      requires Valid() && s < totalStates
      ensures var r := StateRef(s);
              && r.chunkIndex < chunkCount
              && r.elemOffset / 2 < StatesIn(r.chunkIndex)
              && ChunkStateBegin(r.chunkIndex) + r.elemOffset / 2 == s
    {
      var c, l := s / statesPerChunk, s % statesPerChunk;
      assert s == c * statesPerChunk + l;
      if c >= chunkCount {
        assert chunkCount * elemsPerChunk == 2 * (chunkCount * statesPerChunk);
        MulMono(chunkCount, c, statesPerChunk);
        assert false;
      }
      ChunkShape(c);
    }

    /** The converse: a slot position inside a chunk is the home of exactly one state. */
    lemma SlotIsState(c: nat, l: nat)
      requires Valid() && c < chunkCount && l < StatesIn(c)
      ensures ChunkStateBegin(c) + l < totalStates
      ensures StateRef(ChunkStateBegin(c) + l) == ChunkRef(c, 2 * l)
    {
      ChunkShape(c);
      DivUnique(c, l, statesPerChunk);
    }
  }
}
