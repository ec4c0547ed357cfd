/** Chunked contents read as one state vector. */
module ChunkViews {
  import opened Amplitudes
  import opened ChunkLayouts
  import opened Options

  /** The chunk contents have the widths the layout prescribes. */
  ghost predicate Shaped(layout: ChunkLayout, view: seq<Vec>) {
    && layout.Valid() && |view| == layout.chunkCount
    && forall c | 0 <= c < |view| :: |view[c]| == layout.StatesIn(c)
  }

  /** The amplitude of state `s`, found through its chunk reference. */
  function StateAmp(layout: ChunkLayout, view: seq<Vec>, s: nat): Amp
    requires Shaped(layout, view) && s < layout.totalStates
  {
    layout.StateRefCorrect(s);
    var r := layout.StateRef(s);
    view[r.chunkIndex][r.elemOffset / 2]
  }

  function Flatten(layout: ChunkLayout, view: seq<Vec>): (v: Vec)
    requires Shaped(layout, view)
    ensures |v| == layout.totalStates
  {
    seq(layout.totalStates, s requires 0 <= s < layout.totalStates => StateAmp(layout, view, s))
  }

  lemma FlattenAt(layout: ChunkLayout, view: seq<Vec>, c: nat, l: nat)
    requires Shaped(layout, view) && c < layout.chunkCount && l < layout.StatesIn(c)
    ensures layout.ChunkStateBegin(c) + l < layout.totalStates
    ensures Flatten(layout, view)[layout.ChunkStateBegin(c) + l] == view[c][l]
  {
    layout.SlotIsState(c, l);
  }

  /** Writing one position of one chunk writes one state of the vector. */
  lemma FlattenWrite(layout: ChunkLayout, view: seq<Vec>, c: nat, l: nat, a: Amp)
    requires Shaped(layout, view) && c < layout.chunkCount && l < layout.StatesIn(c)
    ensures layout.ChunkStateBegin(c) + l < layout.totalStates
    ensures var view' := view[c := view[c][l := a]];
            && Shaped(layout, view')
            && Flatten(layout, view') == Flatten(layout, view)[layout.ChunkStateBegin(c) + l := a]
  {
    layout.SlotIsState(c, l);
    var view' := view[c := view[c][l := a]];
    var v, w, s := Flatten(layout, view), Flatten(layout, view'), layout.ChunkStateBegin(c) + l;
    forall i: nat | i < layout.totalStates
      ensures w[i] == if i == s then a else v[i]
    {
      layout.StateRefCorrect(i);
    }
  }

  /** The chunks of a vector are its consecutive slices. */
  lemma FlattenSlice(layout: ChunkLayout, view: seq<Vec>, c: nat)
    requires Shaped(layout, view) && c < layout.chunkCount
    ensures layout.ChunkStateBegin(c) + layout.StatesIn(c) <= layout.totalStates
    ensures Flatten(layout, view)[layout.ChunkStateBegin(c)..layout.ChunkStateBegin(c) + layout.StatesIn(c)] == view[c]
  {
    layout.ChunkShape(c);
    forall l: nat | l < layout.StatesIn(c)
      ensures Flatten(layout, view)[layout.ChunkStateBegin(c) + l] == view[c][l]
    {
      FlattenAt(layout, view, c, l);
    }
  }

  /** The part of a vector that belongs to chunk `c`. */
  function ChunkSlice(layout: ChunkLayout, v: Vec, c: nat): (chunk: Vec)
    requires layout.Valid() && |v| == layout.totalStates && c < layout.chunkCount
    ensures |chunk| == layout.StatesIn(c)
  {
    layout.ChunkShape(c);
    v[layout.ChunkStateBegin(c)..layout.ChunkStateBegin(c) + layout.StatesIn(c)]
  }

  /** The first `m` chunks of a vector. */
  function Slices(layout: ChunkLayout, v: Vec, m: nat): (chunks: seq<Vec>)
    requires layout.Valid() && |v| == layout.totalStates && m <= layout.chunkCount
    ensures |chunks| == m && forall c | 0 <= c < m :: chunks[c] == ChunkSlice(layout, v, c)
  {
    seq(m, c requires 0 <= c < m => ChunkSlice(layout, v, c))
  }

  lemma SlicesShaped(layout: ChunkLayout, v: Vec)
    requires layout.Valid() && |v| == layout.totalStates
    ensures Shaped(layout, Slices(layout, v, layout.chunkCount))
  {
  }

  lemma SliceHolds(layout: ChunkLayout, v: Vec, s: nat)
    requires layout.Valid() && |v| == layout.totalStates && s < layout.totalStates
    requires Shaped(layout, Slices(layout, v, layout.chunkCount))
    ensures StateAmp(layout, Slices(layout, v, layout.chunkCount), s) == v[s]
  {
    layout.StateRefCorrect(s);
  }

  /** Cutting a vector into chunks and reading the chunks back gives the vector. */
  lemma FlattenSlices(layout: ChunkLayout, v: Vec)
    requires layout.Valid() && |v| == layout.totalStates
    ensures var chunks := Slices(layout, v, layout.chunkCount);
            Shaped(layout, chunks) && Flatten(layout, chunks) == v
  {
    hide StateAmp;
    SlicesShaped(layout, v);
    forall s: nat | s < layout.totalStates
      ensures StateAmp(layout, Slices(layout, v, layout.chunkCount), s) == v[s]
    {
      SliceHolds(layout, v, s);
    }
  }

  /** The recorded widths are those of the layout's chunks. */
  ghost predicate Widths(layout: ChunkLayout, counts: seq<nat>) {
    layout.Valid() && |counts| == layout.chunkCount && forall c | 0 <= c < |counts| :: counts[c] == layout.StatesIn(c)
  }

  function WidthsOf(layout: ChunkLayout): (counts: seq<nat>)
    requires layout.Valid()
    ensures Widths(layout, counts)
  {
    seq(layout.chunkCount, c requires 0 <= c < layout.chunkCount => layout.StatesIn(c))
  }

  /** The vector that chunk contents stand for; `None` if there are none or they have the wrong shape. */
  ghost function VectorOf(layout: ChunkLayout, contents: Option<seq<Vec>>): (v: Option<Vec>)
    ensures v.Some? ==> contents.Some? && layout.Valid() && |v.value| == layout.totalStates
    ensures v.Some? ==> |contents.value| == layout.chunkCount
  {
    if contents.Some? && Shaped(layout, contents.value) then Some(Flatten(layout, contents.value)) else None
  }

  /** Position `l` of chunk `c` is where state `s` lives. */
  ghost predicate IsHome(layout: ChunkLayout, s: nat, c: nat, l: nat) {
    layout.Valid() && c < layout.chunkCount && l < layout.StatesIn(c) && layout.ChunkStateBegin(c) + l == s
  }

  lemma HomeOf(layout: ChunkLayout, s: nat)
    requires layout.Valid() && s < layout.totalStates
    ensures var r := layout.StateRef(s);
            r.chunkIndex < layout.chunkCount && IsHome(layout, s, r.chunkIndex, r.elemOffset / 2)
  {
    layout.StateRefCorrect(s);
  }

  /** What a chunk holds at a state's home is the amplitude of that state. */
  lemma HomeHolds(layout: ChunkLayout, contents: Option<seq<Vec>>, s: nat, c: nat, l: nat)
    requires VectorOf(layout, contents).Some? && IsHome(layout, s, c, l)
    ensures s < layout.totalStates && c < |contents.value| && l < |contents.value[c]|
    ensures contents.value[c][l] == VectorOf(layout, contents).value[s]
  {
    FlattenAt(layout, contents.value, c, l);
  }

  /** Writing at a state's home writes that state. */
  lemma HomeWrite(layout: ChunkLayout, contents: Option<seq<Vec>>, s: nat, c: nat, l: nat, a: Amp)
    requires VectorOf(layout, contents).Some? && IsHome(layout, s, c, l)
    ensures s < layout.totalStates && c < |contents.value| && l < |contents.value[c]|
    ensures VectorOf(layout, Some(contents.value[c := contents.value[c][l := a]])) ==
            Some(VectorOf(layout, contents).value[s := a])
  {
    FlattenWrite(layout, contents.value, c, l, a);
  }

  /** `data` is the part of vector `v` that chunk `c` covers. */
  ghost predicate IsChunk(layout: ChunkLayout, v: Vec, c: nat, data: Vec) {
    layout.Valid() && |v| == layout.totalStates && c < layout.chunkCount && data == ChunkSlice(layout, v, c)
  }

  lemma ContentIsChunk(layout: ChunkLayout, contents: Option<seq<Vec>>, c: nat)
    requires VectorOf(layout, contents).Some? && c < layout.chunkCount
    ensures IsChunk(layout, VectorOf(layout, contents).value, c, contents.value[c])
  {
    FlattenSlice(layout, contents.value, c);
  }

  /** How far into the vector a chunk-by-chunk loop is before chunk `c`. */
  ghost predicate AtChunk(layout: ChunkLayout, c: nat, m: nat) {
    && layout.Valid() && c <= layout.chunkCount
    && m == if c < layout.chunkCount then layout.ChunkStateBegin(c) else layout.totalStates
  }

  lemma ChunkLoopStart(layout: ChunkLayout)
    requires layout.Valid()
    ensures AtChunk(layout, 0, 0)
  {
  }

  /** One turn of a chunk-by-chunk loop. */
  lemma ChunkLoopStep(layout: ChunkLayout, v: Vec, c: nat, m: nat, data: Vec)
    requires IsChunk(layout, v, c, data) && AtChunk(layout, c, m)
    ensures 1 <= |data| && |data| == layout.StatesIn(c) && m + |data| <= |v| && AtChunk(layout, c + 1, m + |data|)
    ensures data == v[m..m + |data|]
  {
    layout.ChunkShape(c);
  }

  lemma HomeInChunk(layout: ChunkLayout, c: nat, m: nat, l: nat)
    requires AtChunk(layout, c, m) && c < layout.chunkCount && l < layout.StatesIn(c)
    ensures IsHome(layout, m + l, c, l)
  {
  }
}
