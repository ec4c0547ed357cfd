/** The block engine: index layout, per-block work, and why it computes `ApplyMatrix`. */
module BlockEngine {
  import opened Amplitudes
  import opened Bits
  import opened Gates
  import opened GateBlocks

  datatype GateBlockLayout = GateBlockLayout(
    numQubits: nat, activeQubits: nat, numBlocks: nat, blockSize: nat,
    targetPositions: seq<nat>, targetMasks: seq<nat>, nonTargetPositions: seq<nat>, blockOffsets: seq<nat>)

  // ------------------------------------------------------- what layouts contain

  function NonTargets(n: nat, t: seq<nat>): seq<nat> {
    if n == 0 then [] else NonTargets(n - 1, t) + if n - 1 in t then [] else [n - 1]
  }

  /** The first `m` non-target bits of a block's base state. */
  function BaseState(block: nat, nt: seq<nat>, m: nat): nat
    requires m <= |nt|
  {
    if m == 0 then 0 else Or(BaseState(block, nt, m - 1), if Bit(block, m - 1) then Pow2(nt[m - 1]) else 0)
  }

  /** The first `m` target bits of a block-local offset. */
  function Offset(idx: nat, t: seq<nat>, m: nat): nat
    requires m <= |t|
  {
    if m == 0 then 0 else Or(Offset(idx, t, m - 1), if Bit(idx, |t| - m) then Pow2(t[m - 1]) else 0)
  }

  function Masks(t: seq<nat>): seq<nat> {
    seq(|t|, i requires 0 <= i < |t| => Pow2(t[i]))
  }

  function Reversed(xs: seq<nat>): (r: seq<nat>)
    ensures |r| == |xs| && forall i | 0 <= i < |r| :: r[i] == xs[|xs| - 1 - i]
  {
    seq(|xs|, i requires 0 <= i < |xs| => xs[|xs| - 1 - i])
  }

  /** The layout for target bits `t`. */
  function LayoutOf(n: nat, t: seq<nat>): GateBlockLayout
    requires |t| <= n
  {
    GateBlockLayout(n, |t|, Pow2(n - |t|), Pow2(|t|), t, Masks(t), NonTargets(n, t),
                    seq(Pow2(|t|), idx requires 0 <= idx => Offset(idx, t, |t|)))
  }

  /** Which block a state belongs to: its non-target bits, lowest first. */
  function BlockOf(s: nat, n: nat, t: seq<nat>): nat {
    LocalIndex(s, Reversed(NonTargets(n, t)))
  }

  /** The states of one block, in matrix order. */
  function BlockStatesOf(n: nat, t: seq<nat>, block: nat): (states: seq<nat>)
    ensures |states| == Pow2(|t|)
  {
    var base := BaseState(block, NonTargets(n, t), |NonTargets(n, t)|);
    seq(Pow2(|t|), idx requires 0 <= idx => Place(base, t, idx))
  }

  // ------------------------------------------------------------- layout lemmas

  lemma {:induction false} NonTargetsExact(n: nat, t: seq<nat>)
    ensures forall j: nat :: j in NonTargets(n, t) <==> j < n && j !in t
    ensures DistinctBelow(NonTargets(n, t), n)
  {
    if n > 0 {
      NonTargetsExact(n - 1, t);
      var p := NonTargets(n - 1, t);
      forall i | 0 <= i < |p|
        ensures p[i] < n - 1
      {
        assert p[i] in p;
      }
    }
  }

  function Members(t: seq<nat>): set<nat> { set j | j in t }

  lemma {:induction false} DistinctCount(t: seq<nat>, n: nat)
    requires DistinctBelow(t, n)
    ensures |Members(t)| == |t|
  {
    if t == [] {
      assert Members(t) == {};
    } else {
      var l := |t| - 1;
      DistinctCount(t[..l], n);
      assert t[l] !in Members(t[..l]);
      assert Members(t) == Members(t[..l]) + {t[l]};
    }
  }

  lemma {:induction false} IntervalCount(n: nat, below: set<nat>)
    requires forall j: nat :: j in below <==> j < n
    ensures |below| == n
  {
    if n == 0 {
      assert below == {};
    } else {
      IntervalCount(n - 1, below - {n - 1});
    }
  }

  /** Targets and non-targets split the qubits. */
  lemma NonTargetCount(n: nat, t: seq<nat>)
    requires DistinctBelow(t, n)
    ensures |t| <= n && |NonTargets(n, t)| == n - |t|
  {
    var nt := NonTargets(n, t);
    NonTargetsExact(n, t);
    DistinctCount(t, n);
    DistinctCount(nt, n);
    assert Members(t) !! Members(nt);
    IntervalCount(n, Members(t) + Members(nt));
  }

  lemma {:induction false} BaseBits(block: nat, nt: seq<nat>, m: nat, n: nat, j: nat)
    requires DistinctBelow(nt, n) && m <= |nt|
    ensures (forall i | 0 <= i < m :: nt[i] != j) ==> !Bit(BaseState(block, nt, m), j)
    ensures forall i | 0 <= i < m && nt[i] == j :: Bit(BaseState(block, nt, m), j) == Bit(block, i)
  {
    ZeroBits(j);
    if m > 0 {
      BaseBits(block, nt, m - 1, n, j);
      BitOr(BaseState(block, nt, m - 1), if Bit(block, m - 1) then Pow2(nt[m - 1]) else 0, j);
      Pow2Bits(nt[m - 1], j);
    }
  }

  lemma {:induction false} OffsetBits(idx: nat, t: seq<nat>, m: nat, n: nat, j: nat)
    requires DistinctBelow(t, n) && m <= |t|
    ensures (forall i | 0 <= i < m :: t[i] != j) ==> !Bit(Offset(idx, t, m), j)
    ensures forall i | 0 <= i < m && t[i] == j :: Bit(Offset(idx, t, m), j) == Bit(idx, |t| - 1 - i)
  {
    ZeroBits(j);
    if m > 0 {
      OffsetBits(idx, t, m - 1, n, j);
      BitOr(Offset(idx, t, m - 1), if Bit(idx, |t| - m) then Pow2(t[m - 1]) else 0, j);
      Pow2Bits(t[m - 1], j);
    }
  }

  lemma {:induction false} BaseRange(block: nat, nt: seq<nat>, m: nat, n: nat)
    requires DistinctBelow(nt, n) && m <= |nt|
    ensures BaseState(block, nt, m) < Pow2(n)
  {
    if m > 0 {
      BaseRange(block, nt, m - 1, n);
      Pow2Mono(nt[m - 1], n);
      OrRange(BaseState(block, nt, m - 1), if Bit(block, m - 1) then Pow2(nt[m - 1]) else 0, n);
    }
  }

  lemma {:induction false} OffsetRange(idx: nat, t: seq<nat>, m: nat, n: nat)
    requires DistinctBelow(t, n) && m <= |t|
    ensures Offset(idx, t, m) < Pow2(n)
  {
    if m > 0 {
      OffsetRange(idx, t, m - 1, n);
      Pow2Mono(t[m - 1], n);
      OrRange(Offset(idx, t, m - 1), if Bit(idx, |t| - m) then Pow2(t[m - 1]) else 0, n);
    }
  }

  /** `baseState | blockOffsets[idx]` writes the digits of `idx` on the targets of the base state. */
  lemma BaseOrOffset(n: nat, t: seq<nat>, block: nat, idx: nat)
    requires DistinctBelow(t, n)
    ensures var base := BaseState(block, NonTargets(n, t), |NonTargets(n, t)|);
            && Or(base, Offset(idx, t, |t|)) == Place(base, t, idx)
            && base < Pow2(n) && Place(base, t, idx) < Pow2(n)
            && forall j: nat | j in t :: !Bit(base, j)
  {
    var nt := NonTargets(n, t);
    var base, off := BaseState(block, nt, |nt|), Offset(idx, t, |t|);
    NonTargetsExact(n, t);
    BaseRange(block, nt, |nt|, n);
    OffsetRange(idx, t, |t|, n);
    OrRange(base, off, n);
    PlaceRange(base, t, idx, n);
    forall j: nat | j in t
      ensures !Bit(base, j)
    {
      BaseBits(block, nt, |nt|, n, j);
    }
    forall i | 0 <= i < |t|
      ensures Bit(Or(base, off), t[i]) == Bit(Place(base, t, idx), t[i])
    {
      BitOr(base, off, t[i]);
      OffsetBits(idx, t, |t|, n, t[i]);
      PlaceOn(base, t, idx, n, i);
    }
    forall j: nat | j < n && j !in t
      ensures Bit(Or(base, off), j) == Bit(Place(base, t, idx), j)
    {
      BitOr(base, off, j);
      OffsetBits(idx, t, |t|, n, j);
      PlaceOff(base, t, idx, j);
    }
    SameBits(Or(base, off), Place(base, t, idx), t, n);
  }

  /** Bit `nt[i]` of anything in a block is bit `i` of the block number. */
  lemma BlockBits(s: nat, n: nat, t: seq<nat>, i: nat)
    requires DistinctBelow(t, n) && i < |NonTargets(n, t)|
    ensures Bit(BlockOf(s, n, t), i) == Bit(s, NonTargets(n, t)[i])
  {
    var r := Reversed(NonTargets(n, t));
    LocalBits(s, r, |r| - 1 - i);
  }

  /** A state differs from its block's base state on target bits only. */
  lemma BaseOfBlock(s: nat, n: nat, t: seq<nat>)
    requires DistinctBelow(t, n) && s < Pow2(n)
    ensures var nt := NonTargets(n, t);
            forall j: nat | j < n && j !in t :: Bit(BaseState(BlockOf(s, n, t), nt, |nt|), j) == Bit(s, j)
  {
    var nt := NonTargets(n, t);
    NonTargetsExact(n, t);
    forall j: nat | j < n && j !in t
      ensures Bit(BaseState(BlockOf(s, n, t), nt, |nt|), j) == Bit(s, j)
    {
      assert j in nt;
      var i :| 0 <= i < |nt| && nt[i] == j;
      BaseBits(BlockOf(s, n, t), nt, |nt|, n, j);
      BlockBits(s, n, t, i);
    }
  }

  /** Every state is found at its own (block, local index), inside the loop bounds. */
  lemma StateInBlock(s: nat, n: nat, t: seq<nat>)
    requires DistinctBelow(t, n) && s < Pow2(n)
    ensures |t| <= n && BlockOf(s, n, t) < Pow2(n - |t|) && LocalIndex(s, t) < Pow2(|t|)
    ensures BlockStatesOf(n, t, BlockOf(s, n, t))[LocalIndex(s, t)] == s
  {
    var nt := NonTargets(n, t);
    var base := BaseState(BlockOf(s, n, t), nt, |nt|);
    NonTargetCount(n, t);
    LocalRange(s, Reversed(nt));
    LocalRange(s, t);
    NonTargetsExact(n, t);
    BaseRange(BlockOf(s, n, t), nt, |nt|, n);
    BaseOfBlock(s, n, t);
    SameBlockPlace(base, s, t, LocalIndex(s, t), n);
    PlaceOfLocal(s, t, n);
  }

  /** What block `block` holds at `idx` belongs to that block and has that local index. */
  lemma BlockHolds(n: nat, t: seq<nat>, block: nat, idx: nat)
    requires DistinctBelow(t, n) && |t| <= n && block < Pow2(n - |t|) && idx < Pow2(|t|)
    ensures var s := BlockStatesOf(n, t, block)[idx];
            s < Pow2(n) && BlockOf(s, n, t) == block && LocalIndex(s, t) == idx
  {
    hide Bit, Pow2, Place, LocalIndex, BaseState, NonTargets;
    var nt := NonTargets(n, t);
    var base := BaseState(block, nt, |nt|);
    var s := Place(base, t, idx);
    NonTargetsExact(n, t);
    NonTargetCount(n, t);
    BaseRange(block, nt, |nt|, n);
    PlaceRange(base, t, idx, n);
    LocalOfPlace(base, t, idx, n);
    LocalRange(s, Reversed(nt));
    forall i: nat | i < |nt|
      ensures Bit(BlockOf(s, n, t), i) == Bit(block, i)
    {
      assert nt[i] in nt;
      BlockBits(s, n, t, i);
      PlaceOff(base, t, idx, nt[i]);
      BaseBits(block, nt, |nt|, n, nt[i]);
    }
    BitExt(BlockOf(s, n, t), block, |nt|);
  }

  /** `baseState | blockOffsets[idx]`. */
  function StateAt(n: nat, t: seq<nat>, block: nat, idx: nat): nat {
    Or(BaseState(block, NonTargets(n, t), |NonTargets(n, t)|), Offset(idx, t, |t|))
  }

  /** (block, idx) -> baseState | offset is a bijection onto the states of the register. */
  lemma BlocksAreBijection(n: nat, t: seq<nat>)
    requires DistinctBelow(t, n)
    ensures |t| <= n
    ensures forall s: nat | s < Pow2(n) ::
              && BlockOf(s, n, t) < Pow2(n - |t|) && LocalIndex(s, t) < Pow2(|t|)
              && StateAt(n, t, BlockOf(s, n, t), LocalIndex(s, t)) == s
    ensures forall block: nat, idx: nat | block < Pow2(n - |t|) && idx < Pow2(|t|) ::
              && StateAt(n, t, block, idx) < Pow2(n)
              && BlockOf(StateAt(n, t, block, idx), n, t) == block
              && LocalIndex(StateAt(n, t, block, idx), t) == idx
  {
    NonTargetCount(n, t);
    forall s: nat | s < Pow2(n)
      ensures && BlockOf(s, n, t) < Pow2(n - |t|) && LocalIndex(s, t) < Pow2(|t|)
              && StateAt(n, t, BlockOf(s, n, t), LocalIndex(s, t)) == s
    {
      StateInBlock(s, n, t);
      BaseOrOffset(n, t, BlockOf(s, n, t), LocalIndex(s, t));
    }
    forall block: nat, idx: nat | block < Pow2(n - |t|) && idx < Pow2(|t|)
      ensures && StateAt(n, t, block, idx) < Pow2(n)
              && BlockOf(StateAt(n, t, block, idx), n, t) == block
              && LocalIndex(StateAt(n, t, block, idx), t) == idx
    {
      BlockHolds(n, t, block, idx);
      BaseOrOffset(n, t, block, idx);
    }
  }

  // ------------------------------------------------------------ layout methods

  method ComposeBaseStateFromBlock(block: nat, nonTargetPositions: seq<nat>) returns (baseState: nat)
    ensures baseState == BaseState(block, nonTargetPositions, |nonTargetPositions|)
  {
    baseState := 0;
    var idx := 0;
    while idx < |nonTargetPositions|
      invariant idx <= |nonTargetPositions| && baseState == BaseState(block, nonTargetPositions, idx)
    {
      baseState := Or(baseState, if Bit(block, idx) then Pow2(nonTargetPositions[idx]) else 0);
      idx := idx + 1;
    }
  }

  /** The register's gate-target validation. */
  method ValidateGateTargets(qubits: seq<nat>, numQubits: nat, gateDimension: nat) returns (ok: bool)
    ensures ok <==> |qubits| <= numQubits && gateDimension == Pow2(|qubits|) && DistinctBelow(qubits, numQubits)
  {
    if |qubits| > numQubits { return false; }
    if gateDimension != Pow2(|qubits|) { return false; }
    var seen := seq(numQubits, _ => false);
    var i := 0;
    while i < |qubits|
      invariant i <= |qubits| && |seen| == numQubits
      invariant DistinctBelow(qubits[..i], numQubits)
      invariant forall q: nat | q < numQubits :: seen[q] <==> q in qubits[..i]
    {
      if qubits[i] >= numQubits { return false; }
      if seen[qubits[i]] {
        var j :| 0 <= j < i && qubits[..i][j] == qubits[i];
        assert qubits[j] == qubits[i];
        return false;
      }
      seen := seen[qubits[i] := true];
      assert qubits[..i + 1] == qubits[..i] + [qubits[i]];
      i := i + 1;
    }
    assert qubits[..i] == qubits;
    ok := true;
  }

  method MakeGateBlockLayout(qubits: seq<nat>, numQubits: nat) returns (layout: GateBlockLayout)
    requires |qubits| <= numQubits && DistinctBelow(qubits, numQubits)
    ensures layout == LayoutOf(numQubits, TargetBits(qubits, numQubits))
  {
    ghost var t := TargetBits(qubits, numQubits);
    var activeQubits := |qubits|;
    var numBlocks, blockSize := Pow2(numQubits - activeQubits), Pow2(activeQubits);
    var positions, masks: seq<nat> := [], [];
    var isTargetBit := seq(numQubits, _ => false);
    var idx := 0;
    while idx < activeQubits
      invariant idx <= activeQubits && |isTargetBit| == numQubits
      invariant positions == t[..idx] && masks == Masks(t)[..idx]
      invariant forall j: nat | j < numQubits :: isTargetBit[j] <==> j in t[..idx]
    {
      var targetBit := numQubits - qubits[idx] - 1;
      positions, masks := positions + [targetBit], masks + [Pow2(targetBit)];
      isTargetBit := isTargetBit[targetBit := true];
      assert t[..idx + 1] == t[..idx] + [targetBit];
      idx := idx + 1;
    }
    assert positions == t && masks == Masks(t);
    var nonTargets: seq<nat> := [];
    var bit := 0;
    while bit < numQubits
      invariant bit <= numQubits && nonTargets == NonTargets(bit, t)
    {
      if !isTargetBit[bit] {
        nonTargets := nonTargets + [bit];
      }
      bit := bit + 1;
    }
    var offsets := BlockOffsets(masks, t);
    layout := GateBlockLayout(numQubits, activeQubits, numBlocks, blockSize, positions, masks, nonTargets, offsets);
  }

  // ---------------------------------------------------------------- one block

  /** The block-local offset of each target-bit pattern. */
  method BlockOffsets(masks: seq<nat>, ghost t: seq<nat>) returns (offsets: seq<nat>)
    requires masks == Masks(t)
    ensures |offsets| == Pow2(|t|) && forall i | 0 <= i < |offsets| :: offsets[i] == Offset(i, t, |t|)
  {
    hide Or, Bit;
    var activeQubits, blockSize := |masks|, Pow2(|masks|);
    offsets := [];
    var idx := 0;
    while idx < blockSize
      invariant idx <= blockSize && |offsets| == idx
      invariant forall i | 0 <= i < idx :: offsets[i] == Offset(i, t, |t|)
    {
      var offset := 0;
      var b := 0;
      while b < activeQubits
        invariant b <= activeQubits && offset == Offset(idx, t, b)
      {
        if Bit(idx, activeQubits - b - 1) {
          offset := Or(offset, masks[b]);
        } else {
          OrZero(offset);
        }
        b := b + 1;
      }
      offsets := offsets + [offset];
      idx := idx + 1;
    }
  }

  lemma {:induction false} OrAssoc(a: nat, b: nat, c: nat)
    ensures Or(Or(a, b), c) == Or(a, Or(b, c))
    decreases a + b + c
  {
    if a + b + c > 0 {
      OrAssoc(a / 2, b / 2, c / 2);
    }
  }

  lemma {:induction false} ZeroOr(s: nat)
    ensures Or(0, s) == s
  {
    if s > 0 {
      ZeroOr(s / 2);
    }
  }

  /** The addresses of one block, as the one-qubit, two-qubit and general paths compute them. */
  method BlockStates(layout: GateBlockLayout, block: nat, ghost n: nat, ghost t: seq<nat>) returns (states: seq<nat>)
    requires DistinctBelow(t, n) && |t| <= n && layout == LayoutOf(n, t)
    ensures states == BlockStatesOf(n, t, block)
  {
    var baseState := ComposeBaseStateFromBlock(block, layout.nonTargetPositions);
    forall idx: nat | idx < Pow2(|t|)
      ensures Or(baseState, layout.blockOffsets[idx]) == Place(baseState, t, idx)
    {
      BaseOrOffset(n, t, block, idx);
    }
    OrZero(baseState);
    if layout.activeQubits == 1 {
      var q0Mask := layout.targetMasks[0];
      states := [baseState, Or(baseState, q0Mask)];
      OffsetsOfOne(t);
      assert Pow2(|t|) == 2;
    } else if layout.activeQubits == 2 {
      var q0Mask, q1Mask := layout.targetMasks[0], layout.targetMasks[1];
      states := [baseState, Or(baseState, q1Mask), Or(baseState, q0Mask), Or(Or(baseState, q0Mask), q1Mask)];
      OffsetsOfTwo(t);
      OrAssoc(baseState, q0Mask, q1Mask);
      assert Pow2(|t|) == 4;
    } else {
      states := [];
      var idx := 0;
      while idx < layout.blockSize
        invariant idx <= layout.blockSize && |states| == idx
        invariant forall i | 0 <= i < idx :: states[i] == Place(baseState, t, i)
      {
        states := states + [Or(baseState, layout.blockOffsets[idx])];
        idx := idx + 1;
      }
    }
  }

  lemma OffsetsOfOne(t: seq<nat>)
    requires |t| == 1
    ensures Offset(0, t, 1) == 0 && Offset(1, t, 1) == Pow2(t[0])
  {
    ZeroOr(Pow2(t[0]));
  }

  lemma OffsetsOfTwo(t: seq<nat>)
    requires |t| == 2
    ensures Offset(0, t, 2) == 0 && Offset(1, t, 2) == Pow2(t[1])
    ensures Offset(2, t, 2) == Pow2(t[0]) && Offset(3, t, 2) == Or(Pow2(t[0]), Pow2(t[1]))
  {
    ZeroOr(Pow2(t[0]));
    ZeroOr(Pow2(t[1]));
    OrZero(Pow2(t[0]));
    assert Offset(0, t, 1) == 0 == Offset(1, t, 1);
    assert Offset(2, t, 1) == Pow2(t[0]) == Offset(3, t, 1);
  }

  /** The accumulating row loop. */
  method RowTimesBlock(row: Vec, amps: Vec) returns (newAmp: Amp)
    requires |row| == |amps|
    ensures newAmp == Dot(row, amps)
  {
    hide Mul, Add;
    newAmp := ZERO;
    var col := 0;
    while col < |amps|
      invariant col <= |amps| && newAmp == Dot(row[..col], amps[..col])
    {
      DotSnoc(row, amps, col);
      newAmp := Add(newAmp, Mul(row[col], amps[col]));
      col := col + 1;
    }
    assert row[..col] == row && amps[..col] == amps;
  }

  /** The new amplitudes of one block: written out for one qubit, row loops otherwise. */
  method BlockProduct(g: QuantumGate, amps: Vec) returns (outs: Vec)
    requires g.Square() && |g.rows| == |amps|
    ensures outs == MatVec(g, amps)
  {
    if |amps| == 2 {
      outs := PairProduct(g, amps);
    } else {
      outs := [];
      var row := 0;
      while row < |amps|
        invariant row <= |amps| && |outs| == row
        invariant forall r | 0 <= r < row :: outs[r] == Dot(g.rows[r], amps)
      {
        var newAmp := RowTimesBlock(g.rows[row], amps);
        outs := outs + [newAmp];
        row := row + 1;
      }
    }
  }

  /** The written-out two-amplitude path. */
  method PairProduct(g: QuantumGate, amps: Vec) returns (outs: Vec)
    requires g.Square() && |amps| == |g.rows| == 2
    ensures outs == MatVec(g, amps)
  {
    var a0, a1 := amps[0], amps[1];
    var g00, g01, g10, g11 := g.rows[0][0], g.rows[0][1], g.rows[1][0], g.rows[1][1];
    var out0 := Amp(g00.re * a0.re - g00.im * a0.im + g01.re * a1.re - g01.im * a1.im,
                    g00.re * a0.im + g00.im * a0.re + g01.re * a1.im + g01.im * a1.re);
    var out1 := Amp(g10.re * a0.re - g10.im * a0.im + g11.re * a1.re - g11.im * a1.im,
                    g10.re * a0.im + g10.im * a0.re + g11.re * a1.im + g11.im * a1.re);
    hide Dot, Mul, Add;
    DotTwo(g.rows[0], amps);
    DotTwo(g.rows[1], amps);
    TwoProducts(g00, a0, g01, a1);
    TwoProducts(g10, a0, g11, a1);
    outs := [out0, out1];
  }

  lemma TwoProducts(g0: Amp, a0: Amp, g1: Amp, a1: Amp)
    ensures Add(Mul(g0, a0), Mul(g1, a1)) ==
            Amp(g0.re * a0.re - g0.im * a0.im + g1.re * a1.re - g1.im * a1.im,
                g0.re * a0.im + g0.im * a0.re + g1.re * a1.im + g1.im * a1.re)
  {
  }

  predicate AllZero(xs: Vec) { forall i | 0 <= i < |xs| :: xs[i] == ZERO }

  // ------------------------------------------------------------ whole register

  /** Storing the first `m` outputs of a block, first to last. */
  function StoreBlock(w: Vec, states: seq<nat>, outs: Vec, m: nat): (r: Vec)
    requires m <= |states| == |outs| && forall i | 0 <= i < |states| :: states[i] < |w|
    ensures |r| == |w|
  {
    if m == 0 then w else StoreBlock(w, states, outs, m - 1)[states[m - 1] := outs[m - 1]]
  }

  lemma {:induction false} StoreBlockAt(w: Vec, states: seq<nat>, outs: Vec, m: nat, s: nat)
    requires m <= |states| == |outs| && s < |w| && DistinctBelow(states, |w|)
    ensures (forall i | 0 <= i < m :: states[i] != s) ==> StoreBlock(w, states, outs, m)[s] == w[s]
    ensures forall i | 0 <= i < m && states[i] == s :: StoreBlock(w, states, outs, m)[s] == outs[i]
  {
    if m > 0 {
      StoreBlockAt(w, states, outs, m - 1, s);
    }
  }

  /** The blocks below `m` hold their matrix products, the others their old amplitudes. */
  ghost predicate DoneBelow(v: Vec, w: Vec, n: nat, g: QuantumGate, t: seq<nat>, m: nat)
    requires |v| == Pow2(n) && Fits(g, t, n)
  {
    && |w| == |v|
    && forall s: nat | s < |v| :: w[s] == if BlockOf(s, n, t) < m then MatrixAt(v, n, g, t, s) else v[s]
  }

  /** The amplitudes at the listed states. */
  function Loads(w: Vec, states: seq<nat>): (xs: Vec)
    requires forall i | 0 <= i < |states| :: states[i] < |w|
    ensures |xs| == |states|
  {
    seq(|states|, i requires 0 <= i < |states| => w[states[i]])
  }

  lemma BlockAddresses(n: nat, t: seq<nat>, block: nat)
    requires DistinctBelow(t, n) && |t| <= n && block < Pow2(n - |t|)
    ensures DistinctBelow(BlockStatesOf(n, t, block), Pow2(n))
    ensures forall i | 0 <= i < Pow2(|t|) :: BlockOf(BlockStatesOf(n, t, block)[i], n, t) == block
  {
    var states := BlockStatesOf(n, t, block);
    forall i: nat | i < Pow2(|t|)
      ensures states[i] < Pow2(n) && BlockOf(states[i], n, t) == block && LocalIndex(states[i], t) == i
    {
      BlockHolds(n, t, block, i);
    }
  }

  /** The old amplitudes of a block, seen from any of its states. */
  lemma LoadsAreGather(v: Vec, n: nat, t: seq<nat>, s: nat)
    requires |v| == Pow2(n) && DistinctBelow(t, n) && |t| <= n && s < |v|
    ensures var states := BlockStatesOf(n, t, BlockOf(s, n, t));
            DistinctBelow(states, |v|) && Loads(v, states) == Gather(v, n, t, s)
  {
    var block := BlockOf(s, n, t);
    var base := BaseState(block, NonTargets(n, t), |NonTargets(n, t)|);
    StateInBlock(s, n, t);
    BlockAddresses(n, t, block);
    NonTargetsExact(n, t);
    BaseRange(block, NonTargets(n, t), |NonTargets(n, t)|, n);
    BaseOfBlock(s, n, t);
    forall idx: nat | idx < Pow2(|t|)
      ensures Place(base, t, idx) == Place(s, t, idx)
    {
      SameBlockPlace(base, s, t, idx, n);
    }
  }

  /** Processing one more block: what is loaded is still old, what is stored is the matrix product. */
  lemma BlockStep(v: Vec, w: Vec, n: nat, g: QuantumGate, t: seq<nat>, block: nat)
    requires |v| == Pow2(n) && Fits(g, t, n) && |t| <= n && block < Pow2(n - |t|)
    requires DoneBelow(v, w, n, g, t, block)
    ensures var states := BlockStatesOf(n, t, block);
            && DistinctBelow(states, |v|)
            && DoneBelow(v, StoreBlock(w, states, MatVec(g, Loads(w, states)), |states|), n, g, t, block + 1)
  {
    hide Dot, Mul, Add;
    var states := BlockStatesOf(n, t, block);
    BlockAddresses(n, t, block);
    assert Loads(w, states) == Loads(v, states);
    var outs := MatVec(g, Loads(v, states));
    var w' := StoreBlock(w, states, outs, |states|);
    forall s: nat | s < |v|
      ensures w'[s] == if BlockOf(s, n, t) < block + 1 then MatrixAt(v, n, g, t, s) else v[s]
    {
      StoreBlockAt(w, states, outs, |states|, s);
      if BlockOf(s, n, t) == block {
        StateInBlock(s, n, t);
        LoadsAreGather(v, n, t, s);
        assert w'[s] == outs[LocalIndex(s, t)];
      }
    }
  }

  /** The skip path: an all-zero block already is its own matrix product. */
  lemma ZeroBlockStep(v: Vec, w: Vec, n: nat, g: QuantumGate, t: seq<nat>, block: nat)
    requires |v| == Pow2(n) && Fits(g, t, n) && |t| <= n && block < Pow2(n - |t|)
    requires DoneBelow(v, w, n, g, t, block)
    requires DistinctBelow(BlockStatesOf(n, t, block), |v|) && AllZero(Loads(w, BlockStatesOf(n, t, block)))
    ensures DoneBelow(v, w, n, g, t, block + 1)
  {
    hide Mul, Add;
    var states := BlockStatesOf(n, t, block);
    var xs := Loads(w, states);
    BlockStep(v, w, n, g, t, block);
    forall i | 0 <= i < |xs|
      ensures MatVec(g, xs)[i] == xs[i]
    {
      DotZero(g.rows[i], xs);
    }
    var w' := StoreBlock(w, states, MatVec(g, xs), |states|);
    forall s: nat | s < |w|
      ensures w'[s] == w[s]
    {
      StoreBlockAt(w, states, MatVec(g, xs), |states|, s);
    }
    assert w' == w;
  }

  /** One turn of the block loop: nothing for an all-zero block, else the matrix product stored back. */
  ghost function AfterBlock(w: Vec, n: nat, g: QuantumGate, t: seq<nat>, block: nat): (w': Vec)
    requires |w| == Pow2(n) && Fits(g, t, n) && |t| <= n && block < Pow2(n - |t|)
    ensures |w'| == |w|
  {
    BlockAddresses(n, t, block);
    var states := BlockStatesOf(n, t, block);
    var amps := Loads(w, states);
    if AllZero(amps) then w else StoreBlock(w, states, MatVec(g, amps), |states|)
  }

  lemma BlockTurn(v: Vec, w: Vec, n: nat, g: QuantumGate, t: seq<nat>, block: nat)
    requires |v| == Pow2(n) && Fits(g, t, n) && |t| <= n && block < Pow2(n - |t|)
    requires DoneBelow(v, w, n, g, t, block)
    ensures DoneBelow(v, AfterBlock(w, n, g, t, block), n, g, t, block + 1)
  {
    BlockAddresses(n, t, block);
    if AllZero(Loads(w, BlockStatesOf(n, t, block))) {
      ZeroBlockStep(v, w, n, g, t, block);
    } else {
      BlockStep(v, w, n, g, t, block);
    }
  }

  lemma AllBlocksDone(v: Vec, w: Vec, n: nat, g: QuantumGate, t: seq<nat>)
    requires |v| == Pow2(n) && Fits(g, t, n) && |t| <= n
    requires DoneBelow(v, w, n, g, t, Pow2(n - |t|))
    ensures w == ApplyMatrix(v, n, g, t)
  {
    hide Dot, Mul, Add;
    forall s: nat | s < |v|
      ensures w[s] == MatrixAt(v, n, g, t, s)
    {
      StateInBlock(s, n, t);
    }
  }
}
