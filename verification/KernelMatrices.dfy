/** The built-in kernels mean their matrices; swap permutes amplitudes. */
module KernelMatrices {
  import opened Amplitudes
  import opened Bits
  import opened PairKernels
  import opened Gates
  import opened GateBlocks
  import opened StateOps

  lemma DotEmpty()
    ensures Dot([], []) == ZERO
  {
  }

  lemma DotFour(r: Vec, x: Vec)
    requires |r| == |x| == 4
    ensures Dot(r, x) == Add(Add(Add(Mul(r[0], x[0]), Mul(r[1], x[1])), Mul(r[2], x[2])), Mul(r[3], x[3]))
  {
    hide Mul, Add, Dot;
    DotEmpty();
    AddZero(Mul(r[0], x[0]));
    DotSnoc(r, x, 0);
    DotSnoc(r, x, 1);
    DotSnoc(r, x, 2);
    DotSnoc(r, x, 3);
    assert r[..0] == [] && x[..0] == [] && r[..4] == r && x[..4] == x;
  }

  /** The two amplitudes a single-qubit gate on bit `k` mixes at `s`. */
  lemma GatherOne(v: Vec, n: nat, k: nat, s: nat)
    requires IsRegister(v, n) && k < n && s < |v|
    ensures SetTo(s, k, false) < |v| && SetTo(s, k, true) < |v|
    ensures Gather(v, n, [k], s) == [v[SetTo(s, k, false)], v[SetTo(s, k, true)]]
    ensures LocalIndex(s, [k]) == if Bit(s, k) then 1 else 0
  {
    PlaceRange(s, [k], 0, n);
    PlaceRange(s, [k], 1, n);
    assert [k][..0] == [];
    assert Place(s, [k], 0) == SetTo(s, k, false) && Place(s, [k], 1) == SetTo(s, k, true);
    assert Pow2(1) == 2;
  }

  /** `s` with bits `c` and `k` forced. */
  function Force(s: nat, c: nat, x: bool, k: nat, y: bool): nat {
    SetTo(SetTo(s, c, x), k, y)
  }

  lemma PlaceTwo(s: nat, c: nat, k: nat, idx: nat, n: nat)
    requires c < n && k < n && s < Pow2(n)
    ensures Place(s, [c, k], idx) == Force(s, c, idx / 2 % 2 == 1, k, idx % 2 == 1) < Pow2(n)
  {
    assert [c, k][..1] == [c] && [c][..0] == [];
    PlaceRange(s, [c, k], idx, n);
    assert Place(s, [c], idx / 2) == SetTo(s, c, idx / 2 % 2 == 1);
  }

  lemma LocalTwo(s: nat, c: nat, k: nat)
    ensures LocalIndex(s, [c, k]) == (if Bit(s, c) then 2 else 0) + (if Bit(s, k) then 1 else 0)
  {
    hide Bit;
    assert [c, k][..1] == [c] && [c][..0] == [];
    assert LocalIndex(s, [c]) == if Bit(s, c) then 1 else 0;
  }

  /** The four amplitudes a gate on bits `c` (first) and `k` (second) mixes at `s`. */
  lemma GatherTwo(v: Vec, n: nat, c: nat, k: nat, s: nat)
    requires IsRegister(v, n) && c < n && k < n && c != k && s < |v|
    ensures forall x, y :: Force(s, c, x, k, y) < |v|
    ensures Gather(v, n, [c, k], s) ==
            [v[Force(s, c, false, k, false)], v[Force(s, c, false, k, true)],
             v[Force(s, c, true, k, false)], v[Force(s, c, true, k, true)]]
    ensures LocalIndex(s, [c, k]) == (if Bit(s, c) then 2 else 0) + (if Bit(s, k) then 1 else 0)
  {
    hide Force, SetTo, Place, LocalIndex, Bit;
    LocalTwo(s, c, k);
    assert Pow2(2) == 4;
    PlaceTwo(s, c, k, 0, n);
    PlaceTwo(s, c, k, 1, n);
    PlaceTwo(s, c, k, 2, n);
    PlaceTwo(s, c, k, 3, n);
  }

  /** `PairAt` in terms of forced bits. */
  lemma PairAtForced(v: Vec, n: nat, k: nat, f: PairFn, s: nat)
    requires IsRegister(v, n) && k < n && s < |v|
    ensures var s0, s1 := SetTo(s, k, false), SetTo(s, k, true);
            && s0 < |v| && s1 < |v|
            && PairAt(v, n, k, f, s) == if Bit(s, k) then f(s0, s1, v[s0], v[s1]).a1 else f(s0, s1, v[s0], v[s1]).a0
  {
    GatherOne(v, n, k, s);
  }

  lemma HadamardRows(h: real, a: Amp, b: Amp)
    ensures Add(Mul(Real(h), a), Mul(Real(h), b)) == Scale(Add(a, b), h)
    ensures Add(Mul(Real(h), a), Mul(Real(-h), b)) == Scale(Sub(a, b), h)
    ensures a == b == ZERO ==> Scale(Add(a, b), h) == ZERO == Scale(Sub(a, b), h)
  {
    hide Mul, Scale, Add, Sub, Real;
    MulReal(h, a);
    MulReal(h, b);
    MulReal(-h, b);
    ScaleSums(a, b, h);
    ScaleZero(h);
    AddZero(ZERO);
    SubSelf(b);
  }

  lemma MulReal(h: real, a: Amp)
    ensures Mul(Real(h), a) == Scale(a, h)
  {
  }

  lemma ScaleSums(a: Amp, b: Amp, h: real)
    ensures Add(Scale(a, h), Scale(b, h)) == Scale(Add(a, b), h)
    ensures Add(Scale(a, h), Scale(b, -h)) == Scale(Sub(a, b), h)
  {
  }

  lemma ScaleZero(h: real)
    ensures Scale(ZERO, h) == ZERO
  {
  }

  lemma SubSelf(a: Amp)
    ensures Sub(a, a) == ZERO
  {
  }

  lemma HadamardOut(h: real, s0: nat, s1: nat, a: Amp, b: Amp)
    ensures HadamardKernel(h)(s0, s1, a, b).a0 == Scale(Add(a, b), h)
    ensures HadamardKernel(h)(s0, s1, a, b).a1 == Scale(Sub(a, b), h)
  {
    if a == ZERO && b == ZERO {
      AddZero(ZERO);
      SubSelf(b);
      ScaleZero(h);
    }
  }

  lemma OneTarget(q: nat, n: nat, g: QuantumGate)
    requires q < n && |g.rows| == 2 && g.Square()
    ensures GateFits(g, [q], n) && TargetBits([q], n) == [BitOf(q, n)] && Fits(g, [BitOf(q, n)], n)
  {
    assert Pow2(1) == 2;
  }

  lemma TwoTargets(a: nat, b: nat, n: nat, g: QuantumGate)
    requires a < n && b < n && a != b && |g.rows| == 4 && g.Square()
    ensures GateFits(g, [a, b], n) && TargetBits([a, b], n) == [BitOf(a, n), BitOf(b, n)]
    ensures Fits(g, [BitOf(a, n), BitOf(b, n)], n)
  {
    assert Pow2(2) == 4;
  }

  lemma HadamardMatrixAt(v: Vec, n: nat, k: nat, h: real, s: nat)
    requires IsRegister(v, n) && k < n && s < |v| && Fits(HadamardGate(h), [k], n)
    ensures SetTo(s, k, false) < |v| && SetTo(s, k, true) < |v|
    ensures var a, b := v[SetTo(s, k, false)], v[SetTo(s, k, true)];
            MatrixAt(v, n, HadamardGate(h), [k], s) == if Bit(s, k) then Scale(Sub(a, b), h) else Scale(Add(a, b), h)
  {
    hide Mul, Scale, Add, Sub, SetTo, Bit, Dot, Gather, LocalIndex, Pow2, Real;
    GatherOne(v, n, k, s);
    var a, b := v[SetTo(s, k, false)], v[SetTo(s, k, true)];
    DotTwo([Real(h), Real(h)], [a, b]);
    DotTwo([Real(h), Real(-h)], [a, b]);
    HadamardRows(h, a, b);
  }

  lemma HadamardIsMatrix(v: Vec, n: nat, q: nat, h: real)
    requires IsRegister(v, n) && q < n
    ensures GateFits(HadamardGate(h), [q], n)
    ensures Hadamard(v, n, q, h) == ApplyGate(v, n, HadamardGate(h), [q])
  {
    hide Mul, Scale, Add, Sub, SetTo, Bit, MatrixAt, HadamardKernel, PairAt, Pow2, TargetBits;
    OneTarget(q, n, HadamardGate(h));
    var k := BitOf(q, n);
    forall s: nat | s < |v|
      ensures Hadamard(v, n, q, h)[s] == MatrixAt(v, n, HadamardGate(h), [k], s)
    {
      var s0, s1 := SetTo(s, k, false), SetTo(s, k, true);
      PairAtForced(v, n, k, HadamardKernel(h), s);
      HadamardOut(h, s0, s1, v[s0], v[s1]);
      HadamardMatrixAt(v, n, k, h, s);
    }
  }

  lemma PauliXMatrixAt(v: Vec, n: nat, k: nat, s: nat)
    requires IsRegister(v, n) && k < n && s < |v| && Fits(PAULI_X, [k], n)
    ensures SetTo(s, k, false) < |v| && SetTo(s, k, true) < |v|
    ensures MatrixAt(v, n, PAULI_X, [k], s) == if Bit(s, k) then v[SetTo(s, k, false)] else v[SetTo(s, k, true)]
  {
    hide Mul, Add, SetTo, Bit, Dot, Gather, LocalIndex, Pow2;
    GatherOne(v, n, k, s);
    var a, b := v[SetTo(s, k, false)], v[SetTo(s, k, true)];
    DotTwo([ZERO, ONE], [a, b]);
    DotTwo([ONE, ZERO], [a, b]);
    MulUnit(a);
    MulUnit(b);
    AddZero(a);
    AddZero(b);
  }

  lemma PauliXIsMatrix(v: Vec, n: nat, q: nat)
    requires IsRegister(v, n) && q < n
    ensures GateFits(PAULI_X, [q], n)
    ensures PauliX(v, n, q) == ApplyGate(v, n, PAULI_X, [q])
  {
    hide SetTo, Bit, MatrixAt, PairAt, Pow2, TargetBits;
    OneTarget(q, n, PAULI_X);
    var k := BitOf(q, n);
    forall s: nat | s < |v|
      ensures PauliX(v, n, q)[s] == MatrixAt(v, n, PAULI_X, [k], s)
    {
      PairAtForced(v, n, k, PauliXKernel(), s);
      PauliXMatrixAt(v, n, k, s);
    }
  }

  /** Forcing a bit to the value it has changes nothing. */
  lemma ForcedBits(s: nat, c: nat, k: nat)
    requires c != k
    ensures SetTo(s, c, Bit(s, c)) == s
    ensures Bit(SetTo(s, k, true), c) == Bit(s, c) == Bit(SetTo(s, k, false), c)
  {
    SetToBits(s, k, true, c);
    SetToBits(s, k, false, c);
  }

  /** A controlled-phase multiplies exactly the amplitudes with both bits set. */
  lemma ControlledPhaseAt(v: Vec, n: nat, c: nat, t: nat, phase: Amp, s: nat)
    requires IsRegister(v, n) && c < n && t < n && c != t && s < |v|
    ensures ControlledPhase(v, n, c, t, phase)[s] ==
            if Bit(s, BitOf(c, n)) && Bit(s, BitOf(t, n)) then Mul(phase, v[s]) else v[s]
  {
    var k, j := BitOf(t, n), BitOf(c, n);
    PairAtForced(v, n, k, PhaseKernel(Pow2(j), phase), s);
    ForcedBits(s, j, k);
    AndMask(SetTo(s, k, true), j);
    MulUnit(phase);
  }

  /** A controlled-NOT reads each amplitude from the state with its target bit flipped if the control is set. */
  function ControlledFlip(s: nat, j: nat, k: nat): nat {
    if Bit(s, j) then SetTo(s, k, !Bit(s, k)) else s
  }

  lemma ControlledNotAt(v: Vec, n: nat, c: nat, t: nat, s: nat)
    requires IsRegister(v, n) && c < n && t < n && c != t && s < |v|
    ensures ControlledFlip(s, BitOf(c, n), BitOf(t, n)) < |v|
    ensures ControlledNot(v, n, c, t)[s] == v[ControlledFlip(s, BitOf(c, n), BitOf(t, n))]
  {
    var k, j := BitOf(t, n), BitOf(c, n);
    PairAtForced(v, n, k, ControlledNotKernel(Pow2(j)), s);
    ForcedBits(s, j, k);
    AndMask(SetTo(s, k, false), j);
  }

  lemma PhaseMatrixAt(v: Vec, n: nat, j: nat, k: nat, phase: Amp, s: nat)
    requires IsRegister(v, n) && j < n && k < n && j != k && s < |v| && Fits(ControlledPhaseGate(phase), [j, k], n)
    ensures MatrixAt(v, n, ControlledPhaseGate(phase), [j, k], s) ==
            if Bit(s, j) && Bit(s, k) then Mul(phase, v[s]) else v[s]
  {
    hide Mul, Force, MatrixAt, Bit, Pow2;
    ForceSelf(s, j, k);
    UnitRowsAt(v, n, ControlledPhaseGate(phase), j, k, s, phase);
    UnitRowsAt(v, n, ControlledPhaseGate(phase), j, k, s, ONE);
    MulUnit(v[s]);
  }

  /** Forcing two bits to the values they have changes nothing. */
  lemma ForceSelf(s: nat, j: nat, k: nat)
    requires j != k
    ensures Force(s, j, Bit(s, j), k, Bit(s, k)) == s
  {
    ForcedBits(s, j, k);
  }

  lemma ControlledPhaseIsMatrix(v: Vec, n: nat, c: nat, t: nat, phase: Amp)
    requires IsRegister(v, n) && c < n && t < n && c != t
    ensures GateFits(ControlledPhaseGate(phase), [c, t], n)
    ensures ControlledPhase(v, n, c, t, phase) == ApplyGate(v, n, ControlledPhaseGate(phase), [c, t])
  {
    hide Mul, MatrixAt, Bit, PairAt, PhaseKernel, Pow2, TargetBits;
    TwoTargets(c, t, n, ControlledPhaseGate(phase));
    var k, j, g := BitOf(t, n), BitOf(c, n), ControlledPhaseGate(phase);
    forall s: nat | s < |v|
      ensures ControlledPhase(v, n, c, t, phase)[s] == MatrixAt(v, n, g, [j, k], s)
    {
      ControlledPhaseAt(v, n, c, t, phase, s);
      PhaseMatrixAt(v, n, j, k, phase, s);
    }
  }

  /** A matrix with one non-zero entry per row picks one amplitude of the block. */
  lemma UnitRowsAt(v: Vec, n: nat, g: QuantumGate, j: nat, k: nat, s: nat, x: Amp)
    requires IsRegister(v, n) && j < n && k < n && j != k && s < |v|
    requires |g.rows| == Pow2(2) && g.Square()
    ensures forall x, y :: Force(s, j, x, k, y) < |v|
    ensures var row := g.rows[(if Bit(s, j) then 2 else 0) + (if Bit(s, k) then 1 else 0)];
            && (row == [x, ZERO, ZERO, ZERO] ==>
                  MatrixAt(v, n, g, [j, k], s) == Mul(x, v[Force(s, j, false, k, false)]))
            && (row == [ZERO, x, ZERO, ZERO] ==> MatrixAt(v, n, g, [j, k], s) == Mul(x, v[Force(s, j, false, k, true)]))
            && (row == [ZERO, ZERO, x, ZERO] ==> MatrixAt(v, n, g, [j, k], s) == Mul(x, v[Force(s, j, true, k, false)]))
            && (row == [ZERO, ZERO, ZERO, x] ==> MatrixAt(v, n, g, [j, k], s) == Mul(x, v[Force(s, j, true, k, true)]))
  {
    hide Mul, Force;
    GatherTwo(v, n, j, k, s);
    var xs := Gather(v, n, [j, k], s);
    var row := g.rows[LocalIndex(s, [j, k])];
    DotFour(row, xs);
    MulUnit(xs[0]);
    MulUnit(xs[1]);
    MulUnit(xs[2]);
    MulUnit(xs[3]);
  }

  lemma NotMatrixAt(v: Vec, n: nat, j: nat, k: nat, s: nat)
    requires IsRegister(v, n) && j < n && k < n && j != k && s < |v| && Fits(CONTROLLED_NOT, [j, k], n)
    ensures Force(s, j, Bit(s, j), k, Bit(s, j) != Bit(s, k)) < |v|
    ensures MatrixAt(v, n, CONTROLLED_NOT, [j, k], s) == v[Force(s, j, Bit(s, j), k, Bit(s, j) != Bit(s, k))]
  {
    hide Mul, Force, MatrixAt, Bit, Pow2;
    UnitRowsAt(v, n, CONTROLLED_NOT, j, k, s, ONE);
    MulUnit(v[Force(s, j, Bit(s, j), k, Bit(s, j) != Bit(s, k))]);
  }

  lemma FlipIsForce(s: nat, j: nat, k: nat)
    requires j != k
    ensures ControlledFlip(s, j, k) == Force(s, j, Bit(s, j), k, Bit(s, j) != Bit(s, k))
  {
    ForcedBits(s, j, k);
  }

  lemma ControlledNotIsMatrix(v: Vec, n: nat, c: nat, t: nat)
    requires IsRegister(v, n) && c < n && t < n && c != t
    ensures GateFits(CONTROLLED_NOT, [c, t], n)
    ensures ControlledNot(v, n, c, t) == ApplyGate(v, n, CONTROLLED_NOT, [c, t])
  {
    hide MatrixAt, Bit, PairAt, ControlledNotKernel, Pow2, TargetBits, Force, ControlledFlip;
    TwoTargets(c, t, n, CONTROLLED_NOT);
    var k, j := BitOf(t, n), BitOf(c, n);
    forall s: nat | s < |v|
      ensures ControlledNot(v, n, c, t)[s] == MatrixAt(v, n, CONTROLLED_NOT, [j, k], s)
    {
      ControlledNotAt(v, n, c, t, s);
      NotMatrixAt(v, n, j, k, s);
      FlipIsForce(s, j, k);
    }
  }

  // --------------------------------------------------------------------- swap

  /** `s` with bits `j` and `k` exchanged. */
  function ExchangeBits(s: nat, j: nat, k: nat): nat {
    SetTo(SetTo(s, j, Bit(s, k)), k, Bit(s, j))
  }

  lemma ExchangeBitsAt(s: nat, j: nat, k: nat, i: nat)
    requires j != k
    ensures Bit(ExchangeBits(s, j, k), i) ==
            if i == j then Bit(s, k) else if i == k then Bit(s, j) else Bit(s, i)
  {
    SetToBits(SetTo(s, j, Bit(s, k)), k, Bit(s, j), i);
    SetToBits(s, j, Bit(s, k), i);
  }

  lemma ControlledFlipBits(s: nat, j: nat, k: nat, i: nat)
    requires j != k
    ensures Bit(ControlledFlip(s, j, k), i) == if i == k then Bit(s, j) != Bit(s, k) else Bit(s, i)
  {
    SetToBits(s, k, !Bit(s, k), i);
  }

  /** Three controlled flips exchange the two bits. */
  lemma ThreeFlipsExchange(s: nat, j: nat, k: nat, n: nat)
    requires j != k && j < n && k < n && s < Pow2(n)
    ensures ExchangeBits(s, j, k) < Pow2(n)
    ensures ControlledFlip(ControlledFlip(ControlledFlip(s, j, k), k, j), j, k) == ExchangeBits(s, j, k)
  {
    var a := ControlledFlip(s, j, k);
    var b := ControlledFlip(a, k, j);
    var c, e := ControlledFlip(b, j, k), ExchangeBits(s, j, k);
    FlipRange(s, j, k, n);
    FlipRange(a, k, j, n);
    FlipRange(b, j, k, n);
    SetToRange(s, j, Bit(s, k), n);
    SetToRange(SetTo(s, j, Bit(s, k)), k, Bit(s, j), n);
    forall i: nat | i < n
      ensures Bit(c, i) == Bit(e, i)
    {
      forall p: nat
        ensures Bit(a, p) == if p == k then Bit(s, j) != Bit(s, k) else Bit(s, p)
        ensures Bit(b, p) == if p == j then Bit(a, k) != Bit(a, j) else Bit(a, p)
      {
        ControlledFlipBits(s, j, k, p);
        ControlledFlipBits(a, k, j, p);
      }
      ControlledFlipBits(b, j, k, i);
      ExchangeBitsAt(s, j, k, i);
    }
    BitExt(c, e, n);
  }

  lemma SetToRange(s: nat, k: nat, b: bool, n: nat)
    requires k < n && s < Pow2(n)
    ensures SetTo(s, k, b) < Pow2(n)
  {
    if !Bit(s, k) {
      SetBitRange(s, k, n);
    }
  }

  lemma FlipRange(s: nat, j: nat, k: nat, n: nat)
    requires k < n && s < Pow2(n)
    ensures ControlledFlip(s, j, k) < Pow2(n)
  {
    SetToRange(s, k, !Bit(s, k), n);
  }

  /** The three-CNOT swap permutes amplitudes by exchanging the two bits. */
  lemma SwapPermutes(v: Vec, n: nat, a: nat, b: nat, s: nat)
    requires IsRegister(v, n) && a < n && b < n && a != b && s < |v|
    ensures ExchangeBits(s, BitOf(a, n), BitOf(b, n)) < |v|
    ensures Swap(v, n, a, b)[s] == v[ExchangeBits(s, BitOf(a, n), BitOf(b, n))]
  {
    var j, k := BitOf(a, n), BitOf(b, n);
    var v1 := ControlledNot(v, n, a, b);
    var v2 := ControlledNot(v1, n, b, a);
    var s1 := ControlledFlip(s, j, k);
    var s2 := ControlledFlip(s1, k, j);
    ControlledNotAt(v2, n, a, b, s);
    ControlledNotAt(v1, n, b, a, s1);
    ControlledNotAt(v, n, a, b, s2);
    ThreeFlipsExchange(s, j, k, n);
  }

  lemma SwapMatrixAt(v: Vec, n: nat, j: nat, k: nat, s: nat)
    requires IsRegister(v, n) && j < n && k < n && j != k && s < |v| && Fits(SWAP, [j, k], n)
    ensures ExchangeBits(s, j, k) < |v| && MatrixAt(v, n, SWAP, [j, k], s) == v[ExchangeBits(s, j, k)]
  {
    hide Mul, MatrixAt, Bit, Pow2, SetTo;
    UnitRowsAt(v, n, SWAP, j, k, s, ONE);
    assert ExchangeBits(s, j, k) == Force(s, j, Bit(s, k), k, Bit(s, j));
    MulUnit(v[ExchangeBits(s, j, k)]);
  }

  lemma SwapIsMatrix(v: Vec, n: nat, a: nat, b: nat)
    requires IsRegister(v, n) && a < n && b < n && a != b
    ensures GateFits(SWAP, [a, b], n)
    ensures Swap(v, n, a, b) == ApplyGate(v, n, SWAP, [a, b])
  {
    hide MatrixAt, Bit, Pow2, TargetBits, ExchangeBits, ControlledNot;
    TwoTargets(a, b, n, SWAP);
    var j, k := BitOf(a, n), BitOf(b, n);
    forall s: nat | s < |v|
      ensures Swap(v, n, a, b)[s] == MatrixAt(v, n, SWAP, [j, k], s)
    {
      SwapPermutes(v, n, a, b, s);
      SwapMatrixAt(v, n, j, k, s);
    }
  }
}
