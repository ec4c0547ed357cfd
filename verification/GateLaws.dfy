/** What every kernel and every matrix leaves at each state, bit by bit and component by component. */
module GateLaws {
  import opened Amplitudes
  import opened Bits
  import opened PairKernels
  import opened Gates
  import opened GateBlocks
  import opened StateOps
  import opened KernelMatrices
  import opened ChunkLayouts

  /** Bit `k` is the binary digit of weight 2^k. */
  lemma {:induction false} BitIsDigit(s: nat, k: nat)
    ensures Bit(s, k) <==> s / Pow2(k) % 2 == 1
  {
    if k > 0 {
      BitIsDigit(s / 2, k - 1);
      HalveFirst(s, Pow2(k - 1));
    }
  }

  lemma HalveFirst(s: nat, p: nat)
    requires p >= 1
    ensures s / 2 / p == s / (2 * p)
  {
    var q, r := s / 2 / p, s / 2 % p;
    assert s == q * (2 * p) + (2 * r + s % 2);
    DivUnique(q, 2 * r + s % 2, 2 * p);
  }

  /** The partner of a state across bit `k` is in the register. */
  lemma PartnerFits(s: nat, k: nat, n: nat)
    requires s < Pow2(n) && k < n
    ensures if Bit(s, k) then s >= Pow2(k) else s + Pow2(k) < Pow2(n)
  {
    if Bit(s, k) {
      ClearBit(s, k, k);
    } else {
      SetBitRange(s, k, n);
    }
  }

  /** Sum and difference, scaled: at a clear bit the sum with the partner, at a set bit partner minus own. */
  lemma HadamardLaw(v: Vec, n: nat, q: nat, h: real, s: nat)
    requires IsRegister(v, n) && q < n && s < |v|
    ensures var p := Pow2(n - 1 - q);
            if Bit(s, n - 1 - q)
            then s >= p && Hadamard(v, n, q, h)[s] == Amp((v[s - p].re - v[s].re) * h, (v[s - p].im - v[s].im) * h)
            else s + p < |v| && Hadamard(v, n, q, h)[s] == Amp((v[s].re + v[s + p].re) * h, (v[s].im + v[s + p].im) * h)
  {
    hide HadamardKernel, PairAt, Bit, Pow2;
    var k := n - 1 - q;
    PartnerFits(s, k, n);
    PairAtForced(v, n, k, HadamardKernel(h), s);
    var s0, s1 := SetTo(s, k, false), SetTo(s, k, true);
    HadamardOut(h, s0, s1, v[s0], v[s1]);
  }

  /** The amplitude of the partner. */
  lemma PauliXLaw(v: Vec, n: nat, q: nat, s: nat)
    requires IsRegister(v, n) && q < n && s < |v|
    ensures var p := Pow2(n - 1 - q);
            if Bit(s, n - 1 - q) then s >= p && PauliX(v, n, q)[s] == v[s - p]
            else s + p < |v| && PauliX(v, n, q)[s] == v[s + p]
  {
    PartnerFits(s, n - 1 - q, n);
  }

  /** Where the control bit is set, the amplitude of the partner across the target bit; elsewhere the old one. */
  lemma ControlledNotLaw(v: Vec, n: nat, c: nat, t: nat, s: nat)
    requires IsRegister(v, n) && c < n && t < n && c != t && s < |v|
    ensures var p := Pow2(n - 1 - t);
            if !Bit(s, n - 1 - c) then ControlledNot(v, n, c, t)[s] == v[s]
            else if Bit(s, n - 1 - t) then s >= p && ControlledNot(v, n, c, t)[s] == v[s - p]
            else s + p < |v| && ControlledNot(v, n, c, t)[s] == v[s + p]
  {
    hide ControlledNot, Bit, Pow2;
    PartnerFits(s, n - 1 - t, n);
    ControlledNotAt(v, n, c, t, s);
  }

  /** Where both bits are set, the complex product with the phase; elsewhere the old amplitude. */
  lemma ControlledPhaseLaw(v: Vec, n: nat, c: nat, t: nat, phase: Amp, s: nat)
    requires IsRegister(v, n) && c < n && t < n && c != t && s < |v|
    ensures ControlledPhase(v, n, c, t, phase)[s] ==
            if Bit(s, n - 1 - c) && Bit(s, n - 1 - t)
            then Amp(phase.re * v[s].re - phase.im * v[s].im, phase.re * v[s].im + phase.im * v[s].re) else v[s]
  {
    hide ControlledPhase, Bit;
    ControlledPhaseAt(v, n, c, t, phase, s);
  }

  /** `u` has the bits of `s` off the listed qubits, and on them the digits of `idx`, first qubit most significant. */
  ghost predicate Addresses(s: nat, qubits: seq<nat>, n: nat, idx: nat, u: nat) {
    && u < Pow2(n)
    && (forall i | 0 <= i < |qubits| :: qubits[i] < n && Bit(u, n - 1 - qubits[i]) == Bit(idx, |qubits| - 1 - i))
    && (forall q: nat | q < n && q !in qubits :: Bit(u, n - 1 - q) == Bit(s, n - 1 - q))
  }

  lemma AddressIsPlace(s: nat, qubits: seq<nat>, n: nat, idx: nat, u: nat)
    requires DistinctBelow(qubits, n) && s < Pow2(n) && Addresses(s, qubits, n, idx, u)
    ensures u == Place(s, TargetBits(qubits, n), idx)
  {
    var t := TargetBits(qubits, n);
    PlaceRange(s, t, idx, n);
    forall i | 0 <= i < |t|
      ensures Bit(u, t[i]) == Bit(Place(s, t, idx), t[i])
    {
      PlaceOn(s, t, idx, n, i);
    }
    forall j: nat | j < n && j !in t
      ensures Bit(u, j) == Bit(Place(s, t, idx), j)
    {
      var q: nat := n - 1 - j;
      assert forall i | 0 <= i < |qubits| :: t[i] == n - 1 - qubits[i] && t[i] in t;
      assert q !in qubits;
      PlaceOff(s, t, idx, j);
    }
    SameBits(u, Place(s, t, idx), t, n);
  }

  lemma PlaceIsAddress(s: nat, qubits: seq<nat>, n: nat, idx: nat)
    requires DistinctBelow(qubits, n) && s < Pow2(n)
    ensures Addresses(s, qubits, n, idx, Place(s, TargetBits(qubits, n), idx))
  {
    var t := TargetBits(qubits, n);
    PlaceRange(s, t, idx, n);
    forall i | 0 <= i < |qubits|
      ensures Bit(Place(s, t, idx), n - 1 - qubits[i]) == Bit(idx, |qubits| - 1 - i)
    {
      PlaceOn(s, t, idx, n, i);
    }
    forall q: nat | q < n && q !in qubits
      ensures Bit(Place(s, t, idx), n - 1 - q) == Bit(s, n - 1 - q)
    {
      PlaceOff(s, t, idx, n - 1 - q);
    }
  }

  /**
   * A gate on a list of qubits leaves at `s` the product of the matrix row that the listed bits of `s` select, first
   * qubit most significant, with the amplitudes of the states that differ from `s` in those bits only, in that order.
   */
  lemma MatrixLaw(v: Vec, n: nat, g: QuantumGate, qubits: seq<nat>, s: nat, row: nat, xs: Vec)
    requires IsRegister(v, n) && GateFits(g, qubits, n) && s < |v|
    requires row < |g.rows| && Addresses(s, qubits, n, row, s)
    requires |xs| == |g.rows|
    requires forall idx: nat, u: nat | idx < |xs| && Addresses(s, qubits, n, idx, u) :: xs[idx] == v[u]
    ensures ApplyGate(v, n, g, qubits)[s] == Dot(g.rows[row], xs)
  {
    hide Dot, Bit, Pow2, Addresses;
    var t := TargetBits(qubits, n);
    AddressIsPlace(s, qubits, n, row, s);
    LocalOfPlace(s, t, row, n);
    forall idx: nat | idx < |xs|
      ensures xs[idx] == Gather(v, n, t, s)[idx]
    {
      PlaceRange(s, t, idx, n);
      PlaceIsAddress(s, qubits, n, idx);
    }
    assert xs == Gather(v, n, t, s);
  }

  /** The pieces of a reflection and of an affine pass, component by component. */
  lemma ReflectionLaw(v: Vec, mean: Amp, s: nat)
    requires s < |v|
    ensures InvertWith(v, mean)[s] == Amp(2.0 * mean.re - v[s].re, 2.0 * mean.im - v[s].im)
  {
  }

  lemma AffineLaw(v: Vec, scale: Amp, bias: Amp, s: nat)
    requires s < |v|
    ensures Affine(v, scale, bias)[s] ==
            Amp(scale.re * v[s].re - scale.im * v[s].im + bias.re, scale.re * v[s].im + scale.im * v[s].re + bias.im)
  {
  }

  /** The mean is what, taken once for every state, gives the sum of all amplitudes. */
  lemma MeanLaw(v: Vec, mean: Amp)
    requires v != []
    ensures mean == Mean(v) <==> Scale(mean, |v| as real) == Sum(v)
  {
    var n := |v| as real;
    DivideExactly(mean.re, Sum(v).re, n);
    DivideExactly(mean.im, Sum(v).im, n);
  }

  /** A reflection about the mean, for the amplitude that, times the number of states, is the sum of all. */
  lemma MeanReflectionLaw(v: Vec, mean: Amp, s: nat)
    requires s < |v| && Amp(mean.re * (|v| as real), mean.im * (|v| as real)) == Sum(v)
    ensures InvertWith(v, Mean(v))[s] == Amp(2.0 * mean.re - v[s].re, 2.0 * mean.im - v[s].im)
  {
    hide Mean, Sum, InvertWith;
    MeanLaw(v, mean);
    ReflectionLaw(v, mean, s);
  }

  lemma DivideExactly(x: real, sum: real, n: real)
    requires n > 0.0
    ensures x == sum / n <==> x * n == sum
  {
    assert sum / n * n == sum;
    if x * n == sum {
      assert (x - sum / n) * n == 0.0;
    }
  }

  /** A flip negates one amplitude. */
  lemma FlipLaw(v: Vec, s: nat, u: nat)
    requires s < |v| && u < |v|
    ensures PhaseFlip(v, s)[u] == if u == s then Amp(-v[u].re, -v[u].im) else v[u]
  {
  }
}
