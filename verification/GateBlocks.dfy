/** Matrix application on selected qubits, and the block engine that implements it. */
module GateBlocks {
  import opened Amplitudes
  import opened Bits
  import opened Gates

  // ---------------------------------------------------- meaning, without blocks

  /** Bit positions of the targets: qubit 0 is the most significant bit. */
  function TargetBits(qubits: seq<nat>, n: nat): (t: seq<nat>)
    requires forall i | 0 <= i < |qubits| :: qubits[i] < n
    ensures |t| == |qubits| && forall i | 0 <= i < |t| :: t[i] == n - 1 - qubits[i]
  {
    seq(|qubits|, i requires 0 <= i < |qubits| => n - 1 - qubits[i])
  }

  ghost predicate DistinctBelow(t: seq<nat>, n: nat) {
    && (forall i | 0 <= i < |t| :: t[i] < n)
    && (forall i, j | 0 <= i < j < |t| :: t[i] != t[j])
  }

  /** `s` with bit `k` forced to `b`. */
  function SetTo(s: nat, k: nat, b: bool): nat {
    if Bit(s, k) == b then s
    else if b then s + Pow2(k)
    else ClearBit(s, k, k); s - Pow2(k)
  }

  /** The target bits of `s` read as a number, first target most significant: the matrix row of `s`. */
  function LocalIndex(s: nat, t: seq<nat>): nat {
    if t == [] then 0
    else 2 * LocalIndex(s, t[..|t| - 1]) + if Bit(s, t[|t| - 1]) then 1 else 0
  }

  /** `s` with its target bits replaced by the digits of `idx`. */
  function Place(s: nat, t: seq<nat>, idx: nat): nat {
    if t == [] then s
    else SetTo(Place(s, t[..|t| - 1], idx / 2), t[|t| - 1], idx % 2 == 1)
  }

  /** The amplitudes that share the non-target bits of `s`, in matrix order. */
  function Gather(v: Vec, n: nat, t: seq<nat>, s: nat): (xs: Vec)
    requires |v| == Pow2(n) && DistinctBelow(t, n) && s < |v|
    ensures |xs| == Pow2(|t|)
  {
    seq(Pow2(|t|), idx requires 0 <= idx < Pow2(|t|) => PlaceRange(s, t, idx, n); v[Place(s, t, idx)])
  }

  ghost predicate Fits(g: QuantumGate, t: seq<nat>, n: nat) {
    g.Square() && |g.rows| == Pow2(|t|) && DistinctBelow(t, n)
  }

  /** The amplitude a matrix on target bits `t` must leave at `s`: a row times the amplitudes of its block. */
  function MatrixAt(v: Vec, n: nat, g: QuantumGate, t: seq<nat>, s: nat): Amp
    requires |v| == Pow2(n) && Fits(g, t, n) && s < |v|
  {
    LocalRange(s, t);
    Dot(g.rows[LocalIndex(s, t)], Gather(v, n, t, s))
  }

  /** The gate on the register: the matrix tensored with the identity on all other qubits. */
  function ApplyMatrix(v: Vec, n: nat, g: QuantumGate, t: seq<nat>): (w: Vec)
    requires |v| == Pow2(n) && Fits(g, t, n)
    ensures |w| == |v|
  {
    seq(|v|, s requires 0 <= s < |v| => MatrixAt(v, n, g, t, s))
  }

  // ------------------------------------------------------------ bits of places

  lemma {:induction false} LocalRange(s: nat, t: seq<nat>)
    ensures LocalIndex(s, t) < Pow2(|t|)
  {
    if t != [] {
      LocalRange(s, t[..|t| - 1]);
    }
  }

  lemma SetToBits(s: nat, k: nat, b: bool, j: nat)
    ensures Bit(SetTo(s, k, b), j) == if j == k then b else Bit(s, j)
  {
    if Bit(s, k) != b {
      if b {
        SetBit(s, k, j);
      } else {
        ClearBit(s, k, j);
      }
    }
  }

  lemma {:induction false} PlaceRange(s: nat, t: seq<nat>, idx: nat, n: nat)
    requires s < Pow2(n) && forall i | 0 <= i < |t| :: t[i] < n
    ensures Place(s, t, idx) < Pow2(n)
  {
    if t != [] {
      var l := |t| - 1;
      PlaceRange(s, t[..l], idx / 2, n);
      var p := Place(s, t[..l], idx / 2);
      if !Bit(p, t[l]) {
        SetBitRange(p, t[l], n);
      }
    }
  }

  /** Off the targets `Place` changes nothing. */
  lemma {:induction false} PlaceOff(s: nat, t: seq<nat>, idx: nat, j: nat)
    requires j !in t
    ensures Bit(Place(s, t, idx), j) == Bit(s, j)
  {
    if t != [] {
      var l := |t| - 1;
      assert j !in t[..l];
      PlaceOff(s, t[..l], idx / 2, j);
      SetToBits(Place(s, t[..l], idx / 2), t[l], idx % 2 == 1, j);
    }
  }

  /** On target `i` it writes digit `|t| - 1 - i` of the index. */
  lemma {:induction false} PlaceOn(s: nat, t: seq<nat>, idx: nat, n: nat, i: nat)
    requires DistinctBelow(t, n) && i < |t|
    ensures Bit(Place(s, t, idx), t[i]) == Bit(idx, |t| - 1 - i)
  {
    var l := |t| - 1;
    SetToBits(Place(s, t[..l], idx / 2), t[l], idx % 2 == 1, t[i]);
    if i < l {
      PlaceOn(s, t[..l], idx / 2, n, i);
    }
  }

  lemma {:induction false} LocalBits(s: nat, t: seq<nat>, i: nat)
    requires i < |t|
    ensures Bit(LocalIndex(s, t), |t| - 1 - i) == Bit(s, t[i])
  {
    var l := |t| - 1;
    BitOfDigit(LocalIndex(s, t[..l]), Bit(s, t[l]), l - i);
    hide Bit;
    if i < l {
      LocalBits(s, t[..l], i);
    }
  }

  /** Two numbers that agree on the targets and off them are equal. */
  lemma SameBits(a: nat, b: nat, t: seq<nat>, n: nat)
    requires a < Pow2(n) && b < Pow2(n)
    requires forall i | 0 <= i < |t| :: Bit(a, t[i]) == Bit(b, t[i])
    requires forall j: nat | j < n && j !in t :: Bit(a, j) == Bit(b, j)
    ensures a == b
  {
    forall j: nat | j < n
      ensures Bit(a, j) == Bit(b, j)
    {
      if j in t {
        var i :| 0 <= i < |t| && t[i] == j;
      }
    }
    BitExt(a, b, n);
  }

  /** Reading back what was placed. */
  lemma LocalOfPlace(s: nat, t: seq<nat>, idx: nat, n: nat)
    requires DistinctBelow(t, n) && idx < Pow2(|t|)
    ensures LocalIndex(Place(s, t, idx), t) == idx
  {
    var p := Place(s, t, idx);
    LocalRange(p, t);
    forall j: nat | j < |t|
      ensures Bit(LocalIndex(p, t), j) == Bit(idx, j)
    {
      LocalBits(p, t, |t| - 1 - j);
      PlaceOn(s, t, idx, n, |t| - 1 - j);
    }
    BitExt(LocalIndex(p, t), idx, |t|);
  }

  /** Placing what was read changes nothing. */
  lemma PlaceOfLocal(s: nat, t: seq<nat>, n: nat)
    requires DistinctBelow(t, n) && s < Pow2(n)
    ensures Place(s, t, LocalIndex(s, t)) == s
  {
    var idx := LocalIndex(s, t);
    PlaceRange(s, t, idx, n);
    forall i | 0 <= i < |t|
      ensures Bit(Place(s, t, idx), t[i]) == Bit(s, t[i])
    {
      LocalBits(s, t, i);
      PlaceOn(s, t, idx, n, i);
    }
    forall j: nat | j < n && j !in t
      ensures Bit(Place(s, t, idx), j) == Bit(s, j)
    {
      PlaceOff(s, t, idx, j);
    }
    SameBits(Place(s, t, idx), s, t, n);
  }

  /** States that agree off the targets are in one block. */
  lemma SameBlockPlace(a: nat, b: nat, t: seq<nat>, idx: nat, n: nat)
    requires DistinctBelow(t, n) && a < Pow2(n) && b < Pow2(n)
    requires forall j: nat | j < n && j !in t :: Bit(a, j) == Bit(b, j)
    ensures Place(a, t, idx) == Place(b, t, idx)
  {
    PlaceRange(a, t, idx, n);
    PlaceRange(b, t, idx, n);
    forall i | 0 <= i < |t|
      ensures Bit(Place(a, t, idx), t[i]) == Bit(Place(b, t, idx), t[i])
    {
      PlaceOn(a, t, idx, n, i);
      PlaceOn(b, t, idx, n, i);
    }
    forall j: nat | j < n && j !in t
      ensures Bit(Place(a, t, idx), j) == Bit(Place(b, t, idx), j)
    {
      PlaceOff(a, t, idx, j);
      PlaceOff(b, t, idx, j);
    }
    SameBits(Place(a, t, idx), Place(b, t, idx), t, n);
  }

  lemma PlaceTwice(s: nat, t: seq<nat>, i: nat, idx: nat, n: nat)
    requires DistinctBelow(t, n) && s < Pow2(n)
    ensures Place(Place(s, t, i), t, idx) == Place(s, t, idx)
  {
    PlaceRange(s, t, i, n);
    forall j: nat | j < n && j !in t
      ensures Bit(Place(s, t, i), j) == Bit(s, j)
    {
      PlaceOff(s, t, i, j);
    }
    SameBlockPlace(Place(s, t, i), s, t, idx, n);
  }

  // -------------------------------------------------------- gate composition

  /** A block of the result is the matrix times the same block of the input. */
  lemma GatherApplied(v: Vec, n: nat, g: QuantumGate, t: seq<nat>, s: nat)
    requires |v| == Pow2(n) && Fits(g, t, n) && s < |v|
    ensures Gather(ApplyMatrix(v, n, g, t), n, t, s) == MatVec(g, Gather(v, n, t, s))
  {
    var w, xs := ApplyMatrix(v, n, g, t), Gather(v, n, t, s);
    forall idx: nat | idx < Pow2(|t|)
      ensures Gather(w, n, t, s)[idx] == MatVec(g, xs)[idx]
    {
      var p := Place(s, t, idx);
      PlaceRange(s, t, idx, n);
      LocalOfPlace(s, t, idx, n);
      assert Gather(v, n, t, p) == xs by {
        forall j: nat | j < Pow2(|t|)
          ensures Gather(v, n, t, p)[j] == xs[j]
        {
          PlaceTwice(s, t, idx, j, n);
        }
      }
      assert w[p] == MatrixAt(v, n, g, t, p);
    }
  }

  /** Applying the product gate is applying the right factor and then the left one. */
  lemma ProductIsComposition(v: Vec, n: nat, a: QuantumGate, b: QuantumGate, t: seq<nat>)
    requires |v| == Pow2(n) && Fits(a, t, n) && Fits(b, t, n)
    ensures ApplyMatrix(v, n, Product(a, b), t) == ApplyMatrix(ApplyMatrix(v, n, b, t), n, a, t)
  {
    hide Dot, Mul, Add;
    var w := ApplyMatrix(v, n, b, t);
    forall s: nat | s < |v|
      ensures MatrixAt(v, n, Product(a, b), t, s) == MatrixAt(w, n, a, t, s)
    {
      var xs, r := Gather(v, n, t, s), LocalIndex(s, t);
      LocalRange(s, t);
      GatherApplied(v, n, b, t, s);
      ProductComposes(a, b, xs);
      assert MatVec(Product(a, b), xs)[r] == MatVec(a, MatVec(b, xs))[r];
    }
  }
}
