/** Pairwise two-state kernels and what applying one to a whole register means. */
module PairKernels {
  import opened Amplitudes
  import opened Bits

  datatype PairMutation = Neither | First | Second | Both

  predicate TouchesFirst(m: PairMutation) { m == First || m == Both }

  predicate TouchesSecond(m: PairMutation) { m == Second || m == Both }

  datatype PairOut = PairOut(a0: Amp, a1: Amp, mutation: PairMutation)

  /** (state0, state1, amplitude0, amplitude1) to new amplitudes and what was written. */
  type PairFn = (nat, nat, Amp, Amp) -> PairOut

  /** A kernel reports every amplitude it changes: what it does not report, it leaves alone. */
  ghost predicate Honest(f: PairFn) {
    forall s0: nat, s1: nat, a0, a1 ::
      var o := f(s0, s1, a0, a1);
      && (TouchesFirst(o.mutation) || o.a0 == a0)
      && (TouchesSecond(o.mutation) || o.a1 == a1)
  }

  /** A register of `n` qubits with a target bit. */
  ghost predicate IsRegister(v: Vec, n: nat) { |v| == Pow2(n) }

  /** The value kernel `f` on target bit `k` must leave at state `s`. */
  function PairAt(v: Vec, n: nat, k: nat, f: PairFn, s: nat): Amp
    requires IsRegister(v, n) && k < n && s < |v|
  {
    if Bit(s, k) then
      ClearBit(s, k, k);
      f(s - Pow2(k), s, v[s - Pow2(k)], v[s]).a1
    else
      SetBitRange(s, k, n);
      f(s, s + Pow2(k), v[s], v[s + Pow2(k)]).a0
  }

  /** Kernel `f` applied to every pair of states that differ in bit `k` only. */
  function PairMap(v: Vec, n: nat, k: nat, f: PairFn): (w: Vec)
    requires IsRegister(v, n) && k < n
    ensures IsRegister(w, n)
  {
    seq(|v|, s requires 0 <= s < |v| => PairAt(v, n, k, f, s))
  }

  /** The states below `m` whose bit `k` is clear, in increasing order. */
  function ClearStates(m: nat, k: nat): seq<nat> {
    if m == 0 then []
    else ClearStates(m - 1, k) + if Bit(m - 1, k) then [] else [m - 1]
  }

  /** One callback: the kernel overwrites both amplitudes of the pair at `s`. */
  function PairStep(v: Vec, k: nat, f: PairFn, s: nat): (w: Vec)
    requires s + Pow2(k) < |v|
    ensures |w| == |v|
  {
    var o := f(s, s + Pow2(k), v[s], v[s + Pow2(k)]);
    v[s := o.a0][s + Pow2(k) := o.a1]
  }

  /** Every listed state has its partner inside a vector of length `len`. */
  ghost predicate PairsFit(states: seq<nat>, k: nat, len: nat) {
    forall i | 0 <= i < |states| :: states[i] + Pow2(k) < len
  }

  /** The callbacks for the listed states, first to last. */
  function RunVisits(v: Vec, k: nat, f: PairFn, states: seq<nat>): (w: Vec)
    requires PairsFit(states, k, |v|)
    ensures |w| == |v|
  {
    if states == [] then v
    else PairStep(RunVisits(v, k, f, states[..|states| - 1]), k, f, states[|states| - 1])
  }

  lemma NoVisits(v: Vec, k: nat, f: PairFn)
    ensures RunVisits(v, k, f, []) == v
  {
  }

  /** `ClearStates` is a list of exactly the clear states, each once, in increasing order. */
  lemma {:induction false} ClearStatesExact(m: nat, k: nat)
    ensures forall s: nat :: s in ClearStates(m, k) <==> s < m && !Bit(s, k)
    ensures forall i | 0 <= i < |ClearStates(m, k)| :: ClearStates(m, k)[i] < m
    ensures forall i, j | 0 <= i < j < |ClearStates(m, k)| :: ClearStates(m, k)[i] < ClearStates(m, k)[j]
  {
    if m > 0 {
      ClearStatesExact(m - 1, k);
    }
  }

  /** A list of pair bases: clear states of the register, none twice. */
  ghost predicate PairBases(states: seq<nat>, n: nat, k: nat) {
    && (forall i | 0 <= i < |states| :: states[i] < Pow2(n) && !Bit(states[i], k))
    && (forall i, j | 0 <= i < j < |states| :: states[i] != states[j])
  }

  /** The lower state of the pair `s` belongs to. */
  function PairBase(s: nat, k: nat): nat {
    if Bit(s, k) then ClearBit(s, k, k); s - Pow2(k) else s
  }

  lemma BasesFit(states: seq<nat>, n: nat, k: nat)
    requires k < n && PairBases(states, n, k)
    ensures PairsFit(states, k, Pow2(n))
  {
    forall i | 0 <= i < |states|
      ensures states[i] + Pow2(k) < Pow2(n)
    {
      SetBitRange(states[i], k, n);
    }
  }

  /** Visits in any order, none repeated, do exactly the listed pairs and leave the others alone. */
  lemma {:induction false} VisitedPairs(v: Vec, n: nat, k: nat, f: PairFn, states: seq<nat>, s: nat)
    requires IsRegister(v, n) && k < n && PairBases(states, n, k) && s < |v|
    ensures PairsFit(states, k, |v|)
    ensures RunVisits(v, k, f, states)[s] ==
            if PairBase(s, k) in states then PairAt(v, n, k, f, s) else v[s]
  {
    hide Bit, Pow2;
    BasesFit(states, n, k);
    if states != [] {
      var l := |states| - 1;
      var u, init := states[l], states[..l];
      VisitedPairs(v, n, k, f, init, s);
      SetBit(u, k, k);
      VisitedPairs(v, n, k, f, init, u);
      VisitedPairs(v, n, k, f, init, u + Pow2(k));
      assert PairBase(u + Pow2(k), k) == u && u !in init;
      StepAt(v, RunVisits(v, k, f, init), n, k, f, u, s);
      assert states == init + [u];
    }
  }

  /** Any order of visiting all clear states gives the pointwise map. */
  lemma AnyOrderIsMap(v: Vec, n: nat, k: nat, f: PairFn, states: seq<nat>)
    requires IsRegister(v, n) && k < n && PairBases(states, n, k)
    requires forall s: nat | s < |v| && !Bit(s, k) :: s in states
    ensures PairsFit(states, k, |v|)
    ensures RunVisits(v, k, f, states) == PairMap(v, n, k, f)
  {
    BasesFit(states, n, k);
    forall s: nat | s < |v|
      ensures RunVisits(v, k, f, states)[s] == PairAt(v, n, k, f, s)
    {
      VisitedPairs(v, n, k, f, states, s);
      BaseIsClear(s, k);
    }
  }

  /** In particular the increasing order all three traversals use. */
  lemma VisitsAreMap(v: Vec, n: nat, k: nat, f: PairFn)
    requires IsRegister(v, n) && k < n
    ensures PairsFit(ClearStates(|v|, k), k, |v|)
    ensures RunVisits(v, k, f, ClearStates(|v|, k)) == PairMap(v, n, k, f)
  {
    ClearStatesExact(|v|, k);
    forall i | 0 <= i < |ClearStates(|v|, k)|
      ensures !Bit(ClearStates(|v|, k)[i], k)
    {
      assert ClearStates(|v|, k)[i] in ClearStates(|v|, k);
    }
    AnyOrderIsMap(v, n, k, f, ClearStates(|v|, k));
  }

  /** One visit to a still untouched pair writes exactly that pair. */
  lemma StepAt(v: Vec, w: Vec, n: nat, k: nat, f: PairFn, u: nat, s: nat)
    requires IsRegister(v, n) && |w| == |v| && k < n && s < |v|
    requires !Bit(u, k) && u + Pow2(k) < |v| && w[u] == v[u] && w[u + Pow2(k)] == v[u + Pow2(k)]
    ensures PairStep(w, k, f, u)[s] == if PairBase(s, k) == u then PairAt(v, n, k, f, s) else w[s]
  {
    BaseIsClear(s, k);
    SetBit(u, k, k);
  }

  lemma BaseIsClear(s: nat, k: nat)
    ensures !Bit(PairBase(s, k), k)
    ensures s == PairBase(s, k) || s == PairBase(s, k) + Pow2(k)
  {
    if Bit(s, k) {
      ClearBit(s, k, k);
    }
  }
}
