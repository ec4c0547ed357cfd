/** The lazy affine overlay `logical = scale * stored + bias` of a register. */
module AffineOverlays {
  import opened Amplitudes
  import opened Options
  import opened StateOps

  datatype Overlay = Overlay(active: bool, scale: Amp, bias: Amp)

  const IDENTITY := Overlay(false, ONE, ZERO)

  /** Every reachable overlay scales by +1 or -1, and an inactive one is the identity. */
  ghost predicate IsReflection(o: Overlay) {
    && (o.scale == ONE || o.scale == Neg(ONE))
    && (!o.active ==> o.scale == ONE && o.bias == ZERO)
  }

  function ApplyOverlay(o: Overlay, a: Amp): Amp {
    if !o.active then a else Add(Mul(o.scale, a), o.bias)
  }

  /** Complex division; `None` is the zero-scale error. */
  function Divide(n: Amp, d: Amp): Option<Amp> {
    var q := NormSq(d);
    if q == 0.0 then None
    else Some(Amp((n.re * d.re + n.im * d.im) / q, (n.im * d.re - n.re * d.im) / q))
  }

  function RemoveOverlay(o: Overlay, a: Amp): Option<Amp> {
    if !o.active then Some(a) else Divide(Sub(a, o.bias), o.scale)
  }

  function ApplyAll(o: Overlay, v: Vec): (w: Vec)
    ensures |w| == |v|
  {
    seq(|v|, s requires 0 <= s < |v| => ApplyOverlay(o, v[s]))
  }

  lemma ApplyAllSlice(o: Overlay, v: Vec, m: nat, len: nat)
    requires m + len <= |v|
    ensures ApplyAll(o, v[m..m + len]) == ApplyAll(o, v)[m..m + len]
  {
    hide ApplyOverlay;
  }

  /** The overlay after reflecting about `mean`. */
  function Reflected(o: Overlay, mean: Amp): Overlay {
    var scale, bias := if o.active then o.scale else ONE, if o.active then o.bias else ZERO;
    Overlay(true, Neg(scale), Sub(Scale(mean, 2.0), bias))
  }

  /** The zero-scale error never happens, and removing an overlay is exactly its inverse. */
  lemma RemoveInverts(o: Overlay, a: Amp)
    requires IsReflection(o)
    ensures RemoveOverlay(o, a).Some?
    ensures ApplyOverlay(o, RemoveOverlay(o, a).value) == a
    ensures RemoveOverlay(o, ApplyOverlay(o, a)) == Some(a)
  {
    if o.active {
      DivideBySign(Sub(a, o.bias), o.scale);
      DivideBySign(Sub(ApplyOverlay(o, a), o.bias), o.scale);
    }
  }

  lemma DivideBySign(n: Amp, d: Amp)
    requires d == ONE || d == Neg(ONE)
    ensures Divide(n, d) == Some(if d == ONE then n else Neg(n))
    ensures Mul(d, n) == if d == ONE then n else Neg(n)
  {
  }

  lemma NegTimes(d: Amp, a: Amp)
    ensures Mul(Neg(d), a) == Neg(Mul(d, a))
  {
  }

  lemma ReflectLinear(x: Amp, twice: Amp, b: Amp)
    ensures Add(Neg(x), Sub(twice, b)) == Sub(twice, Add(x, b))
    ensures Sub(twice, Add(x, ZERO)) == Sub(twice, x)
  {
  }

  /** Storing the un-overlaid amplitude changes one logical amplitude and no other. */
  lemma ApplyAllUpdate(o: Overlay, v: Vec, s: nat, a: Amp)
    requires IsReflection(o) && s < |v|
    ensures RemoveOverlay(o, a).Some?
    ensures ApplyAll(o, v[s := RemoveOverlay(o, a).value]) == ApplyAll(o, v)[s := a]
  {
    RemoveInverts(o, a);
    hide ApplyOverlay, RemoveOverlay;
    var x := RemoveOverlay(o, a).value;
    assert ApplyAll(o, v[s := x])[s] == a;
  }

  lemma ReflectOne(o: Overlay, mean: Amp, a: Amp)
    requires IsReflection(o)
    ensures ApplyOverlay(Reflected(o, mean), a) == Sub(Scale(mean, 2.0), ApplyOverlay(o, a))
  {
    hide Mul, Add, Sub, Scale, Neg;
    NegTimes(o.scale, a);
    ReflectLinear(Mul(o.scale, a), Scale(mean, 2.0), o.bias);
    MulUnit(a);
  }

  /** Reflecting the overlay reflects the logical vector, and keeps the overlay a reflection. */
  lemma ReflectAll(o: Overlay, v: Vec, mean: Amp)
    requires IsReflection(o)
    ensures IsReflection(Reflected(o, mean))
    ensures ApplyAll(Reflected(o, mean), v) == InvertWith(ApplyAll(o, v), mean)
  {
    hide ApplyOverlay;
    forall s: nat | s < |v|
      ensures ApplyAll(Reflected(o, mean), v)[s] == InvertWith(ApplyAll(o, v), mean)[s]
    {
      ReflectOne(o, mean, v[s]);
    }
  }

  /** Flushing stores what the overlay showed; the inactive overlay shows the store. */
  lemma FlushStores(o: Overlay, v: Vec)
    ensures o.active ==> Affine(v, o.scale, o.bias) == ApplyAll(o, v)
    ensures !o.active ==> ApplyAll(o, v) == v
  {
  }

  /** The sum the register keeps up to date without visiting the vector. */
  lemma {:induction false} SumReflected(v: Vec, mean: Amp)
    ensures Sum(InvertWith(v, mean)) ==
            Amp(2.0 * mean.re * (|v| as real) - Sum(v).re, 2.0 * mean.im * (|v| as real) - Sum(v).im)
  {
    if v != [] {
      var l := |v| - 1;
      assert InvertWith(v, mean)[..l] == InvertWith(v[..l], mean);
      SumReflected(v[..l], mean);
      StepReflected(mean.re, l as real);
      StepReflected(mean.im, l as real);
    }
  }

  lemma StepReflected(x: real, n: real)
    ensures 2.0 * x * (n + 1.0) == 2.0 * x * n + x * 2.0
  {
  }

  lemma SumFlipped(v: Vec, s: nat)
    requires s < |v|
    ensures Sum(PhaseFlip(v, s)) == Amp(Sum(v).re - 2.0 * v[s].re, Sum(v).im - 2.0 * v[s].im)
  {
    SumUpdate(v, s, Neg(v[s]));
  }

  // ------------------------------------------- overlay, sum and store together

  /**
   * The logical vector of a register with the given overlay and cached sum over a stored vector; `None` if the
   * overlay does not scale by +1 or -1, or the cached sum is not the sum of the logical amplitudes.
   */
  ghost function Image(o: Overlay, sum: Option<Amp>, stored: Vec): (w: Option<Vec>)
    ensures w.Some? ==> |w.value| == |stored|
  {
    if IsReflection(o) && (sum.Some? ==> sum.value == Sum(ApplyAll(o, stored))) then Some(ApplyAll(o, stored)) else None
  }

  /** The cached sum after reflecting `n` amplitudes about `mean`. */
  function ReflectedSum(sum: Option<Amp>, mean: Amp, n: nat): Option<Amp> {
    if sum.None? then None
    else Some(Amp(2.0 * mean.re * (n as real) - sum.value.re, 2.0 * mean.im * (n as real) - sum.value.im))
  }

  /** The cached sum after flipping the sign of one logical amplitude. */
  function FlippedSum(sum: Option<Amp>, logical: Amp): Option<Amp> {
    if sum.None? then None
    else Some(Amp(sum.value.re - 2.0 * logical.re, sum.value.im - 2.0 * logical.im))
  }

  lemma ImageFresh(v: Vec)
    ensures Image(IDENTITY, None, v) == Some(v)
  {
    FlushStores(IDENTITY, v);
  }

  lemma ImageInactive(o: Overlay, sum: Option<Amp>, v: Vec)
    requires Image(o, sum, v).Some? && !o.active
    ensures Image(o, sum, v) == Some(v) && o == IDENTITY
  {
    FlushStores(IDENTITY, v);
  }

  lemma ImageSummed(o: Overlay, sum: Option<Amp>, v: Vec)
    requires Image(o, sum, v).Some?
    ensures Image(o, Some(Sum(Image(o, sum, v).value)), v) == Image(o, sum, v)
    ensures sum.Some? ==> sum.value == Sum(Image(o, sum, v).value)
  {
  }

  lemma ImageAt(o: Overlay, sum: Option<Amp>, v: Vec, s: nat)
    requires Image(o, sum, v).Some? && s < |v|
    ensures Image(o, sum, v).value[s] == ApplyOverlay(o, v[s])
  {
  }

  /** Once the store holds what the overlay showed, the identity overlay shows the same. */
  lemma ImageFlushed(o: Overlay, sum: Option<Amp>, v: Vec)
    requires Image(o, sum, v).Some?
    ensures Image(IDENTITY, sum, ApplyAll(o, v)) == Image(o, sum, v) == Some(ApplyAll(o, v))
  {
    FlushStores(IDENTITY, ApplyAll(o, v));
  }

  /** `setAmplitude` under an overlay. */
  lemma ImageSet(o: Overlay, sum: Option<Amp>, v: Vec, s: nat, a: Amp)
    requires Image(o, sum, v).Some? && s < |v|
    ensures RemoveOverlay(o, a).Some?
    ensures Image(o, None, v[s := RemoveOverlay(o, a).value]) == Some(Image(o, sum, v).value[s := a])
  {
    ApplyAllUpdate(o, v, s, a);
  }

  /** The basis-state phase flip, on the store or under an overlay, with the sum adjusted. */
  lemma ImageFlip(o: Overlay, sum: Option<Amp>, v: Vec, s: nat)
    requires Image(o, sum, v).Some? && s < |v|
    ensures var w := Image(o, sum, v).value;
            && RemoveOverlay(o, Neg(w[s])).Some?
            && Image(o, FlippedSum(sum, w[s]), v[s := RemoveOverlay(o, Neg(w[s])).value]) == Some(PhaseFlip(w, s))
            && (!o.active ==> v[s := RemoveOverlay(o, Neg(w[s])).value] == PhaseFlip(v, s))
  {
    hide Mul, Add, Sub;
    var w := Image(o, sum, v).value;
    ApplyAllUpdate(o, v, s, Neg(w[s]));
    SumFlipped(w, s);
  }

  /** Reflecting lazily. */
  lemma ImageReflect(o: Overlay, sum: Option<Amp>, v: Vec, mean: Amp)
    requires Image(o, sum, v).Some?
    ensures Image(Reflected(o, mean), ReflectedSum(sum, mean, |v|), v) == Some(InvertWith(Image(o, sum, v).value, mean))
  {
    hide ApplyAll, InvertWith, Reflected, Mul, Add, Sub, Scale, Neg;
    ReflectAll(o, v, mean);
    SumReflected(ApplyAll(o, v), mean);
  }

  /** Reflecting in the store. */
  lemma ImageReflectStored(sum: Option<Amp>, v: Vec, mean: Amp)
    requires Image(IDENTITY, sum, v).Some?
    ensures Image(IDENTITY, ReflectedSum(sum, mean, |v|), InvertWith(v, mean)) == Some(InvertWith(v, mean))
  {
    FlushStores(IDENTITY, v);
    FlushStores(IDENTITY, InvertWith(v, mean));
    SumReflected(v, mean);
  }
}
