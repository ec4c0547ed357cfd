/** Complex amplitudes over exact reals, and sums over state vectors. */
module Amplitudes {

  datatype Amp = Amp(re: real, im: real)

  /** A state vector: one amplitude per basis state. */
  type Vec = seq<Amp>

  const ZERO := Amp(0.0, 0.0)
  const ONE := Amp(1.0, 0.0)

  function Add(a: Amp, b: Amp): Amp { Amp(a.re + b.re, a.im + b.im) }

  function Sub(a: Amp, b: Amp): Amp { Amp(a.re - b.re, a.im - b.im) }

  function Neg(a: Amp): Amp { Amp(-a.re, -a.im) }

  function Scale(a: Amp, r: real): Amp { Amp(a.re * r, a.im * r) }

  function Mul(a: Amp, b: Amp): Amp {
    Amp(a.re * b.re - a.im * b.im, a.re * b.im + a.im * b.re)
  }

  function NormSq(a: Amp): real { a.re * a.re + a.im * a.im }

  function Sq(x: real): real { x * x }

  function Pow(a: Amp, e: nat): Amp {
    if e == 0 then ONE else Mul(a, Pow(a, e - 1))
  }

  function Sum(v: Vec): Amp {
    if v == [] then ZERO else Add(Sum(v[..|v| - 1]), v[|v| - 1])
  }

  /** Total probability mass of a vector. */
  function Prob(v: Vec): real {
    if v == [] then 0.0 else Prob(v[..|v| - 1]) + NormSq(v[|v| - 1])
  }

  // ---------------------------------------------------------------- algebra

  lemma MulAssoc(a: Amp, b: Amp, c: Amp)
    ensures Mul(Mul(a, b), c) == Mul(a, Mul(b, c))
  {
  }

  lemma MulComm(a: Amp, b: Amp)
    ensures Mul(a, b) == Mul(b, a)
  {
  }

  lemma MulAdd(a: Amp, b: Amp, c: Amp)
    ensures Mul(a, Add(b, c)) == Add(Mul(a, b), Mul(a, c))
    ensures Mul(Add(b, c), a) == Add(Mul(b, a), Mul(c, a))
  {
  }

  lemma AddZero(a: Amp)
    ensures Add(a, ZERO) == a == Add(ZERO, a)
  {
  }

  lemma MulUnit(a: Amp)
    ensures Mul(ONE, a) == a == Mul(a, ONE)
    ensures Mul(ZERO, a) == ZERO == Mul(a, ZERO)
  {
  }

  lemma NormMul(a: Amp, b: Amp)
    ensures NormSq(Mul(a, b)) == NormSq(a) * NormSq(b)
  {
    var p, q, r, s := a.re, a.im, b.re, b.im;
    assert (p * r - q * s) * (p * r - q * s) == p * r * p * r - 2.0 * (p * r * q * s) + q * s * q * s;
    assert (p * s + q * r) * (p * s + q * r) == p * s * p * s + 2.0 * (p * r * q * s) + q * r * q * r;
  }

  lemma ScaleNorm(a: Amp, r: real)
    ensures NormSq(Scale(a, r)) == r * r * NormSq(a)
  {
    assert (a.re * r) * (a.re * r) == r * r * (a.re * a.re);
    assert (a.im * r) * (a.im * r) == r * r * (a.im * a.im);
  }

  lemma ProductSign(x: real, y: real)
    requires x >= 0.0 && y >= 0.0
    ensures x * y >= 0.0
  {
  }

  lemma {:induction false} PowAdd(a: Amp, d: nat, e: nat)
    ensures Pow(a, d + e) == Mul(Pow(a, d), Pow(a, e))
  {
    if d == 0 {
      MulUnit(Pow(a, e));
    } else {
      PowAdd(a, d - 1, e);
      MulAssoc(a, Pow(a, d - 1), Pow(a, e));
    }
  }

  lemma {:induction false} PowMul(a: Amp, d: nat, e: nat)
    ensures Pow(a, d * e) == Pow(Pow(a, d), e)
  {
    hide Mul;
    if e == 0 {
      assert d * e == 0;
    } else {
      PowMul(a, d, e - 1);
      assert d * e == d + d * (e - 1);
      PowAdd(a, d, d * (e - 1));
    }
  }

  lemma {:induction false} PowIdempotent(a: Amp, e: nat)
    requires Mul(a, a) == a && Mul(a, ONE) == a
    ensures e > 0 ==> Pow(a, e) == a
  {
    if e > 1 {
      PowIdempotent(a, e - 1);
    }
  }

  lemma PowOne(e: nat)
    ensures Pow(ONE, e) == ONE
  {
    MulUnit(ONE);
    PowIdempotent(ONE, e);
  }

  // ------------------------------------------------------- sums over vectors

  lemma SumSnoc(v: Vec, i: nat)
    requires i < |v|
    ensures Sum(v[..i + 1]) == Add(Sum(v[..i]), v[i])
    ensures Prob(v[..i + 1]) == Prob(v[..i]) + NormSq(v[i])
  {
    assert v[..i + 1][..i] == v[..i];
  }

  lemma EmptySum(v: Vec)
    ensures Sum(v[..0]) == ZERO && Prob(v[..0]) == 0.0
  {
  }

  lemma {:induction false} SumUpdate(v: Vec, i: nat, a: Amp)
    requires i < |v|
    ensures Sum(v[i := a]) == Add(Sum(v), Sub(a, v[i]))
    ensures Prob(v[i := a]) == Prob(v) - NormSq(v[i]) + NormSq(a)
  {
    var l := |v| - 1;
    if i == l {
      assert v[i := a][..l] == v[..l];
    } else {
      assert v[i := a][..l] == v[..l][i := a];
      SumUpdate(v[..l], i, a);
    }
  }

  lemma {:induction false} ProbNonNeg(v: Vec)
    ensures Prob(v) >= 0.0
  {
    if v != [] {
      ProbNonNeg(v[..|v| - 1]);
    }
  }
}
