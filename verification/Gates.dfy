/** Gate matrices: products, rows applied to amplitude blocks, and the built-in gates. */
module Gates {
  import opened Amplitudes

  datatype QuantumGate = QuantumGate(rows: seq<Vec>) {
    ghost predicate Square() {
      forall i | 0 <= i < |rows| :: |rows[i]| == |rows|
    }
  }

  /** A matrix row times a block of amplitudes. */
  function Dot(row: Vec, xs: Vec): Amp
    requires |row| == |xs|
  {
    if row == [] then ZERO
    else Add(Dot(row[..|row| - 1], xs[..|row| - 1]), Mul(row[|row| - 1], xs[|row| - 1]))
  }

  /** A matrix times a block of amplitudes. */
  function MatVec(g: QuantumGate, xs: Vec): (ys: Vec)
    requires g.Square() && |xs| == |g.rows|
    ensures |ys| == |xs|
  {
    seq(|g.rows|, i requires 0 <= i < |g.rows| => Dot(g.rows[i], xs))
  }

  lemma DotSnoc(row: Vec, xs: Vec, i: nat)
    requires |row| == |xs| && i < |row|
    ensures Dot(row[..i + 1], xs[..i + 1]) == Add(Dot(row[..i], xs[..i]), Mul(row[i], xs[i]))
  {
    assert row[..i + 1][..i] == row[..i];
    assert xs[..i + 1][..i] == xs[..i];
  }

  lemma {:induction false} DotZero(row: Vec, xs: Vec)
    requires |row| == |xs| && forall i | 0 <= i < |xs| :: xs[i] == ZERO
    ensures Dot(row, xs) == ZERO
  {
    hide Mul;
    if row != [] {
      DotZero(row[..|row| - 1], xs[..|row| - 1]);
      MulUnit(row[|row| - 1]);
    }
  }

  lemma DotTwo(row: Vec, xs: Vec)
    requires |row| == |xs| == 2
    ensures Dot(row, xs) == Add(Mul(row[0], xs[0]), Mul(row[1], xs[1]))
  {
    hide Mul;
    assert Dot(row[..1], xs[..1]) == Add(Dot([], []), Mul(row[0], xs[0])) by {
      assert row[..1][..0] == [] && xs[..1][..0] == [];
    }
  }

  // ------------------------------------------------------------------ product

  function AddRows(a: Vec, b: Vec): (c: Vec)
    requires |a| == |b|
    ensures |c| == |a|
  {
    seq(|a|, j requires 0 <= j < |a| => Add(a[j], b[j]))
  }

  function ScaleRow(x: Amp, b: Vec): (c: Vec)
    ensures |c| == |b|
  {
    seq(|b|, j requires 0 <= j < |b| => Mul(x, b[j]))
  }

  function ZeroRow(d: nat): Vec { seq(d, _ => ZERO) }

  /** The combination of the first `k` rows of `g` with the first `k` weights: a row of a product. */
  function CombineRows(weights: Vec, g: QuantumGate, k: nat): (c: Vec)
    requires g.Square() && k <= |weights| == |g.rows|
    ensures |c| == |g.rows|
  {
    if k == 0 then ZeroRow(|g.rows|)
    else AddRows(CombineRows(weights, g, k - 1), ScaleRow(weights[k - 1], g.rows[k - 1]))
  }

  lemma {:induction false} DotZeroRow(row: Vec, xs: Vec)
    requires |row| == |xs| && forall i | 0 <= i < |row| :: row[i] == ZERO
    ensures Dot(row, xs) == ZERO
  {
    hide Mul;
    if row != [] {
      DotZeroRow(row[..|row| - 1], xs[..|row| - 1]);
      MulUnit(xs[|row| - 1]);
    }
  }

  /** One more column of a combined row. */
  lemma LinearStep(d: Amp, e: Amp, a: Amp, x: Amp, b: Amp, y: Amp)
    ensures Add(Add(d, Mul(x, e)), Mul(Add(a, Mul(x, b)), y)) == Add(Add(d, Mul(a, y)), Mul(x, Add(e, Mul(b, y))))
  {
    MulAdd(y, a, Mul(x, b));
    MulAssoc(x, b, y);
    MulAdd(x, e, Mul(b, y));
    hide Mul;
  }

  lemma {:induction false} DotLinear(a: Vec, x: Amp, b: Vec, xs: Vec)
    requires |a| == |b| == |xs|
    ensures Dot(AddRows(a, ScaleRow(x, b)), xs) == Add(Dot(a, xs), Mul(x, Dot(b, xs)))
  {
    hide Mul, Add;
    var c := AddRows(a, ScaleRow(x, b));
    if a == [] {
      MulUnit(x);
      AddZero(ZERO);
    } else {
      var l := |a| - 1;
      assert c[..l] == AddRows(a[..l], ScaleRow(x, b[..l]));
      DotLinear(a[..l], x, b[..l], xs[..l]);
      LinearStep(Dot(a[..l], xs[..l]), Dot(b[..l], xs[..l]), a[l], x, b[l], xs[l]);
    }
  }

  /** Combining rows and then taking the dot product is taking dot products and then combining. */
  lemma {:induction false} CombineThenDot(weights: Vec, g: QuantumGate, xs: Vec, k: nat)
    requires g.Square() && k <= |weights| == |g.rows| == |xs|
    ensures Dot(CombineRows(weights, g, k), xs) == Dot(weights[..k], MatVec(g, xs)[..k])
  {
    hide Mul, Add;
    if k == 0 {
      DotZeroRow(ZeroRow(|g.rows|), xs);
    } else {
      CombineThenDot(weights, g, xs, k - 1);
      DotLinear(CombineRows(weights, g, k - 1), weights[k - 1], g.rows[k - 1], xs);
      DotSnoc(weights, MatVec(g, xs), k - 1);
    }
  }

  function Product(a: QuantumGate, b: QuantumGate): (c: QuantumGate)
    requires a.Square() && b.Square() && |a.rows| == |b.rows|
    ensures c.Square() && |c.rows| == |a.rows|
  {
    QuantumGate(seq(|a.rows|, i requires 0 <= i < |a.rows| => CombineRows(a.rows[i], b, |a.rows|)))
  }

  /** The matrix product composes the maps: (A*B) x = A (B x). */
  lemma ProductComposes(a: QuantumGate, b: QuantumGate, xs: Vec)
    requires a.Square() && b.Square() && |a.rows| == |b.rows| == |xs|
    ensures MatVec(Product(a, b), xs) == MatVec(a, MatVec(b, xs))
  {
    var d := |xs|;
    forall i | 0 <= i < d
      ensures MatVec(Product(a, b), xs)[i] == MatVec(a, MatVec(b, xs))[i]
    {
      CombineThenDot(a.rows[i], b, xs, d);
      assert a.rows[i][..d] == a.rows[i] && MatVec(b, xs)[..d] == MatVec(b, xs);
    }
  }

  datatype ProductResult = DimensionMismatch | Ok(gate: QuantumGate)

  /** `operator*`: the row-by-row accumulating triple loop. */
  method Multiply(a: QuantumGate, b: QuantumGate) returns (r: ProductResult)
    requires a.Square() && b.Square()
    ensures |a.rows| != |b.rows| ==> r == DimensionMismatch
    ensures |a.rows| == |b.rows| ==> r == Ok(Product(a, b))
  {
    var d := |a.rows|;
    if |b.rows| != d { return DimensionMismatch; }
    var rows: seq<Vec> := [];
    var i := 0;
    while i < d
      invariant i <= d && |rows| == i
      invariant forall r | 0 <= r < i :: rows[r] == CombineRows(a.rows[r], b, d)
    {
      var row := ZeroRow(d);
      var k := 0;
      while k < d
        invariant k <= d && row == CombineRows(a.rows[i], b, k)
      {
        var left, rightRow, before := a.rows[i][k], b.rows[k], row;
        var j := 0;
        while j < d
          invariant j <= d && |row| == d
          invariant forall c | 0 <= c < d ::
                      row[c] == if c < j then Add(before[c], Mul(left, rightRow[c])) else before[c]
        {
          row := row[j := Add(row[j], Mul(left, rightRow[j]))];
          j := j + 1;
        }
        assert row == AddRows(before, ScaleRow(left, rightRow));
        k := k + 1;
      }
      rows := rows + [row];
      i := i + 1;
    }
    r := Ok(QuantumGate(rows));
    assert rows == Product(a, b).rows;
  }

  // ----------------------------------------------------------- built-in gates

  /** `g[i][j].real = x` for the listed entries of a zero gate. */
  function Real(x: real): Amp { Amp(x, 0.0) }

  function HadamardGate(h: real): QuantumGate {
    QuantumGate([[Real(h), Real(h)], [Real(h), Real(-h)]])
  }

  const PAULI_X := QuantumGate([[ZERO, ONE], [ONE, ZERO]])

  function ControlledPhaseGate(phase: Amp): QuantumGate {
    QuantumGate([[ONE, ZERO, ZERO, ZERO], [ZERO, ONE, ZERO, ZERO], [ZERO, ZERO, ONE, ZERO], [ZERO, ZERO, ZERO, phase]])
  }

  const CONTROLLED_NOT :=
    QuantumGate([[ONE, ZERO, ZERO, ZERO], [ZERO, ONE, ZERO, ZERO], [ZERO, ZERO, ZERO, ONE], [ZERO, ZERO, ONE, ZERO]])

  const SWAP :=
    QuantumGate([[ONE, ZERO, ZERO, ZERO], [ZERO, ZERO, ONE, ZERO], [ZERO, ONE, ZERO, ZERO], [ZERO, ZERO, ZERO, ONE]])
}
