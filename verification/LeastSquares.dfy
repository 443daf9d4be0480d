/** Sums of squares and the normal equations: a solution of the normal equations is a
    global minimum, and they are solvable whenever the columns are independent. */
module LeastSquares {
  import opened RealArithmetic
  import opened LinearAlgebra

  function Residuals(rows: Matrix, y: Vec, x: Vec): (r: Vec)
    requires Rectangular(rows, |x|) && |rows| == |y|
    ensures |r| == |rows| && forall i :: 0 <= i < |rows| ==> r[i] == y[i] - Dot(rows[i], x)
  {
    seq(|rows|, i requires 0 <= i < |rows| => y[i] - Dot(rows[i], x))
  }

  function SumOfSquaresTo(r: Vec, k: nat): real
    requires k <= |r|
  {
    if k == 0 then 0.0 else SumOfSquaresTo(r, k - 1) + Times(r[k - 1], r[k - 1])
  }

  function SquaredError(rows: Matrix, y: Vec, x: Vec): real
    requires Rectangular(rows, |x|) && |rows| == |y|
  {
    SumOfSquaresTo(Residuals(rows, y, x), |rows|)
  }

  /** Residuals of x against column j. */
  ghost function CorrelationTo(rows: Matrix, y: Vec, x: Vec, j: nat, k: nat): real
    requires Rectangular(rows, |x|) && k <= |rows| && k <= |y| && j < |x|
  {
    if k == 0 then 0.0
    else CorrelationTo(rows, y, x, j, k - 1) + Times(rows[k - 1][j], y[k - 1] - Dot(rows[k - 1], x))
  }

  /** Residuals of x against the direction d. */
  ghost function CrossTo(rows: Matrix, y: Vec, x: Vec, d: Vec, k: nat): real
    requires Rectangular(rows, |x|) && |d| == |x| && k <= |rows| && k <= |y|
  {
    if k == 0 then 0.0
    else CrossTo(rows, y, x, d, k - 1) + Times(Dot(rows[k - 1], d), y[k - 1] - Dot(rows[k - 1], x))
  }

  ghost function EnergyTo(rows: Matrix, d: Vec, k: nat): (e: real)
    requires Rectangular(rows, |d|) && k <= |rows|
    ensures e >= 0.0
  {
    if k == 0 then 0.0 else EnergyTo(rows, d, k - 1) + Times(Dot(rows[k - 1], d), Dot(rows[k - 1], d))
  }

  /** The normal equations: the residual is orthogonal to every column. */
  ghost predicate Optimal(rows: Matrix, y: Vec, z: Vec) {
    Rectangular(rows, |z|) && |rows| == |y|
    && forall j :: 0 <= j < |z| ==> CorrelationTo(rows, y, z, j, |rows|) == 0.0
  }

  ghost function Correlations(rows: Matrix, y: Vec, x: Vec, k: nat): (c: Vec)
    requires Rectangular(rows, |x|) && k <= |rows| && k <= |y|
    ensures |c| == |x| && forall j :: 0 <= j < |x| ==> c[j] == CorrelationTo(rows, y, x, j, k)
  {
    seq(|x|, j requires 0 <= j < |x| => CorrelationTo(rows, y, x, j, k))
  }

  lemma CorrelationsStep(rows: Matrix, y: Vec, x: Vec, k: nat)
    requires Rectangular(rows, |x|) && 0 < k <= |rows| && k <= |y|
    ensures Correlations(rows, y, x, k)
      == Subtract(Correlations(rows, y, x, k - 1), -(y[k - 1] - Dot(rows[k - 1], x)), rows[k - 1])
  {
    hide DotTo;
    forall j | 0 <= j < |x|
      ensures Correlations(rows, y, x, k)[j]
        == Subtract(Correlations(rows, y, x, k - 1), -(y[k - 1] - Dot(rows[k - 1], x)), rows[k - 1])[j]
    {
      NegativeFactor(y[k - 1] - Dot(rows[k - 1], x), rows[k - 1][j]);
    }
  }

  lemma {:induction false} CrossIsDot(rows: Matrix, y: Vec, x: Vec, d: Vec, k: nat)
    requires Rectangular(rows, |x|) && |d| == |x| && k <= |rows| && k <= |y|
    ensures CrossTo(rows, y, x, d, k) == Dot(d, Correlations(rows, y, x, k))
  {
    hide Times, DotTo, CorrelationTo;
    if k == 0 {
      CorrelationsEmpty(rows, y, x);
      DotToZero(d, Correlations(rows, y, x, 0), |d|);
    } else {
      CrossIsDot(rows, y, x, d, k - 1);
      var e := y[k - 1] - Dot(rows[k - 1], x);
      CorrelationsStep(rows, y, x, k);
      DotSubtractRight(d, Correlations(rows, y, x, k - 1), -e, rows[k - 1]);
      DotToCommutes(d, rows[k - 1], |d|);
      TimesLaws(Dot(rows[k - 1], d), e, 0.0);
      TimesLaws(e, Dot(rows[k - 1], d), 0.0);
    }
  }

  lemma CorrelationsEmpty(rows: Matrix, y: Vec, x: Vec)
    requires Rectangular(rows, |x|)
    ensures IsZero(Correlations(rows, y, x, 0))
  {
  }

  /** The error along a line through z is a quadratic in the step length. */
  lemma {:induction false} ErrorAlongLine(rows: Matrix, y: Vec, z: Vec, f: real, d: Vec, k: nat)
    requires Rectangular(rows, |z|) && |d| == |z| && |rows| == |y| && k <= |rows|
    ensures SumOfSquaresTo(Residuals(rows, y, Subtract(z, f, d)), k)
      == SumOfSquaresTo(Residuals(rows, y, z), k)
         + 2.0 * Times(f, CrossTo(rows, y, z, d, k)) + Times(Times(f, f), EnergyTo(rows, d, k))
  {
    hide Times, DotTo;
    if k == 0 {
      TimesZero(f);
      TimesZero(Times(f, f));
    } else {
      ErrorAlongLine(rows, y, z, f, d, k - 1);
      DotSubtractRight(rows[k - 1], z, f, d);
      var e, g := y[k - 1] - Dot(rows[k - 1], z), Dot(rows[k - 1], d);
      assert Residuals(rows, y, Subtract(z, f, d))[k - 1] == e + Times(f, g);
      SquareExpands(e, f, g);
      TimesLaws(f, CrossTo(rows, y, z, d, k - 1), Times(g, e));
      TimesLaws(Times(f, f), EnergyTo(rows, d, k - 1), Times(g, g));
    }
  }

  lemma SquareExpands(e: real, f: real, g: real)
    ensures Times(e + Times(f, g), e + Times(f, g))
      == Times(e, e) + 2.0 * Times(f, Times(g, e)) + Times(Times(f, f), Times(g, g))
  {
    var h := f * g;
    assert (e + h) * (e + h) == e * e + 2.0 * (h * e) + h * h;
    assert h * e == f * (g * e);
    assert h * h == (f * f) * (g * g);
  }

  /** From an optimal z the error grows with the square of the step, in every direction. */
  lemma OptimalErrorGrowth(rows: Matrix, y: Vec, z: Vec, f: real, d: Vec)
    requires Optimal(rows, y, z) && |d| == |z|
    ensures SquaredError(rows, y, Subtract(z, f, d))
      == SquaredError(rows, y, z) + Times(Times(f, f), EnergyTo(rows, d, |rows|))
  {
    hide Times, DotTo, SumOfSquaresTo, CrossTo, EnergyTo, CorrelationTo;
    CrossIsDot(rows, y, z, d, |rows|);
    DotToZero(d, Correlations(rows, y, z, |rows|), |d|);
    TimesZero(f);
    ErrorAlongLine(rows, y, z, f, d, |rows|);
  }

  // ----- The Gram matrix -----

  function ProductTo(rows: Matrix, a: nat, b: nat, k: nat, width: nat): real
    requires Rectangular(rows, width) && a < width && b < width && k <= |rows|
  {
    if k == 0 then 0.0 else ProductTo(rows, a, b, k - 1, width) + Times(rows[k - 1][a], rows[k - 1][b])
  }

  function GramRow(rows: Matrix, a: nat, k: nat, width: nat): (g: Vec)
    requires Rectangular(rows, width) && a < width && k <= |rows|
    ensures |g| == width && forall b :: 0 <= b < width ==> g[b] == ProductTo(rows, a, b, k, width)
  {
    seq(width, b requires 0 <= b < width => ProductTo(rows, a, b, k, width))
  }

  function Gram(rows: Matrix, width: nat): (g: Matrix)
    requires Rectangular(rows, width)
    ensures |g| == width && Rectangular(g, width)
    ensures forall a :: 0 <= a < width ==> g[a] == GramRow(rows, a, |rows|, width)
  {
    seq(width, a requires 0 <= a < width => GramRow(rows, a, |rows|, width))
  }

  function MomentTo(rows: Matrix, y: Vec, a: nat, k: nat, width: nat): real
    requires Rectangular(rows, width) && a < width && k <= |rows| && k <= |y|
  {
    if k == 0 then 0.0 else MomentTo(rows, y, a, k - 1, width) + Times(rows[k - 1][a], y[k - 1])
  }

  function Moments(rows: Matrix, y: Vec, width: nat): (m: Vec)
    requires Rectangular(rows, width) && |rows| == |y|
    ensures |m| == width && forall a :: 0 <= a < width ==> m[a] == MomentTo(rows, y, a, |rows|, width)
  {
    seq(width, a requires 0 <= a < width => MomentTo(rows, y, a, |rows|, width))
  }

  lemma GramRowStep(rows: Matrix, a: nat, k: nat, width: nat)
    requires Rectangular(rows, width) && a < width && 0 < k <= |rows|
    ensures GramRow(rows, a, k, width) == Subtract(GramRow(rows, a, k - 1, width), -rows[k - 1][a], rows[k - 1])
  {
    forall b | 0 <= b < width
      ensures GramRow(rows, a, k, width)[b]
        == Subtract(GramRow(rows, a, k - 1, width), -rows[k - 1][a], rows[k - 1])[b]
    {
      NegativeFactor(rows[k - 1][a], rows[k - 1][b]);
    }
  }

  lemma {:induction false} GramCorrelation(rows: Matrix, y: Vec, z: Vec, a: nat, k: nat)
    requires Rectangular(rows, |z|) && a < |z| && k <= |rows| && k <= |y|
    ensures CorrelationTo(rows, y, z, a, k)
      == MomentTo(rows, y, a, k, |z|) - Dot(GramRow(rows, a, k, |z|), z)
  {
    hide Times, DotTo, ProductTo;
    if k == 0 {
      GramRowEmpty(rows, a, |z|);
      DotToZero(GramRow(rows, a, k, |z|), z, |z|);
    } else {
      GramCorrelation(rows, y, z, a, k - 1);
      var f, row := rows[k - 1][a], rows[k - 1];
      GramRowStep(rows, a, k, |z|);
      DotToSubtract(GramRow(rows, a, k - 1, |z|), -f, row, z, |z|);
      TimesLaws(f, y[k - 1], Dot(row, z));
      TimesLaws(f, Dot(row, z), 0.0);
    }
  }

  lemma GramRowEmpty(rows: Matrix, a: nat, width: nat)
    requires Rectangular(rows, width) && a < width
    ensures IsZero(GramRow(rows, a, 0, width))
  {
  }

  /** Solving Gram z = moments is exactly solving the normal equations. */
  lemma GramSolvesNormalEquations(rows: Matrix, y: Vec, z: Vec)
    requires Rectangular(rows, |z|) && |rows| == |y|
    requires forall a :: 0 <= a < |z| ==> Dot(Gram(rows, |z|)[a], z) == Moments(rows, y, |z|)[a]
    ensures Optimal(rows, y, z)
  {
    forall a | 0 <= a < |z| ensures CorrelationTo(rows, y, z, a, |rows|) == 0.0 {
      GramCorrelation(rows, y, z, a, |rows|);
      assert Gram(rows, |z|)[a] == GramRow(rows, a, |rows|, |z|);
    }
  }

  lemma {:induction false} MomentOfZero(rows: Matrix, y: Vec, a: nat, k: nat, width: nat)
    requires Rectangular(rows, width) && a < width && k <= |rows| && k <= |y| && IsZero(y)
    ensures MomentTo(rows, y, a, k, width) == 0.0
  {
    hide Times;
    if k > 0 {
      MomentOfZero(rows, y, a, k - 1, width);
      TimesZero(rows[k - 1][a]);
    }
  }

  lemma {:induction false} CrossOfZeroTarget(rows: Matrix, y: Vec, v: Vec, k: nat)
    requires Rectangular(rows, |v|) && k <= |rows| && k <= |y| && IsZero(y)
    ensures CrossTo(rows, y, v, v, k) == -EnergyTo(rows, v, k)
  {
    hide Times, DotTo;
    if k > 0 {
      CrossOfZeroTarget(rows, y, v, k - 1);
      var g := Dot(rows[k - 1], v);
      TimesLaws(g, 0.0, g);
      TimesZero(g);
    }
  }

  lemma {:induction false} NoEnergyNoImage(rows: Matrix, v: Vec, k: nat)
    requires Rectangular(rows, |v|) && k <= |rows| && EnergyTo(rows, v, k) == 0.0
    ensures forall r :: 0 <= r < k ==> Dot(rows[r], v) == 0.0
  {
    hide DotTo;
    if k > 0 {
      var g := Dot(rows[k - 1], v);
      SquareNonNegative(g);
      ZeroProduct(g, g);
      NoEnergyNoImage(rows, v, k - 1);
    }
  }

  /** The Gram matrix of independent columns is never singular. */
  lemma GramIndependent(rows: Matrix, width: nat)
    requires Rectangular(rows, width) && IndependentColumns(rows, width)
    ensures IndependentColumns(Gram(rows, width), width)
  {
    var g := Gram(rows, width);
    forall v: Vec | |v| == width && Annihilates(g, v) ensures IsZero(v) {
      var y := Zeros(|rows|);
      forall a | 0 <= a < width ensures CorrelationTo(rows, y, v, a, |rows|) == 0.0 {
        GramCorrelation(rows, y, v, a, |rows|);
        MomentOfZero(rows, y, a, |rows|, width);
        assert Dot(g[a], v) == 0.0;
      }
      CrossIsDot(rows, y, v, v, |rows|);
      DotToZero(v, Correlations(rows, y, v, |rows|), width);
      CrossOfZeroTarget(rows, y, v, |rows|);
      NoEnergyNoImage(rows, v, |rows|);
      assert Annihilates(rows, v);
    }
  }
}
