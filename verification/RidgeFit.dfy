/** The box-constrained ridge regression of the gas model: every coordinate update stays in
    the passport box and never raises the ridge objective, and every sweep lowers it until the
    minimum over the box is reached. */
module RidgeFit {
  import opened Options
  import opened RealArithmetic
  import opened LinearAlgebra
  import opened LeastSquares

  type Limit = Option<real>

  /** What gas._passport_bounds leaves of the two passport figures. */
  ghost predicate ValidBox(low: Limit, high: Limit) {
    (low.Some? ==> low.value >= 0.0) && (high.Some? ==> high.value > 0.0)
    && (low.Some? && high.Some? ==> low.value <= high.value)
  }

  ghost predicate InBox(rate: real, low: Limit, high: Limit) {
    rate >= 0.0 && (low.Some? ==> low.value <= rate) && (high.Some? ==> rate <= high.value)
  }

  ghost predicate AllInBox(rates: Vec, low: Limit, high: Limit) {
    forall i :: 0 <= i < |rates| ==> InBox(rates[i], low, high)
  }

  /** gas._clamp: the nearest point of the box. */
  function Clamp(rate: real, low: Limit, high: Limit): (r: real)
    requires ValidBox(low, high)
    ensures InBox(r, low, high)
    ensures forall x: real :: InBox(x, low, high) ==> Abs(r - rate) <= Abs(x - rate)
  {
    var atLeast := if low.Some? then Max(low.value, rate) else rate;
    var atMost := if high.Some? then Min(high.value, atLeast) else atLeast;
    Max(0.0, atMost)
  }

  /** Squared distance from the prior. */
  function DistanceTo(rates: Vec, prior: Vec, k: nat): real
    requires k <= |rates| && k <= |prior|
  {
    if k == 0 then 0.0
    else DistanceTo(rates, prior, k - 1) + Times(rates[k - 1] - prior[k - 1], rates[k - 1] - prior[k - 1])
  }

  /** What the fit minimises: squared error plus a pull toward the prior. */
  function Objective(features: Matrix, targets: Vec, prior: Vec, ridge: real, rates: Vec): real
    requires Rectangular(features, |rates|) && |features| == |targets| && |prior| == |rates|
  {
    SquaredError(features, targets, rates) + Times(ridge, DistanceTo(rates, prior, |rates|))
  }

  function Unit(n: nat, i: nat): (v: Vec)
    requires i < n
    ensures |v| == n && v[i] == 1.0 && forall j :: 0 <= j < n && j != i ==> v[j] == 0.0
  {
    Zeros(n)[i := 1.0]
  }

  lemma UnitDot(row: Vec, i: nat)
    requires i < |row|
    ensures Dot(row, Unit(|row|, i)) == row[i]
  {
    hide DotTo;
    DotToPicksOne(row, Unit(|row|, i), i, |row|);
    TimesZero(row[i]);
  }

  lemma {:induction false} UnitCross(rows: Matrix, y: Vec, x: Vec, i: nat, k: nat)
    requires Rectangular(rows, |x|) && i < |x| && k <= |rows| && k <= |y|
    ensures CrossTo(rows, y, x, Unit(|x|, i), k) == CorrelationTo(rows, y, x, i, k)
    ensures EnergyTo(rows, Unit(|x|, i), k) == ProductTo(rows, i, i, k, |x|)
  {
    hide Times, DotTo;
    if k > 0 {
      UnitCross(rows, y, x, i, k - 1);
      UnitDot(rows[k - 1], i);
    }
  }

  lemma CoordinateMove(x: Vec, i: nat, u: real)
    requires i < |x|
    ensures x[i := u] == Subtract(x[i := 0.0], -u, Unit(|x|, i))
  {
    var r := Subtract(x[i := 0.0], -u, Unit(|x|, i));
    forall j | 0 <= j < |x| ensures x[i := u][j] == r[j] {
      if j == i {
        NegativeFactor(u, 1.0);
      } else {
        ZeroFactor(-u, Unit(|x|, i)[j]);
      }
    }
  }

  /** The squared error as a quadratic in coordinate i. */
  lemma ErrorInCoordinate(rows: Matrix, y: Vec, x: Vec, i: nat, u: real)
    requires Rectangular(rows, |x|) && |rows| == |y| && i < |x|
    ensures SquaredError(rows, y, x[i := u])
      == SquaredError(rows, y, x[i := 0.0])
         - 2.0 * Times(u, CorrelationTo(rows, y, x[i := 0.0], i, |rows|))
         + Times(Times(u, u), ProductTo(rows, i, i, |rows|, |x|))
  {
    hide *;
    var z, d := x[i := 0.0], Unit(|x|, i);
    CoordinateMove(x, i, u);
    LineError(rows, y, z, -u, d);
    UnitCross(rows, y, z, i, |rows|);
    SignsCancel(u, CrossTo(rows, y, z, d, |rows|), EnergyTo(rows, d, |rows|));
  }

  lemma LineError(rows: Matrix, y: Vec, z: Vec, f: real, d: Vec)
    requires Rectangular(rows, |z|) && |d| == |z| && |rows| == |y|
    ensures SquaredError(rows, y, Subtract(z, f, d))
      == SquaredError(rows, y, z)
         + 2.0 * Times(f, CrossTo(rows, y, z, d, |rows|)) + Times(Times(f, f), EnergyTo(rows, d, |rows|))
  {
    hide Times, DotTo, SumOfSquaresTo, CrossTo, EnergyTo;
    ErrorAlongLine(rows, y, z, f, d, |rows|);
  }

  lemma SignsCancel(u: real, c: real, e: real)
    ensures Times(-u, c) == -Times(u, c) && Times(Times(-u, -u), e) == Times(Times(u, u), e)
  {
    NegativeFactor(u, c);
    NegativeFactors(u, u);
  }

  /** The distance as a quadratic in coordinate i. */
  lemma {:induction false} DistanceInCoordinate(x: Vec, prior: Vec, i: nat, u: real, k: nat)
    requires |x| == |prior| && i < |x| && k <= |x|
    ensures DistanceTo(x[i := u], prior, k)
      == DistanceTo(x[i := 0.0], prior, k) + (if i < k then Times(u, u) - 2.0 * Times(u, prior[i]) else 0.0)
  {
    if k > 0 {
      hide Times;
      DistanceInCoordinate(x, prior, i, u, k - 1);
      if i == k - 1 {
        ShiftedSquare(u, prior[i]);
      }
    }
  }

  lemma ShiftedSquare(u: real, p: real)
    ensures Times(u - p, u - p) == Times(0.0 - p, 0.0 - p) + Times(u, u) - 2.0 * Times(u, p)
  {
    assert (u - p) * (u - p) == u * u - 2.0 * (u * p) + p * p;
  }

  /** numerator and denominator of the coordinate update. */
  ghost function Pull(rows: Matrix, y: Vec, prior: Vec, ridge: real, x: Vec, i: nat): real
    requires Rectangular(rows, |x|) && |rows| == |y| && i < |x| == |prior|
  {
    Times(ridge, prior[i]) + CorrelationTo(rows, y, x[i := 0.0], i, |rows|)
  }

  ghost function Stiffness(rows: Matrix, ridge: real, i: nat, n: nat): real
    requires Rectangular(rows, n) && i < n
  {
    ProductTo(rows, i, i, |rows|, n) + ridge
  }

  lemma ObjectiveInCoordinate(rows: Matrix, y: Vec, prior: Vec, ridge: real, x: Vec, i: nat, u: real)
    requires Rectangular(rows, |x|) && |rows| == |y| && i < |x| == |prior|
    ensures Objective(rows, y, prior, ridge, x[i := u])
      == Objective(rows, y, prior, ridge, x[i := 0.0])
         - 2.0 * Times(u, Pull(rows, y, prior, ridge, x, i))
         + Times(Times(u, u), Stiffness(rows, ridge, i, |x|))
  {
    hide Times, SumOfSquaresTo, CorrelationTo, ProductTo, DistanceTo;
    ErrorInCoordinate(rows, y, x, i, u);
    DistanceInCoordinate(x, prior, i, u, |x|);
    var d0, c := DistanceTo(x[i := 0.0], prior, |x|), CorrelationTo(rows, y, x[i := 0.0], i, |rows|);
    RidgeExpands(ridge, d0, u, prior[i]);
    TimesLaws(u, Times(ridge, prior[i]), c);
    TimesLaws(Times(u, u), ProductTo(rows, i, i, |rows|, |x|), ridge);
  }

  lemma RidgeExpands(ridge: real, d0: real, u: real, p: real)
    ensures Times(ridge, d0 + (Times(u, u) - 2.0 * Times(u, p)))
      == Times(ridge, d0) + Times(Times(u, u), ridge) - 2.0 * Times(u, Times(ridge, p))
  {
    var q, r := u * u, u * p;
    assert ridge * (d0 + (q - 2.0 * r)) == ridge * d0 + ridge * q - 2.0 * (ridge * r);
    assert ridge * r == u * (ridge * p);
  }

  /** A point nearer to the vertex has the lower value on an upward parabola. */
  lemma NearerIsLower(o: real, n: real, k: real, c: real, u: real, w: real)
    requires k > 0.0 && n == c * k && Abs(u - c) <= Abs(w - c)
    ensures o - 2.0 * Times(u, n) + Times(Times(u, u), k) <= o - 2.0 * Times(w, n) + Times(Times(w, w), k)
  {
    var a, b := u - c, w - c;
    hide Times;
    SquareOrder(a, b);
    hide Abs;
    ProductMonotone(a * a, b * b, k);
    Vertex(n, k, c, u);
    Vertex(n, k, c, w);
  }

  lemma SquareOrder(a: real, b: real)
    requires Abs(a) <= Abs(b)
    ensures a * a <= b * b
  {
    var x, y := Abs(a), Abs(b);
    ProductMonotone(x, y, x);
    ProductMonotone(x, y, y);
    if a < 0.0 {
      NegativeFactors(a, a);
    }
    if b < 0.0 {
      NegativeFactors(b, b);
    }
  }

  lemma Vertex(n: real, k: real, c: real, u: real)
    requires n == c * k
    ensures Times(Times(u, u), k) - 2.0 * Times(u, n) == (u - c) * (u - c) * k - c * c * k
  {
    assert (u - c) * (u - c) == u * u - 2.0 * (u * c) + c * c;
    assert (u * u - 2.0 * (u * c) + c * c) * k == u * u * k - 2.0 * (u * c) * k + c * c * k;
    assert (u * c) * k == u * (c * k);
  }

  /** Replacing a coordinate in the box by the clamped coordinate minimum never raises the objective. */
  lemma CoordinateStep(rows: Matrix, y: Vec, prior: Vec, ridge: real, x: Vec, i: nat, low: Limit, high: Limit)
    requires Rectangular(rows, |x|) && |rows| == |y| && i < |x| == |prior|
    requires ValidBox(low, high) && InBox(x[i], low, high)
    requires Stiffness(rows, ridge, i, |x|) > 0.0
    ensures var best := Clamp(Pull(rows, y, prior, ridge, x, i) / Stiffness(rows, ridge, i, |x|), low, high);
      Objective(rows, y, prior, ridge, x[i := best]) <= Objective(rows, y, prior, ridge, x)
  {
    hide Times, SumOfSquaresTo, CorrelationTo, ProductTo, DistanceTo, Objective, Pull, Stiffness, Clamp;
    var n, k := Pull(rows, y, prior, ridge, x, i), Stiffness(rows, ridge, i, |x|);
    var c := n / k;
    QuotientTimes(n, k);
    var best := Clamp(c, low, high);
    ObjectiveInCoordinate(rows, y, prior, ridge, x, i, best);
    ObjectiveInCoordinate(rows, y, prior, ridge, x, i, x[i]);
    assert x[i := x[i]] == x;
    NearerIsLower(Objective(rows, y, prior, ridge, x[i := 0.0]), n, k, c, best, x[i]);
  }

  lemma {:induction false} ProductNonNegativeTo(rows: Matrix, i: nat, k: nat, n: nat)
    requires Rectangular(rows, n) && i < n && k <= |rows|
    ensures ProductTo(rows, i, i, k, n) >= 0.0
  {
    if k > 0 {
      ProductNonNegativeTo(rows, i, k - 1, n);
      SquareNonNegative(rows[k - 1][i]);
    }
  }

  // ----- The minimum over the box -----

  /** A regression with its box. */
  datatype Problem = Problem(rows: Matrix, y: Vec, prior: Vec, ridge: real, low: Limit, high: Limit)

  ghost predicate Posed(p: Problem) {
    Rectangular(p.rows, |p.prior|) && |p.rows| == |p.y| && p.ridge > 0.0 && ValidBox(p.low, p.high)
  }

  ghost predicate Feasible(p: Problem, x: Vec) {
    |x| == |p.prior| && AllInBox(x, p.low, p.high)
  }

  ghost function Value(p: Problem, x: Vec): real
    requires Posed(p) && |x| == |p.prior|
  {
    Objective(p.rows, p.y, p.prior, p.ridge, x)
  }

  /** No rates in the box have a lower objective. */
  ghost predicate Minimal(p: Problem, x: Vec)
    requires Posed(p)
  {
    Feasible(p, x) && forall z :: Feasible(p, z) ==> Value(p, x) <= Value(p, z)
  }

  lemma StiffnessPositive(p: Problem, i: nat)
    requires Posed(p) && i < |p.prior|
    ensures Stiffness(p.rows, p.ridge, i, |p.prior|) > 0.0
  {
    ProductNonNegativeTo(p.rows, i, |p.rows|, |p.prior|);
  }

  /** The clamped minimum of one coordinate, the others given. */
  ghost function Best(p: Problem, x: Vec, i: nat): (b: real)
    requires Posed(p) && |x| == |p.prior| && i < |x|
    ensures InBox(b, p.low, p.high)
  {
    StiffnessPositive(p, i);
    Clamp(Pull(p.rows, p.y, p.prior, p.ridge, x, i) / Stiffness(p.rows, p.ridge, i, |x|), p.low, p.high)
  }

  /** The rates after the first k coordinate updates of a sweep. */
  ghost function SweptTo(p: Problem, x: Vec, k: nat): (r: Vec)
    requires Posed(p) && Feasible(p, x) && k <= |x|
    ensures Feasible(p, r)
  {
    if k == 0 then x
    else
      var before := SweptTo(p, x, k - 1);
      before[k - 1 := Best(p, before, k - 1)]
  }

  ghost function Sweeps(p: Problem, x: Vec, n: nat): (r: Vec)
    requires Posed(p) && Feasible(p, x)
    ensures Feasible(p, r)
  {
    if n == 0 then x else SweptTo(p, Sweeps(p, x, n - 1), |x|)
  }

  /** Every coordinate is its own clamped minimum. */
  ghost predicate Settled(p: Problem, x: Vec)
    requires Posed(p) && |x| == |p.prior|
  {
    forall i :: 0 <= i < |x| ==> x[i] == Best(p, x, i)
  }

  /** The clamped point is the projection to the box. */
  lemma ClampProjects(c: real, z: real, low: Limit, high: Limit)
    requires ValidBox(low, high) && InBox(z, low, high)
    ensures var b := Clamp(c, low, high); (c > b ==> z <= b) && (c < b ==> z >= b)
  {
  }

  /** The coordinate minimum is optimal for its coordinate, and strictly better than any other. */
  lemma BestIsBest(p: Problem, x: Vec, i: nat, u: real)
    requires Posed(p) && |x| == |p.prior| && i < |x| && InBox(u, p.low, p.high)
    ensures Value(p, x[i := Best(p, x, i)]) <= Value(p, x[i := u])
    ensures u != Best(p, x, i) ==> Value(p, x[i := Best(p, x, i)]) < Value(p, x[i := u])
  {
    hide Times, SumOfSquaresTo, CorrelationTo, ProductTo, DistanceTo, Objective, Pull, Stiffness, Clamp;
    StiffnessPositive(p, i);
    var n, k := Pull(p.rows, p.y, p.prior, p.ridge, x, i), Stiffness(p.rows, p.ridge, i, |x|);
    QuotientTimes(n, k);
    var best := Clamp(n / k, p.low, p.high);
    ObjectiveInCoordinate(p.rows, p.y, p.prior, p.ridge, x, i, best);
    ObjectiveInCoordinate(p.rows, p.y, p.prior, p.ridge, x, i, u);
    var o := Objective(p.rows, p.y, p.prior, p.ridge, x[i := 0.0]);
    NearerIsLower(o, n, k, n / k, best, u);
    ClampProjects(n / k, u, p.low, p.high);
    if u != best {
      FartherIsHigher(o, n, k, n / k, best, u);
    }
  }

  lemma FartherIsHigher(o: real, n: real, k: real, c: real, u: real, w: real)
    requires k > 0.0 && n == c * k && u != w && (c > u ==> w <= u) && (c < u ==> w >= u)
    ensures o - 2.0 * Times(u, n) + Times(Times(u, u), k) < o - 2.0 * Times(w, n) + Times(Times(w, w), k)
  {
    var a, b := u - c, w - c;
    hide Times;
    SquareStrict(a, b);
    ProductStrict(a * a, b * b, k);
    Vertex(n, k, c, u);
    Vertex(n, k, c, w);
  }

  lemma SquareStrict(a: real, b: real)
    requires (a < 0.0 ==> b < a) && (a > 0.0 ==> b > a) && (a == 0.0 ==> b != 0.0)
    ensures a * a < b * b
  {
    if a < 0.0 {
      assert 0.0 < -a < -b;
      StrictSquares(-a, -b);
      NegativeFactors(a, a);
      NegativeFactors(b, b);
    } else if a > 0.0 {
      StrictSquares(a, b);
    } else {
      ZeroFactor(a, a);
      SquareNonNegative(b);
      if b * b == 0.0 {
        ZeroProduct(b, b);
      }
    }
  }

  lemma StrictSquares(a: real, b: real)
    requires 0.0 < a < b
    ensures a * a < b * b
  {
    ProductStrict(a, b, a);
    ProductStrict(a, b, b);
  }

  /** Each coordinate update leaves the rates alone or lowers the objective. */
  lemma {:induction false} SweepLowers(p: Problem, x: Vec, k: nat)
    requires Posed(p) && Feasible(p, x) && k <= |x|
    ensures Value(p, SweptTo(p, x, k)) <= Value(p, x)
    ensures Value(p, SweptTo(p, x, k)) == Value(p, x) ==>
      SweptTo(p, x, k) == x && forall i :: 0 <= i < k ==> x[i] == Best(p, x, i)
  {
    hide Value, Best;
    if k > 0 {
      SweepLowers(p, x, k - 1);
      var before := SweptTo(p, x, k - 1);
      BestIsBest(p, before, k - 1, before[k - 1]);
      assert before[k - 1 := before[k - 1]] == before;
    }
  }

  // -- A settled point is minimal --

  /** Half the negative gradient: how strongly a coordinate is drawn upward. */
  ghost function Draw(p: Problem, x: Vec): (d: Vec)
    requires Posed(p) && |x| == |p.prior|
    ensures |d| == |x|
    ensures forall i :: 0 <= i < |x| ==> d[i] == Drawn(p, x, i)
  {
    seq(|x|, i requires 0 <= i < |x| => Drawn(p, x, i))
  }

  ghost function Drawn(p: Problem, x: Vec, i: nat): real
    requires Posed(p) && |x| == |p.prior| && i < |x|
  {
    CorrelationTo(p.rows, p.y, x, i, |p.rows|) - Times(p.ridge, x[i] - p.prior[i])
  }

  /** Moving coordinate i from zero to its value takes its own product off the correlation. */
  lemma {:induction false} CorrelationShifts(rows: Matrix, y: Vec, x: Vec, i: nat, k: nat)
    requires Rectangular(rows, |x|) && k <= |rows| && k <= |y| && i < |x|
    ensures CorrelationTo(rows, y, x, i, k)
      == CorrelationTo(rows, y, x[i := 0.0], i, k) - Times(x[i], ProductTo(rows, i, i, k, |x|))
  {
    hide Times, DotTo;
    if k == 0 {
      TimesZero(x[i]);
    } else {
      CorrelationShifts(rows, y, x, i, k - 1);
      var row, z := rows[k - 1], x[i := 0.0];
      DotToUpdate(row, z, i, x[i], |x|);
      assert z[i := x[i]] == x;
      TimesLaws(row[i], y[k - 1] - Dot(row, z), Times(row[i], x[i]));
      TimesLaws(row[i], x[i], 0.0);
      TimesLaws(x[i], row[i], row[i]);
      TimesLaws(x[i], ProductTo(rows, i, i, k - 1, |x|), Times(row[i], row[i]));
      ThreeFactors(row[i], x[i]);
    }
  }

  lemma ThreeFactors(a: real, b: real)
    ensures Times(a, Times(a, b)) == Times(b, Times(a, a))
  {
    assert a * (a * b) == b * (a * a);
  }

  lemma DrawIsPull(p: Problem, x: Vec, i: nat)
    requires Posed(p) && |x| == |p.prior| && i < |x|
    ensures Drawn(p, x, i)
      == Pull(p.rows, p.y, p.prior, p.ridge, x, i) - Times(x[i], Stiffness(p.rows, p.ridge, i, |x|))
  {
    hide Times, CorrelationTo, ProductTo;
    CorrelationShifts(p.rows, p.y, x, i, |p.rows|);
    TimesLaws(p.ridge, x[i], p.prior[i]);
    TimesLaws(x[i], ProductTo(p.rows, i, i, |p.rows|, |x|), p.ridge);
    TimesLaws(x[i], p.ridge, 0.0);
  }

  /** From a settled coordinate no move within the box follows the draw. */
  lemma SettledResists(p: Problem, x: Vec, i: nat, z: real)
    requires Posed(p) && |x| == |p.prior| && i < |x| && x[i] == Best(p, x, i) && InBox(z, p.low, p.high)
    ensures Times(z - x[i], Drawn(p, x, i)) <= 0.0
  {
    hide Times, CorrelationTo, ProductTo, Pull, Stiffness, Clamp, Drawn;
    StiffnessPositive(p, i);
    DrawIsPull(p, x, i);
    var n, k := Pull(p.rows, p.y, p.prior, p.ridge, x, i), Stiffness(p.rows, p.ridge, i, |x|);
    QuotientTimes(n, k);
    ClampProjects(n / k, z, p.low, p.high);
    AgainstTheDraw(z - x[i], n / k, x[i], n, k);
  }

  lemma AgainstTheDraw(d: real, c: real, b: real, n: real, k: real)
    requires k > 0.0 && n == c * k && (c > b ==> d <= 0.0) && (c < b ==> d >= 0.0)
    ensures Times(d, n - Times(b, k)) <= 0.0
  {
    assert n - b * k == (c - b) * k;
    if c > b {
      ProductNonNegative(c - b, k);
      ProductNonNegative(-d, (c - b) * k);
      NegativeFactor(d, (c - b) * k);
    } else if c == b {
      assert (c - b) * k == 0.0;
      ZeroFactor(d, (c - b) * k);
    } else {
      ProductNonNegative(b - c, k);
      assert (c - b) * k == -((b - c) * k);
      ProductNonNegative(d, (b - c) * k);
      NegativeFactor((b - c) * k, d);
    }
  }

  lemma {:induction false} DotNonPositive(a: Vec, b: Vec, k: nat)
    requires k <= |a| && k <= |b| && forall i :: 0 <= i < k ==> Times(a[i], b[i]) <= 0.0
    ensures DotTo(a, b, k) <= 0.0
  {
    if k > 0 {
      DotNonPositive(a, b, k - 1);
    }
  }

  ghost function SquaresTo(d: Vec, k: nat): (q: real)
    requires k <= |d|
    ensures q >= 0.0
  {
    if k == 0 then 0.0
    else
      SquareNonNegative(d[k - 1]);
      SquaresTo(d, k - 1) + Times(d[k - 1], d[k - 1])
  }

  /** The distance along a step, entry by entry. */
  lemma {:induction false} DistanceAlong(x: Vec, z: Vec, prior: Vec, d: Vec, ridge: real, g: Vec, c: Vec, k: nat)
    requires |x| == |z| == |prior| == |d| == |g| == |c| && k <= |x|
    requires forall i :: 0 <= i < |x| ==> d[i] == z[i] - x[i] && g[i] == c[i] - Times(ridge, x[i] - prior[i])
    ensures Times(ridge, DistanceTo(z, prior, k)) - 2.0 * DotTo(d, c, k)
      == Times(ridge, DistanceTo(x, prior, k)) - 2.0 * DotTo(d, g, k) + Times(ridge, SquaresTo(d, k))
  {
    hide Times;
    if k == 0 {
      TimesZero(ridge);
    } else {
      DistanceAlong(x, z, prior, d, ridge, g, c, k - 1);
      var a, e, t := x[k - 1] - prior[k - 1], d[k - 1], z[k - 1] - prior[k - 1];
      StepSquare(ridge, a, e, t, c[k - 1], g[k - 1]);
      TimesLaws(ridge, DistanceTo(z, prior, k - 1), Times(t, t));
      TimesLaws(ridge, DistanceTo(x, prior, k - 1), Times(a, a));
      TimesLaws(ridge, SquaresTo(d, k - 1), Times(e, e));
    }
  }

  lemma StepSquare(ridge: real, a: real, e: real, t: real, c: real, g: real)
    requires t == a + e && g == c - Times(ridge, a)
    ensures Times(ridge, Times(t, t)) - 2.0 * Times(e, c)
      == Times(ridge, Times(a, a)) - 2.0 * Times(e, g) + Times(ridge, Times(e, e))
  {
    var aa, ae, ee := a * a, a * e, e * e;
    assert t * t == aa + 2.0 * ae + ee;
    assert ridge * (aa + 2.0 * ae + ee) == ridge * aa + 2.0 * (ridge * ae) + ridge * ee;
    assert e * (c - ridge * a) == e * c - e * (ridge * a);
    assert e * (ridge * a) == ridge * ae;
  }

  /** The objective at z, seen from x: the draw along the step, and something non-negative. */
  lemma ObjectiveAlong(p: Problem, x: Vec, z: Vec, d: Vec)
    requires Posed(p) && |x| == |z| == |d| == |p.prior|
    requires forall i :: 0 <= i < |x| ==> d[i] == z[i] - x[i]
    ensures Value(p, z) >= Value(p, x) - 2.0 * Dot(d, Draw(p, x))
  {
    hide *;
    var n, m := |x|, |p.rows|;
    ValueIs(p, x);
    ValueIs(p, z);
    StepIs(x, z, d);
    LineError(p.rows, p.y, x, -1.0, d);
    CrossIsDot(p.rows, p.y, x, d, m);
    var c, g := Correlations(p.rows, p.y, x, m), Draw(p, x);
    DrawMeans(p, x, c, g);
    DistanceAlong(x, z, p.prior, d, p.ridge, g, c, n);
    DotIs(d, g);
    DotIs(d, c);
    MinusOne(CrossTo(p.rows, p.y, x, d, m), EnergyTo(p.rows, d, m));
    RidgeNonNegative(p, d);
  }

  lemma StepIs(x: Vec, z: Vec, d: Vec)
    requires |x| == |z| == |d| && forall i :: 0 <= i < |x| ==> d[i] == z[i] - x[i]
    ensures Subtract(x, -1.0, d) == z
  {
    forall i | 0 <= i < |x| ensures Subtract(x, -1.0, d)[i] == z[i] {
      NegativeFactor(1.0, d[i]);
    }
  }

  lemma DrawMeans(p: Problem, x: Vec, c: Vec, g: Vec)
    requires Posed(p) && |x| == |p.prior| && g == Draw(p, x)
    requires c == Correlations(p.rows, p.y, x, |p.rows|)
    ensures |c| == |g| == |x|
    ensures forall i :: 0 <= i < |x| ==> g[i] == c[i] - Times(p.ridge, x[i] - p.prior[i])
  {
    hide Times, CorrelationTo;
  }

  lemma ValueIs(p: Problem, x: Vec)
    requires Posed(p) && |x| == |p.prior|
    ensures Rectangular(p.rows, |x|) && |p.rows| == |p.y|
    ensures Value(p, x) == SquaredError(p.rows, p.y, x) + Times(p.ridge, DistanceTo(x, p.prior, |x|))
  {
  }

  lemma DotIs(a: Vec, b: Vec)
    requires |a| == |b|
    ensures Dot(a, b) == DotTo(a, b, |a|)
  {
  }

  lemma MinusOne(c: real, e: real)
    ensures 2.0 * Times(-1.0, c) == -2.0 * c && Times(Times(-1.0, -1.0), e) == e
  {
  }

  lemma RidgeNonNegative(p: Problem, d: Vec)
    requires Posed(p) && |d| == |p.prior|
    ensures Times(p.ridge, SquaresTo(d, |d|)) >= 0.0 && EnergyTo(p.rows, d, |p.rows|) >= 0.0
  {
    ProductNonNegative(p.ridge, SquaresTo(d, |d|));
  }

  /** Where no coordinate alone can be improved, nothing in the box is better: the objective is
      convex and the box has no corners that a coordinate cannot see. */
  lemma SettledIsMinimal(p: Problem, x: Vec)
    requires Posed(p) && Feasible(p, x) && Settled(p, x)
    ensures Minimal(p, x)
  {
    hide Value, Best, Drawn, Draw, DotTo, Times, InBox;
    forall z | Feasible(p, z) ensures Value(p, x) <= Value(p, z) {
      var d := seq(|x|, i requires 0 <= i < |x| => z[i] - x[i]);
      forall i | 0 <= i < |x| ensures Times(d[i], Draw(p, x)[i]) <= 0.0 {
        SettledResists(p, x, i, z[i]);
      }
      DotNonPositive(d, Draw(p, x), |x|);
      ObjectiveAlong(p, x, z, d);
      DotIs(d, Draw(p, x));
    }
  }

  /** A sweep lowers the objective, or the minimum was reached before it. */
  lemma SweepImproves(p: Problem, x: Vec)
    requires Posed(p) && Feasible(p, x)
    ensures Value(p, SweptTo(p, x, |x|)) < Value(p, x) || (SweptTo(p, x, |x|) == x && Minimal(p, x))
  {
    SweepLowers(p, x, |x|);
    hide Value, SweptTo, Best, Minimal;
    if Value(p, SweptTo(p, x, |x|)) >= Value(p, x) {
      SettledIsMinimal(p, x);
    }
  }

  lemma {:induction false} SweepsImprove(p: Problem, x: Vec, n: nat)
    requires Posed(p) && Feasible(p, x)
    ensures Value(p, Sweeps(p, x, n)) <= Value(p, x)
    ensures n > 0 ==> Value(p, Sweeps(p, x, n)) < Value(p, x) || (Sweeps(p, x, n) == x && Minimal(p, x))
  {
    hide Value, SweptTo, Minimal;
    if n > 0 {
      SweepsImprove(p, x, n - 1);
      SweepImproves(p, Sweeps(p, x, n - 1));
    }
  }

  /** After a sweep no other rate for the last coordinate is better, nor was any for the first. */
  lemma SweepFitsEnds(p: Problem, x: Vec, u: real)
    requires Posed(p) && Feasible(p, x) && x != [] && InBox(u, p.low, p.high)
    ensures var r := SweptTo(p, x, |x|); Value(p, r) <= Value(p, r[|r| - 1 := u])
    ensures Value(p, SweptTo(p, x, |x|)) <= Value(p, x[0 := u])
  {
    hide *;
    LastCoordinate(p, x, u);
    FirstCoordinate(p, x, u, |x|);
  }

  lemma LastCoordinate(p: Problem, x: Vec, u: real)
    requires Posed(p) && Feasible(p, x) && x != [] && InBox(u, p.low, p.high)
    ensures var r := SweptTo(p, x, |x|); Value(p, r) <= Value(p, r[|r| - 1 := u])
  {
    hide Value, Best, InBox, AllInBox, Posed;
    var last := |x| - 1;
    var before := SweptTo(p, x, last);
    BestIsBest(p, before, last, u);
    assert before[last := Best(p, before, last)][last := u] == before[last := u];
  }

  lemma {:induction false} FirstCoordinate(p: Problem, x: Vec, u: real, k: nat)
    requires Posed(p) && Feasible(p, x) && 0 < k <= |x| && InBox(u, p.low, p.high)
    ensures Value(p, SweptTo(p, x, k)) <= Value(p, x[0 := u])
  {
    hide Value, Best;
    if k == 1 {
      assert SweptTo(p, x, 0) == x;
      BestIsBest(p, x, 0, u);
    } else {
      FirstCoordinate(p, x, u, k - 1);
      var before := SweptTo(p, x, k - 1);
      BestIsBest(p, before, k - 1, before[k - 1]);
      assert before[k - 1 := before[k - 1]] == before;
    }
  }

  // ----- The fit -----

  /** The prediction of the other coordinates. */
  method OthersPredict(row: Vec, rates: Vec, index: nat) returns (other: real)
    requires |row| == |rates| && index < |rates|
    ensures other == Dot(row, rates[index := 0.0])
  {
    hide Times;
    other := 0.0;
    for j := 0 to |rates|
      invariant other == DotTo(row, rates[index := 0.0], j)
    {
      TimesZero(row[j]);
      if j != index {
        other := other + Times(row[j], rates[j]);
      }
    }
  }

  /** The loop over the observations that accumulates the numerator. */
  method Numerator(features: Matrix, targets: Vec, prior: Vec, ridge: real, rates: Vec, index: nat)
    returns (numerator: real)
    requires Rectangular(features, |rates|) && |features| == |targets| && index < |rates| == |prior|
    ensures numerator == Pull(features, targets, prior, ridge, rates, index)
  {
    hide Times, DotTo;
    numerator := Times(ridge, prior[index]);
    for r := 0 to |features|
      invariant numerator == Times(ridge, prior[index])
        + CorrelationTo(features, targets, rates[index := 0.0], index, r)
    {
      var other := OthersPredict(features[r], rates, index);
      numerator := numerator + Times(features[r][index], targets[r] - other);
    }
  }

  function Diagonal(features: Matrix, n: nat): (d: Vec)
    requires Rectangular(features, n)
    ensures |d| == n && forall i :: 0 <= i < n ==> d[i] == ProductTo(features, i, i, |features|, n)
  {
    seq(n, i requires 0 <= i < n => ProductTo(features, i, i, |features|, n))
  }

  function Ridge(features: Matrix, n: nat): real
    requires Rectangular(features, n)
  {
    Max(0.000000001, Sum(Diagonal(features, n)) / (if n == 0 then 1.0 else n as real) * 0.00001)
  }

  function ClampAll(prior: Vec, low: Limit, high: Limit): (r: Vec)
    requires ValidBox(low, high)
    ensures |r| == |prior| && AllInBox(r, low, high)
    ensures forall i :: 0 <= i < |r| ==> r[i] == Clamp(prior[i], low, high)
  {
    seq(|prior|, i requires 0 <= i < |prior| => Clamp(prior[i], low, high))
  }

  function ProblemOf(features: Matrix, targets: Vec, prior: Vec, low: Limit, high: Limit): Problem
    requires Rectangular(features, |prior|)
  {
    Problem(features, targets, prior, Ridge(features, |prior|), low, high)
  }

  const SWEEPS := 200

  /** What the regression returns: the clamped prior after all sweeps. */
  ghost function RidgeRates(features: Matrix, targets: Vec, prior: Vec, low: Limit, high: Limit): (rates: Vec)
    requires Rectangular(features, |prior|) && |features| == |targets| && ValidBox(low, high)
    ensures |rates| == |prior| && AllInBox(rates, low, high)
  {
    Sweeps(ProblemOf(features, targets, prior, low, high), ClampAll(prior, low, high), SWEEPS)
  }

  /** The regression beats the clamped prior unless nothing in the box does. */
  lemma RidgeImproves(features: Matrix, targets: Vec, prior: Vec, low: Limit, high: Limit)
    requires Rectangular(features, |prior|) && |features| == |targets| && ValidBox(low, high)
    ensures var p := ProblemOf(features, targets, prior, low, high);
      var start, rates := ClampAll(prior, low, high), RidgeRates(features, targets, prior, low, high);
      Posed(p) && Value(p, rates) <= Value(p, start)
      && (Value(p, rates) < Value(p, start) || (rates == start && Minimal(p, start)))
  {
    hide Value, Sweeps, Minimal, Ridge;
    RidgePositive(features, |prior|);
    SweepsImprove(ProblemOf(features, targets, prior, low, high), ClampAll(prior, low, high), SWEEPS);
  }

  lemma RidgePositive(features: Matrix, n: nat)
    requires Rectangular(features, n)
    ensures Ridge(features, n) > 0.0
  {
  }

  /** Its last rate is the best there is, given the others. */
  lemma RidgeFitsEnds(features: Matrix, targets: Vec, prior: Vec, low: Limit, high: Limit, u: real)
    requires Rectangular(features, |prior|) && |features| == |targets| && ValidBox(low, high)
    requires prior != [] && InBox(u, low, high)
    ensures var p, start := ProblemOf(features, targets, prior, low, high), ClampAll(prior, low, high);
      var rates := RidgeRates(features, targets, prior, low, high);
      Posed(p) && Value(p, rates) <= Value(p, rates[|rates| - 1 := u]) && Value(p, rates) <= Value(p, start[0 := u])
  {
    RidgePositive(features, |prior|);
    var p, start := ProblemOf(features, targets, prior, low, high), ClampAll(prior, low, high);
    hide Value, SweptTo, Sweeps, Ridge, InBox, AllInBox, Rectangular, ValidBox;
    LastSweep(p, start, u, SWEEPS);
    FirstSweep(p, start, u, SWEEPS);
  }

  lemma LastSweep(p: Problem, x: Vec, u: real, n: nat)
    requires Posed(p) && Feasible(p, x) && x != [] && InBox(u, p.low, p.high) && n > 0
    ensures var r := Sweeps(p, x, n); Value(p, r) <= Value(p, r[|r| - 1 := u])
  {
    hide Value, SweptTo, Posed, AllInBox;
    SweepFitsEnds(p, Sweeps(p, x, n - 1), u);
  }

  lemma {:induction false} FirstSweep(p: Problem, x: Vec, u: real, n: nat)
    requires Posed(p) && Feasible(p, x) && x != [] && InBox(u, p.low, p.high) && n > 0
    ensures Value(p, Sweeps(p, x, n)) <= Value(p, x[0 := u])
  {
    hide Value, SweptTo;
    if n == 1 {
      assert Sweeps(p, x, 0) == x;
      SweepFitsEnds(p, x, u);
    } else {
      FirstSweep(p, x, u, n - 1);
      SweepLowers(p, Sweeps(p, x, n - 1), |x|);
    }
  }

  /** One sweep of coordinate updates. The ridge keeps every denominator positive, so the
      source's fallback for a zero denominator is never taken. */
  method Sweep(features: Matrix, targets: Vec, prior: Vec, low: Limit, high: Limit, ridge: real, rates: Vec)
    returns (r: Vec)
    requires Rectangular(features, |prior|) && |features| == |targets| && |rates| == |prior|
    requires ValidBox(low, high) && AllInBox(rates, low, high) && ridge > 0.0
    ensures r == SweptTo(Problem(features, targets, prior, ridge, low, high), rates, |rates|)
  {
    ghost var p := Problem(features, targets, prior, ridge, low, high);
    r := rates;
    hide *;
    NotSwept(p, rates);
    for index := 0 to |rates|
      invariant |r| == |rates| && r == SweptTo(p, rates, index)
    {
      SweepStep(p, rates, index);
      var denominator := Diagonal(features, |prior|)[index] + ridge;
      var numerator := Numerator(features, targets, prior, ridge, r, index);
      r := r[index := Clamp(numerator / denominator, low, high)];
    }
  }

  lemma NotSwept(p: Problem, x: Vec)
    requires Rectangular(p.rows, |p.prior|) && |p.rows| == |p.y| && |x| == |p.prior|
    requires ValidBox(p.low, p.high) && AllInBox(x, p.low, p.high) && p.ridge > 0.0
    ensures Posed(p) && Feasible(p, x) && SweptTo(p, x, 0) == x
  {
  }

  lemma SweepStep(p: Problem, x: Vec, k: nat)
    requires Posed(p) && Feasible(p, x) && k < |x|
    ensures var n, before := |p.prior|, SweptTo(p, x, k);
      var denominator := Diagonal(p.rows, n)[k] + p.ridge;
      denominator > 0.0
      && SweptTo(p, x, k + 1)
        == before[k := Clamp(Pull(p.rows, p.y, p.prior, p.ridge, before, k) / denominator, p.low, p.high)]
  {
    hide Times, ProductTo, Pull, Clamp;
    StiffnessPositive(p, k);
  }

  /** gas._nnls: the rates stay in the passport box, and they beat the clamped prior unless
      nothing in the box does. */
  method BoundedRidge(features: Matrix, targets: Vec, prior: Vec, low: Limit, high: Limit) returns (rates: Vec)
    requires Rectangular(features, |prior|) && |features| == |targets| && ValidBox(low, high)
    ensures |rates| == |prior| && AllInBox(rates, low, high)
    ensures rates == RidgeRates(features, targets, prior, low, high)
    ensures var p, start := ProblemOf(features, targets, prior, low, high), ClampAll(prior, low, high);
      Posed(p) && Value(p, rates) <= Value(p, start)
      && (Value(p, rates) < Value(p, start) || (rates == start && Minimal(p, start)))
    ensures forall u :: prior != [] && InBox(u, low, high) ==>
      var p := ProblemOf(features, targets, prior, low, high);
      Value(p, rates) <= Value(p, rates[|rates| - 1 := u])
      && Value(p, rates) <= Value(p, ClampAll(prior, low, high)[0 := u])
  {
    rates := ClampAll(prior, low, high);
    var ridge := Ridge(features, |prior|);
    ghost var p, start := ProblemOf(features, targets, prior, low, high), rates;
    RidgePositive(features, |prior|);
    hide Value, Minimal, SweptTo, ClampAll, Ridge, InBox;
    for pass := 0 to 200
      invariant rates == Sweeps(p, start, pass)
    {
      rates := Sweep(features, targets, prior, low, high, ridge, rates);
    }
    RidgeImproves(features, targets, prior, low, high);
    forall u | prior != [] && InBox(u, low, high)
      ensures Value(p, rates) <= Value(p, rates[|rates| - 1 := u]) && Value(p, rates) <= Value(p, start[0 := u])
    {
      RidgeFitsEnds(features, targets, prior, low, high, u);
    }
  }
}
