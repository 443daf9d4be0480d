/** The exact active-set non-negative least squares of the gas savings baseline: the
    best of the enumerated candidates is a global minimum over all non-negative vectors. */
module NonNegativeFit {
  import opened Options
  import opened RealArithmetic
  import opened LinearAlgebra
  import opened Elimination
  import opened MatrixRank
  import opened LeastSquares

  datatype Fit = Fitted(coefficients: Vec) | LacksDiversity

  ghost predicate NonNegative(v: Vec) {
    forall i :: 0 <= i < |v| ==> v[i] >= 0.0
  }

  predicate Positive(v: Vec) {
    forall i :: 0 <= i < |v| ==> v[i] > 0.0
  }

  // ----- Active sets -----

  /** A combination: strictly increasing column numbers in [from, n). */
  predicate Combination(s: seq<nat>, from: nat, n: nat) {
    (forall i :: 0 <= i < |s| ==> from <= s[i] < n)
    && forall i, j :: 0 <= i < j < |s| ==> s[i] < s[j]
  }

  function PrependOne(c: nat, s: seq<nat>, n: nat): (r: seq<nat>)
    requires c < n && Combination(s, c + 1, n)
    ensures r == [c] + s && Combination(r, c, n)
  {
    [c] + s
  }

  function Prepend(c: nat, rest: seq<seq<nat>>, n: nat, ghost size: nat): (r: seq<seq<nat>>)
    requires c < n && forall i :: 0 <= i < |rest| ==> |rest[i]| == size && Combination(rest[i], c + 1, n)
    ensures |r| == |rest| && forall i :: 0 <= i < |r| ==> r[i] == [c] + rest[i]
    ensures forall i :: 0 <= i < |r| ==> |r[i]| == size + 1 && Combination(r[i], c, n)
  {
    seq(|rest|, i requires 0 <= i < |rest| => PrependOne(c, rest[i], n))
  }

  /** All combinations of the given size, in lexicographic order. */
  function Combinations(from: nat, n: nat, size: nat): (r: seq<seq<nat>>)
    ensures forall i :: 0 <= i < |r| ==> |r[i]| == size && Combination(r[i], from, n)
    decreases n - from
  {
    if size == 0 then [[]]
    else if from >= n then []
    else Prepend(from, Combinations(from + 1, n, size - 1), n, size - 1) + Combinations(from + 1, n, size)
  }

  lemma CombinationTail(s: seq<nat>, from: nat, n: nat)
    requires |s| > 0 && s[0] == from && Combination(s, from, n)
    ensures Combination(s[1..], from + 1, n)
  {
  }

  lemma CombinationLater(s: seq<nat>, from: nat, n: nat)
    requires |s| > 0 && s[0] != from && Combination(s, from, n)
    ensures Combination(s, from + 1, n)
  {
  }

  lemma FoundAtHead(s: seq<nat>, n: nat, i: nat)
    requires |s| > 0 && s[0] < n
    requires i < |Combinations(s[0] + 1, n, |s| - 1)| && Combinations(s[0] + 1, n, |s| - 1)[i] == s[1..]
    ensures i < |Combinations(s[0], n, |s|)| && Combinations(s[0], n, |s|)[i] == s
  {
    assert s == [s[0]] + s[1..];
  }

  lemma FoundInTail(s: seq<nat>, from: nat, n: nat, i: nat) returns (j: nat)
    requires |s| > 0 && from < n
    requires i < |Combinations(from + 1, n, |s|)| && Combinations(from + 1, n, |s|)[i] == s
    ensures j < |Combinations(from, n, |s|)| && Combinations(from, n, |s|)[j] == s
  {
    j := |Combinations(from + 1, n, |s| - 1)| + i;
  }

  /** Every combination is enumerated. */
  lemma {:induction false} CombinationsComplete(from: nat, n: nat, s: seq<nat>) returns (i: nat)
    requires Combination(s, from, n)
    ensures i < |Combinations(from, n, |s|)| && Combinations(from, n, |s|)[i] == s
    decreases n - from
  {
    if |s| == 0 {
      return 0;
    }
    hide Combinations, Combination;
    CombinationBounds(s, from, n);
    if s[0] == from {
      CombinationTail(s, from, n);
      i := CombinationsComplete(from + 1, n, s[1..]);
      FoundAtHead(s, n, i);
    } else {
      CombinationLater(s, from, n);
      i := CombinationsComplete(from + 1, n, s);
      i := FoundInTail(s, from, n, i);
    }
  }

  lemma CombinationBounds(s: seq<nat>, from: nat, n: nat)
    requires |s| > 0 && Combination(s, from, n)
    ensures from <= s[0] < n
  {
  }

  /** The active columns of one row, each over its scale. */
  function PickRow(row: Vec, scales: Vec, s: seq<nat>): (r: Vec)
    requires |row| == |scales| && Combination(s, 0, |scales|)
    requires Positive(scales)
    ensures |r| == |s| && forall l :: 0 <= l < |s| ==> r[l] == row[s[l]] / scales[s[l]]
  {
    seq(|s|, l requires 0 <= l < |s| => row[s[l]] / scales[s[l]])
  }

  function Active(rows: Matrix, scales: Vec, s: seq<nat>): (a: Matrix)
    requires Rectangular(rows, |scales|) && Combination(s, 0, |scales|)
    requires Positive(scales)
    ensures |a| == |rows| && Rectangular(a, |s|)
    ensures forall r :: 0 <= r < |rows| ==> a[r] == PickRow(rows[r], scales, s)
  {
    seq(|rows|, r requires 0 <= r < |rows| => PickRow(rows[r], scales, s))
  }

  /** The full coefficient vector of an active-set solution; inactive columns stay zero. */
  function EmbedTo(z: Vec, s: seq<nat>, scales: Vec, k: nat): (x: Vec)
    requires |z| == |s| && k <= |s| && Combination(s, 0, |scales|) && Positive(scales)
    ensures |x| == |scales|
  {
    if k == 0 then Zeros(|scales|)
    else EmbedTo(z, s, scales, k - 1)[s[k - 1] := z[k - 1] / scales[s[k - 1]]]
  }

  function Embed(z: Vec, s: seq<nat>, scales: Vec): (x: Vec)
    requires |z| == |s| && Combination(s, 0, |scales|) && Positive(scales)
    ensures |x| == |scales|
  {
    EmbedTo(z, s, scales, |s|)
  }

  lemma {:induction false} EmbedInactive(z: Vec, s: seq<nat>, scales: Vec, k: nat, c: nat)
    requires |z| == |s| && k <= |s| && Combination(s, 0, |scales|) && Positive(scales)
    requires c < |scales| && forall l :: 0 <= l < k ==> s[l] != c
    ensures EmbedTo(z, s, scales, k)[c] == 0.0
  {
    if k > 0 {
      EmbedInactive(z, s, scales, k - 1, c);
    }
  }

  lemma {:induction false} EmbedAt(z: Vec, s: seq<nat>, scales: Vec, k: nat, l: nat)
    requires |z| == |s| && k <= |s| && Combination(s, 0, |scales|) && Positive(scales) && l < k
    ensures EmbedTo(z, s, scales, k)[s[l]] == z[l] / scales[s[l]]
  {
    if l < k - 1 {
      assert s[l] < s[k - 1];
      EmbedAt(z, s, scales, k - 1, l);
    }
  }

  lemma {:induction false} EmbedDot(row: Vec, z: Vec, s: seq<nat>, scales: Vec, k: nat)
    requires |row| == |scales| && |z| == |s| && k <= |s|
    requires Combination(s, 0, |scales|) && Positive(scales)
    ensures Dot(row, EmbedTo(z, s, scales, k)) == DotTo(PickRow(row, scales, s), z, k)
  {
    hide Times;
    if k == 0 {
      DotToZero(row, Zeros(|scales|), |row|);
    } else {
      EmbedDot(row, z, s, scales, k - 1);
      var before, c := EmbedTo(z, s, scales, k - 1), s[k - 1];
      EmbedInactive(z, s, scales, k - 1, c);
      DotToUpdate(row, before, c, z[k - 1] / scales[c], |row|);
      QuotientTerm(row[c], scales[c], z[k - 1]);
    }
  }

  lemma EmbedError(rows: Matrix, y: Vec, z: Vec, s: seq<nat>, scales: Vec)
    requires Rectangular(rows, |scales|) && |z| == |s| && |rows| == |y|
    requires Combination(s, 0, |scales|) && Positive(scales)
    ensures SquaredError(rows, y, Embed(z, s, scales)) == SquaredError(Active(rows, scales, s), y, z)
  {
    forall i | 0 <= i < |rows|
      ensures Dot(rows[i], Embed(z, s, scales)) == Dot(Active(rows, scales, s)[i], z)
    {
      EmbedDot(rows[i], z, s, scales, |s|);
    }
    assert Residuals(rows, y, Embed(z, s, scales)) == Residuals(Active(rows, scales, s), y, z);
  }

  lemma ActiveIndependent(rows: Matrix, s: seq<nat>, scales: Vec)
    requires Rectangular(rows, |scales|) && IndependentColumns(rows, |scales|)
    requires Combination(s, 0, |scales|) && Positive(scales)
    ensures IndependentColumns(Active(rows, scales, s), |s|)
  {
    var a := Active(rows, scales, s);
    forall z: Vec | |z| == |s| && Annihilates(a, z) ensures IsZero(z) {
      var x := Embed(z, s, scales);
      forall r | 0 <= r < |rows| ensures Dot(rows[r], x) == 0.0 {
        EmbedDot(rows[r], z, s, scales, |s|);
        assert Dot(a[r], z) == 0.0;
      }
      assert Annihilates(rows, x);
      forall l | 0 <= l < |z| ensures z[l] == 0.0 {
        EmbedAt(z, s, scales, |s|, l);
        var v, d := z[l], scales[s[l]];
        assert v == (v / d) * d;
      }
    }
  }

  // ----- From any feasible vector down to an active-set solution -----

  /** The nonzero columns of x among the first k. */
  ghost function SupportTo(x: Vec, k: nat): (s: seq<nat>)
    requires k <= |x|
    ensures Combination(s, 0, k)
    ensures forall c :: 0 <= c < k ==> (c in s <==> x[c] != 0.0)
  {
    if k == 0 then []
    else if x[k - 1] != 0.0 then SupportTo(x, k - 1) + [k - 1]
    else SupportTo(x, k - 1)
  }

  lemma {:induction false} SupportShrinks(x: Vec, x': Vec, k: nat)
    requires |x| == |x'| && k <= |x|
    requires forall c :: 0 <= c < k && x[c] == 0.0 ==> x'[c] == 0.0
    ensures |SupportTo(x', k)| <= |SupportTo(x, k)|
    ensures (exists c :: 0 <= c < k && x[c] != 0.0 && x'[c] == 0.0) ==> |SupportTo(x', k)| < |SupportTo(x, k)|
  {
    if k > 0 {
      SupportShrinks(x, x', k - 1);
    }
  }

  /** The point a fraction t of the way from a to b. */
  ghost function Between(a: real, b: real, t: real): real {
    a + t * (b - a)
  }

  /** Moving from w > 0 toward z, the first step length at which a coordinate reaches zero,
      or the whole way. */
  lemma {:induction false} FirstHit(w: Vec, z: Vec, k: nat) returns (t: real, hit: nat)
    requires |w| == |z| && k <= |w| && forall i :: 0 <= i < |w| ==> w[i] > 0.0
    ensures 0.0 <= t <= 1.0
    ensures forall i :: 0 <= i < k ==> Between(w[i], z[i], t) >= 0.0
    ensures t == 1.0 || (hit < k && Between(w[hit], z[hit], t) == 0.0)
  {
    if k == 0 {
      return 1.0, 0;
    }
    t, hit := FirstHit(w, z, k - 1);
    if Between(w[k - 1], z[k - 1], t) < 0.0 {
      var t' := Crossing(w[k - 1], z[k - 1], t);
      forall i | 0 <= i < k - 1 ensures Between(w[i], z[i], t') >= 0.0 {
        ShorterStepStaysInside(w[i], z[i], t, t');
      }
      return t', k - 1;
    }
  }

  /** Where a straight move from a > 0 to b crosses zero. */
  lemma Crossing(a: real, b: real, t: real) returns (t': real)
    requires a > 0.0 && 0.0 <= t <= 1.0 && Between(a, b, t) < 0.0
    ensures 0.0 <= t' <= t && Between(a, b, t') == 0.0
  {
    var d := a - b;
    assert t * (b - a) == -(t * d);
    if d <= 0.0 {
      ProductNonNegative(t, -d);
    }
    t' := a / d;
    QuotientTimes(a, d);
    QuotientNonNegative(a, d);
    assert t' * (b - a) == -(t' * d);
    if t < t' {
      ProductStrict(t, t', d);
    }
  }

  lemma ShorterStepStaysInside(a: real, b: real, t: real, t': real)
    requires a > 0.0 && 0.0 <= t' <= t && Between(a, b, t) >= 0.0
    ensures Between(a, b, t') >= 0.0
  {
    if b < a {
      ProductMonotone(t', t, a - b);
      FlippedDifference(t', a, b);
      FlippedDifference(t, a, b);
    } else {
      ProductNonNegative(t', b - a);
    }
  }

  lemma FlippedDifference(t: real, a: real, b: real)
    ensures t * (b - a) == -(t * (a - b))
  {
  }

  /** The active set s has been tried: the normal equations have a solution z there, and if
      z is feasible the best error so far is no larger than its error. */
  ghost predicate Tried(rows: Matrix, y: Vec, scales: Vec, s: seq<nat>, bestError: real)
    requires Rectangular(rows, |scales|) && |rows| == |y|
    requires Positive(scales)
  {
    Combination(s, 0, |scales|)
    && exists z: Vec :: |z| == |s| && Optimal(Active(rows, scales, s), y, z)
         && (NonNegative(z) ==> bestError <= SquaredError(rows, y, Embed(z, s, scales)))
  }

  /** Coordinates of x in the active set's scaled variables. */
  ghost function Restrict(x: Vec, s: seq<nat>, scales: Vec): (w: Vec)
    requires |x| == |scales| && Combination(s, 0, |scales|)
    ensures |w| == |s| && forall l :: 0 <= l < |s| ==> w[l] == x[s[l]] * scales[s[l]]
  {
    seq(|s|, l requires 0 <= l < |s| => x[s[l]] * scales[s[l]])
  }

  lemma RestrictEmbedsAt(x: Vec, s: seq<nat>, scales: Vec, l: nat)
    requires |x| == |scales| && Combination(s, 0, |scales|) && Positive(scales) && l < |s|
    ensures Embed(Restrict(x, s, scales), s, scales)[s[l]] == x[s[l]]
  {
    hide EmbedTo;
    EmbedAt(Restrict(x, s, scales), s, scales, |s|, l);
    TimesQuotient(x[s[l]], scales[s[l]]);
  }

  lemma RestrictEmbeds(x: Vec, s: seq<nat>, scales: Vec)
    requires |x| == |scales| && Combination(s, 0, |scales|) && Positive(scales)
    requires forall c :: 0 <= c < |x| && c !in s ==> x[c] == 0.0
    ensures Embed(Restrict(x, s, scales), s, scales) == x
  {
    var e := Embed(Restrict(x, s, scales), s, scales);
    forall c | 0 <= c < |x| ensures e[c] == x[c] {
      if c in s {
        var l :| 0 <= l < |s| && s[l] == c;
        RestrictEmbedsAt(x, s, scales, l);
      } else {
        EmbedInactive(Restrict(x, s, scales), s, scales, |s|, c);
      }
    }
  }

  /** Moving w toward an optimal z never raises the error. */
  lemma MoveTowardOptimal(a: Matrix, y: Vec, w: Vec, z: Vec, t: real) returns (moved: Vec)
    requires Optimal(a, y, z) && |w| == |z| && 0.0 <= t <= 1.0
    ensures |moved| == |z| && forall l :: 0 <= l < |z| ==> moved[l] == Between(w[l], z[l], t)
    ensures SquaredError(a, y, moved) <= SquaredError(a, y, w)
  {
    var d, f := Subtract(z, 1.0, w), 1.0 - t;
    moved := Subtract(z, f, d);
    forall l | 0 <= l < |z| ensures moved[l] == Between(w[l], z[l], t) {
      var g := z[l] - w[l];
      assert (1.0 - t) * g == g - t * g;
    }
    assert w == Subtract(z, 1.0, d);
    OptimalErrorGrowth(a, y, z, 1.0, d);
    OptimalErrorGrowth(a, y, z, f, d);
    var e := EnergyTo(a, d, |a|);
    UnitProduct(f, f);
    ProductMonotone(f * f, 1.0, e);
  }

  lemma EmbedNonNegative(z: Vec, s: seq<nat>, scales: Vec)
    requires |z| == |s| && Combination(s, 0, |scales|) && Positive(scales) && NonNegative(z)
    ensures NonNegative(Embed(z, s, scales))
  {
    var x := Embed(z, s, scales);
    forall c | 0 <= c < |x| ensures x[c] >= 0.0 {
      if c in s {
        var l :| 0 <= l < |s| && s[l] == c;
        EmbedAt(z, s, scales, |s|, l);
        QuotientNonNegative(z[l], scales[c]);
      } else {
        EmbedInactive(z, s, scales, |s|, c);
      }
    }
  }

  /** A zero coordinate leaves the support. */
  lemma EmbedShrinksSupport(x: Vec, s: seq<nat>, z: Vec, scales: Vec, hit: nat)
    requires |x| == |scales| && s == SupportTo(x, |x|) && |z| == |s| && Positive(scales)
    requires hit < |s| && z[hit] == 0.0
    ensures |SupportTo(Embed(z, s, scales), |x|)| < |s|
  {
    var x' := Embed(z, s, scales);
    forall c | 0 <= c < |x| && x[c] == 0.0 ensures x'[c] == 0.0 {
      assert c !in s;
      EmbedInactive(z, s, scales, |s|, c);
    }
    EmbedAt(z, s, scales, |s|, hit);
    assert s[hit] in s;
    assert x[s[hit]] != 0.0 && x'[s[hit]] == 0.0;
    SupportShrinks(x, x', |x|);
  }

  /** From x with support s, either the solution z on s is feasible and at least as good, or
      moving toward z reaches a feasible x' with smaller support, at least as good. */
  lemma DescendOnce(rows: Matrix, y: Vec, scales: Vec, x: Vec, s: seq<nat>, z: Vec) returns (x': Vec)
    requires Rectangular(rows, |scales|) && |rows| == |y| && |x| == |scales| && NonNegative(x)
    requires Positive(scales)
    requires s == SupportTo(x, |x|) && |z| == |s| && Optimal(Active(rows, scales, s), y, z)
    ensures |x'| == |scales| && NonNegative(x')
    ensures SquaredError(rows, y, x') <= SquaredError(rows, y, x)
    ensures (NonNegative(z) && x' == Embed(z, s, scales)) || |SupportTo(x', |x|)| < |s|
  {
    var w := Restrict(x, s, scales);
    forall l | 0 <= l < |s| ensures w[l] > 0.0 {
      assert s[l] in s;
      ProductStrict(0.0, x[s[l]], scales[s[l]]);
    }
    var t, hit := FirstHit(w, z, |w|);
    var moved := MoveTowardOptimal(Active(rows, scales, s), y, w, z, t);
    x' := Embed(moved, s, scales);
    EmbedNonNegative(moved, s, scales);
    RestrictEmbeds(x, s, scales);
    EmbedError(rows, y, w, s, scales);
    EmbedError(rows, y, moved, s, scales);
    if t == 1.0 {
      assert moved == z;
    } else {
      EmbedShrinksSupport(x, s, moved, scales, hit);
    }
  }

  /** When every active set has been tried, no feasible vector beats the best error. */
  lemma {:induction false} NothingFeasibleIsBetter(rows: Matrix, y: Vec, scales: Vec, x: Vec, bestError: real)
    requires Rectangular(rows, |scales|) && |rows| == |y| && |x| == |scales| && NonNegative(x)
    requires Positive(scales)
    requires forall s :: |s| > 0 && Combination(s, 0, |scales|) ==> Tried(rows, y, scales, s, bestError)
    requires bestError <= SquaredError(rows, y, Zeros(|scales|))
    ensures bestError <= SquaredError(rows, y, x)
    decreases |SupportTo(x, |x|)|
  {
    var s := SupportTo(x, |x|);
    if s == [] {
      assert forall c :: 0 <= c < |x| ==> c !in s;
      assert x == Zeros(|scales|);
    } else {
      assert Tried(rows, y, scales, s, bestError);
      var z: Vec :| |z| == |s| && Optimal(Active(rows, scales, s), y, z)
        && (NonNegative(z) ==> bestError <= SquaredError(rows, y, Embed(z, s, scales)));
      var x' := DescendOnce(rows, y, scales, x, s, z);
      if |SupportTo(x', |x|)| < |s| {
        NothingFeasibleIsBetter(rows, y, scales, x', bestError);
      }
    }
  }

  // ----- The fit -----

  /** The loop that writes an active-set solution back into a full coefficient vector. */
  method WriteBack(solved: Vec, active: seq<nat>, scales: Vec) returns (candidate: Vec)
    requires |solved| == |active| && Combination(active, 0, |scales|) && NonNegative(solved)
    requires Positive(scales)
    ensures candidate == Embed(solved, active, scales) && NonNegative(candidate)
  {
    candidate := Zeros(|scales|);
    for l := 0 to |active|
      invariant candidate == EmbedTo(solved, active, scales, l) && NonNegative(candidate)
    {
      var quotient := solved[l] / scales[active[l]];
      assert quotient >= 0.0;
      candidate := candidate[active[l] := Max(0.0, quotient)];
    }
  }

  lemma TriedStays(rows: Matrix, y: Vec, scales: Vec, s: seq<nat>, e: real, e': real)
    requires Rectangular(rows, |scales|) && |rows| == |y|
    requires Positive(scales)
    requires Tried(rows, y, scales, s, e) && e' <= e
    ensures Tried(rows, y, scales, s, e')
  {
    var z: Vec :| |z| == |s| && Optimal(Active(rows, scales, s), y, z)
      && (NonNegative(z) ==> e <= SquaredError(rows, y, Embed(z, s, scales)));
  }

  /** One candidate of the enumeration: solve its Gram system and keep it if it is better. */
  method TryActive(rows: Matrix, values: Vec, scales: Vec, active: seq<nat>, best: Vec, bestError: real)
    returns (better: Vec, betterError: real)
    requires Rectangular(rows, |scales|) && |rows| == |values| && IndependentColumns(rows, |scales|)
    requires Positive(scales)
    requires Combination(active, 0, |scales|)
    requires |best| == |scales| && NonNegative(best) && bestError == SquaredError(rows, values, best)
    ensures |better| == |scales| && NonNegative(better)
    ensures betterError == SquaredError(rows, values, better) && betterError <= bestError
    ensures Tried(rows, values, scales, active, betterError)
  {
    better, betterError := best, bestError;
    var activeRows := Active(rows, scales, active);
    var gram := Gram(activeRows, |active|);
    var rhs := Moments(activeRows, values, |active|);
    ActiveIndependent(rows, active, scales);
    GramIndependent(activeRows, |active|);
    var solution := LinearSolve(gram, rhs);
    if solution == None {
      return;
    }
    var solved := solution.value;
    GramSolvesNormalEquations(activeRows, values, solved);
    if exists i :: 0 <= i < |solved| && solved[i] < 0.0 {
      return;
    }
    var candidate := WriteBack(solved, active, scales);
    var error := SquaredError(rows, values, candidate);
    if error < bestError {
      better, betterError := candidate, error;
    }
  }

  /** All candidates of one size, in order. */
  method TrySize(rows: Matrix, values: Vec, scales: Vec, size: nat, best: Vec, bestError: real)
    returns (better: Vec, betterError: real)
    requires Rectangular(rows, |scales|) && |rows| == |values| && IndependentColumns(rows, |scales|)
    requires Positive(scales)
    requires |best| == |scales| && NonNegative(best) && bestError == SquaredError(rows, values, best)
    ensures |better| == |scales| && NonNegative(better)
    ensures betterError == SquaredError(rows, values, better) && betterError <= bestError
    ensures forall s :: |s| == size && Combination(s, 0, |scales|) ==> Tried(rows, values, scales, s, betterError)
  {
    hide Tried, SumOfSquaresTo, Combinations;
    better, betterError := best, bestError;
    var candidates := Combinations(0, |scales|, size);
    for i := 0 to |candidates|
      invariant |better| == |scales| && NonNegative(better)
      invariant betterError == SquaredError(rows, values, better) && betterError <= bestError
      invariant forall k :: 0 <= k < i ==> Tried(rows, values, scales, candidates[k], betterError)
    {
      ghost var previous := betterError;
      better, betterError := TryActive(rows, values, scales, candidates[i], better, betterError);
      forall k | 0 <= k < i ensures Tried(rows, values, scales, candidates[k], betterError) {
        TriedStays(rows, values, scales, candidates[k], previous, betterError);
      }
    }
    forall s | |s| == size && Combination(s, 0, |scales|) ensures Tried(rows, values, scales, s, betterError) {
      var k := CombinationsComplete(0, |scales|, s);
      assert Tried(rows, values, scales, candidates[k], betterError);
    }
  }

  /** gas_savings._fit_nonnegative: refuses dependent columns, and otherwise returns
      non-negative coefficients whose squared error no non-negative vector beats. */
  method FitNonNegative(rows: Matrix, values: Vec) returns (fit: Fit)
    requires |rows| == |values| && |rows| > 0 && Rectangular(rows, |rows[0]|)
    ensures fit.LacksDiversity? <==> !IndependentColumns(rows, |rows[0]|)
    ensures fit.Fitted? ==> |fit.coefficients| == |rows[0]| && NonNegative(fit.coefficients)
    ensures fit.Fitted? ==>
      forall x: Vec :: |x| == |rows[0]| && NonNegative(x) ==>
        SquaredError(rows, values, fit.coefficients) <= SquaredError(rows, values, x)
  {
    var columns := |rows[0]|;
    var rank := ScaledRank(rows, columns);
    if rank < columns {
      return LacksDiversity;
    }
    var scales := Scales(rows, columns);
    IndependentScalesPositive(rows, columns);
    var best := Zeros(columns);
    var bestError := SquaredError(rows, values, best);
    for size := 1 to columns + 1
      invariant |best| == columns && NonNegative(best) && bestError == SquaredError(rows, values, best)
      invariant bestError <= SquaredError(rows, values, Zeros(columns))
      invariant forall s :: 0 < |s| < size && Combination(s, 0, columns) ==> Tried(rows, values, scales, s, bestError)
    {
      ghost var previous := bestError;
      best, bestError := TrySize(rows, values, scales, size, best, bestError);
      forall s | 0 < |s| < size && Combination(s, 0, columns) ensures Tried(rows, values, scales, s, bestError) {
        TriedStays(rows, values, scales, s, previous, bestError);
      }
    }
    forall s | |s| > 0 && Combination(s, 0, columns) ensures Tried(rows, values, scales, s, bestError) {
      CombinationFits(s, 0, columns);
    }
    forall x: Vec | |x| == columns && NonNegative(x)
      ensures SquaredError(rows, values, best) <= SquaredError(rows, values, x)
    {
      NothingFeasibleIsBetter(rows, values, scales, x, bestError);
    }
    return Fitted(best);
  }

  /** A combination has no more members than there are columns. */
  lemma {:induction false} CombinationFits(s: seq<nat>, from: nat, n: nat)
    requires Combination(s, from, n)
    ensures s == [] || |s| <= n - from
  {
    if |s| > 0 {
      CombinationFits(s[1..], s[0] + 1, n);
    }
  }
}
