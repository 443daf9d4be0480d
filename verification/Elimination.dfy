/** Gauss-Jordan elimination with partial pivoting, over exact reals with every
    numeric tolerance zero. One pivot step keeps the null space; that alone makes
    the rank test and the linear solver exact. */
module Elimination {
  import opened Options
  import opened RealArithmetic
  import opened LinearAlgebra

  /** Row i after rows k and p changed places, for i other than k. */
  function Displaced(m: Matrix, k: nat, p: nat, i: nat): Vec
    requires k < |m| && p < |m| && i < |m|
  {
    if i == p then m[k] else m[i]
  }

  /** One whole pivot step: swap rows k and p, make the pivot in column c one,
      and clear column c from every other row. */
  function Reduced(m: Matrix, k: nat, p: nat, c: nat, width: nat): (r: Matrix)
    requires Rectangular(m, width) && k < |m| && p < |m| && c < width && m[p][c] != 0.0
    ensures |r| == |m| && Rectangular(r, width)
  {
    var pivot := Divided(m[p], m[p][c]);
    seq(|m|, i requires 0 <= i < |m| =>
      if i == k then pivot else Subtract(Displaced(m, k, p, i), Displaced(m, k, p, i)[c], pivot))
  }

  lemma ReducedRowDot(m: Matrix, k: nat, p: nat, c: nat, v: Vec, i: nat)
    requires Rectangular(m, |v|) && k < |m| && p < |m| && c < |v| && m[p][c] != 0.0 && i < |m|
    ensures Dot(Reduced(m, k, p, c, |v|)[k], v) == Dot(m[p], v) / m[p][c]
    ensures i != k ==>
      Dot(Reduced(m, k, p, c, |v|)[i], v)
        == Dot(Displaced(m, k, p, i), v) - Times(Displaced(m, k, p, i)[c], Dot(m[p], v) / m[p][c])
  {
    var pivot := Divided(m[p], m[p][c]);
    DotToDivided(m[p], m[p][c], v, |v|);
    if i != k {
      DotToSubtract(Displaced(m, k, p, i), Displaced(m, k, p, i)[c], pivot, v, |v|);
    }
  }

  /** A pivot step neither gains nor loses null vectors. */
  lemma PivotKeepsNullSpace(m: Matrix, k: nat, p: nat, c: nat, v: Vec)
    requires Rectangular(m, |v|) && k < |m| && p < |m| && c < |v| && m[p][c] != 0.0
    ensures Annihilates(Reduced(m, k, p, c, |v|), v) <==> Annihilates(m, v)
  {
    var r := Reduced(m, k, p, c, |v|);
    if Annihilates(m, v) {
      forall i | 0 <= i < |m| ensures Dot(r[i], v) == 0.0 {
        ReducedRowDot(m, k, p, c, v, i);
        assert Dot(m[p], v) == 0.0 && Dot(Displaced(m, k, p, i), v) == 0.0;
      }
    }
    if Annihilates(r, v) {
      ReducedRowDot(m, k, p, c, v, k);
      var q, d := Dot(m[p], v), m[p][c];
      assert q / d == 0.0;
      assert q == (q / d) * d;
      forall i | 0 <= i < |m| && i != p ensures Dot(m[i], v) == 0.0 {
        var j := if i == k then p else i;
        ReducedRowDot(m, k, p, c, v, j);
        assert Displaced(m, k, p, j) == m[i];
      }
    }
  }

  /** The first c columns are those of the identity matrix. */
  ghost predicate Echelon(m: Matrix, c: nat, width: nat) {
    Rectangular(m, width) && c <= width && c <= |m|
    && forall i, j :: 0 <= i < |m| && 0 <= j < c ==> m[i][j] == if i == j then 1.0 else 0.0
  }

  lemma PivotExtendsEchelon(m: Matrix, p: nat, c: nat, width: nat)
    requires Echelon(m, c, width) && c <= p < |m| && c < width && m[p][c] != 0.0
    ensures Echelon(Reduced(m, c, p, c, width), c + 1, width)
  {
    var r := Reduced(m, c, p, c, width);
    forall i, j | 0 <= i < |m| && 0 <= j < c + 1
      ensures r[i][j] == if i == j then 1.0 else 0.0
    {
      var pivot := Divided(m[p], m[p][c]);
      assert j < c ==> m[p][j] == 0.0 && pivot[j] == 0.0;
      var d := m[p][c];
      assert pivot[c] == d / d == 1.0;
      if i != c {
        var row := Displaced(m, c, p, i);
        assert r[i][j] == row[j] - row[c] * pivot[j];
        assert j < c ==> row[c] * pivot[j] == 0.0;
      }
    }
  }

  /** A column without a pivot yields a nonzero null vector. */
  lemma MissingPivotDependence(m: Matrix, c: nat, width: nat) returns (v: Vec)
    requires Echelon(m, c, width) && c < width
    requires forall i :: c <= i < |m| ==> m[i][c] == 0.0
    ensures |v| == width && Annihilates(m, v) && !IsZero(v)
    ensures v[c] == 1.0 && forall j :: c < j < width ==> v[j] == 0.0
  {
    v := seq(width, j requires 0 <= j < width => if j < c then -m[j][c] else if j == c then 1.0 else 0.0);
    forall i | 0 <= i < |m| ensures Dot(m[i], v) == 0.0 {
      if i < c {
        DotToPicks(m[i], v, i, c, width);
        TimesZero(v[i]);
        TimesZero(m[i][c]);
      } else {
        DotToZero(m[i], v, width);
      }
    }
    assert v[c] == 1.0;
  }

  /** The row at or below `from` whose entry in the column is largest in size. */
  method PivotRow(m: Matrix, from: nat, column: nat, ghost width: nat) returns (pivot: nat)
    requires Rectangular(m, width) && from < |m| && column < width
    ensures from <= pivot < |m|
    ensures forall i :: from <= i < |m| ==> Abs(m[i][column]) <= Abs(m[pivot][column])
  {
    pivot := from;
    for row := from + 1 to |m|
      invariant from <= pivot < |m|
      invariant forall i :: from <= i < row ==> Abs(m[i][column]) <= Abs(m[pivot][column])
    {
      if Abs(m[row][column]) > Abs(m[pivot][column]) {
        pivot := row;
      }
    }
  }

  /** Swap, normalise and clear, as the three statements of both elimination loops do. */
  method PivotStep(m: Matrix, k: nat, p: nat, c: nat, ghost width: nat) returns (r: Matrix)
    requires Rectangular(m, width) && k < |m| && p < |m| && c < width && m[p][c] != 0.0
    ensures r == Reduced(m, k, p, c, width)
  {
    ghost var goal := Reduced(m, k, p, c, width);
    r := m[k := m[p]][p := m[k]];
    if p == k { assert r == m; }
    var divisor := r[k][c];
    r := r[k := Divided(r[k], divisor)];
    for row := 0 to |m|
      invariant |r| == |m| && r[k] == goal[k]
      invariant forall i :: 0 <= i < row ==> r[i] == goal[i]
      invariant forall i :: row <= i < |m| && i != k ==> r[i] == Displaced(m, k, p, i)
    {
      if row == k {
        continue;
      }
      var factor := r[row][c];
      r := r[row := Subtract(r[row], factor, r[k])];
    }
    assert r == goal;
  }

  lemma PivotKeepsEquivalence(original: Matrix, m: Matrix, k: nat, p: nat, c: nat, width: nat)
    requires Rectangular(m, width) && k < |m| && p < |m| && c < width && m[p][c] != 0.0
    requires forall v: Vec :: |v| == width ==> (Annihilates(original, v) <==> Annihilates(m, v))
    ensures forall v: Vec :: |v| == width ==>
      (Annihilates(original, v) <==> Annihilates(Reduced(m, k, p, c, width), v))
  {
    forall v: Vec | |v| == width
      ensures Annihilates(original, v) <==> Annihilates(Reduced(m, k, p, c, width), v)
    {
      PivotKeepsNullSpace(m, k, p, c, v);
    }
  }

  // ----- Solving a square system -----

  function Augment(matrix: Matrix, rhs: Vec): (m: Matrix)
    requires |matrix| == |rhs| && Rectangular(matrix, |rhs|)
    ensures |m| == |matrix| && Rectangular(m, |rhs| + 1)
  {
    seq(|matrix|, r requires 0 <= r < |matrix| => matrix[r] + [rhs[r]])
  }

  /** (x, t) is annihilated by the augmented matrix exactly when matrix x = -t rhs. */
  lemma AugmentDot(matrix: Matrix, rhs: Vec, x: Vec, t: real)
    requires |matrix| == |rhs| && Rectangular(matrix, |rhs|) && |x| == |rhs|
    ensures forall r :: 0 <= r < |rhs| ==>
      Dot(Augment(matrix, rhs)[r], x + [t]) == Dot(matrix[r], x) + Times(rhs[r], t)
  {
    hide Times;
    forall r | 0 <= r < |rhs|
      ensures Dot(Augment(matrix, rhs)[r], x + [t]) == Dot(matrix[r], x) + Times(rhs[r], t)
    {
      DotToAgree(Augment(matrix, rhs)[r], x + [t], matrix[r], x, |x|);
    }
  }

  lemma SquareIndependence(matrix: Matrix, rhs: Vec, m: Matrix)
    requires |matrix| == |rhs| && Rectangular(matrix, |rhs|)
    requires Echelon(m, |rhs|, |rhs| + 1)
    requires forall v: Vec :: |v| == |rhs| + 1 ==> (Annihilates(Augment(matrix, rhs), v) <==> Annihilates(m, v))
    ensures IndependentColumns(matrix, |rhs|)
  {
    hide Times, DotTo;
    var n := |rhs|;
    forall v: Vec | |v| == n && Annihilates(matrix, v) ensures IsZero(v) {
      AugmentDot(matrix, rhs, v, 0.0);
      forall r | 0 <= r < n ensures Times(rhs[r], 0.0) == 0.0 {
        TimesZero(rhs[r]);
      }
      var w := v + [0.0];
      assert Annihilates(Augment(matrix, rhs), w);
      assert Annihilates(m, w);
      forall i | 0 <= i < n ensures v[i] == 0.0 {
        DotToPicksOne(m[i], w, i, n + 1);
        TimesZero(w[i]);
        assert Dot(m[i], w) == 0.0;
      }
    }
  }

  lemma SquareDependence(matrix: Matrix, rhs: Vec, m: Matrix, c: nat)
    requires |matrix| == |rhs| && Rectangular(matrix, |rhs|)
    requires Echelon(m, c, |rhs| + 1) && c < |rhs| && forall i :: c <= i < |m| ==> m[i][c] == 0.0
    requires forall v: Vec :: |v| == |rhs| + 1 ==> (Annihilates(Augment(matrix, rhs), v) <==> Annihilates(m, v))
    ensures !IndependentColumns(matrix, |rhs|)
  {
    var n := |rhs|;
    var w := MissingPivotDependence(m, c, n + 1);
    assert Annihilates(Augment(matrix, rhs), w);
    AugmentDot(matrix, rhs, w[..n], w[n]);
    forall r | 0 <= r < n ensures Times(rhs[r], w[n]) == 0.0 {
      TimesZero(rhs[r]);
    }
    assert w == w[..n] + [w[n]];
  }

  lemma SolutionReadOff(matrix: Matrix, rhs: Vec, m: Matrix, x: Vec)
    requires |matrix| == |rhs| == |x| && Rectangular(matrix, |rhs|)
    requires Echelon(m, |rhs|, |rhs| + 1) && |m| == |rhs|
    requires forall v: Vec :: |v| == |rhs| + 1 ==> (Annihilates(Augment(matrix, rhs), v) <==> Annihilates(m, v))
    requires forall i :: 0 <= i < |rhs| ==> x[i] == m[i][|rhs|]
    ensures forall r :: 0 <= r < |rhs| ==> Dot(matrix[r], x) == rhs[r]
  {
    var w := x + [-1.0];
    LastColumnAnnihilated(m, x);
    hide Times, DotTo, Echelon, IndependentColumns;
    AugmentDot(matrix, rhs, x, -1.0);
    forall r | 0 <= r < |rhs| ensures Dot(matrix[r], x) == rhs[r] {
      assert Dot(Augment(matrix, rhs)[r], w) == 0.0;
      TimesMinusOne(rhs[r]);
    }
  }

  /** What a fully reduced matrix says of its last column. */
  lemma LastColumnAnnihilated(m: Matrix, x: Vec)
    requires Echelon(m, |x|, |x| + 1) && |m| == |x|
    requires forall i :: 0 <= i < |x| ==> x[i] == m[i][|x|]
    ensures Annihilates(m, x + [-1.0])
  {
    hide Times, DotTo;
    var w := x + [-1.0];
    forall i | 0 <= i < |x| ensures Dot(m[i], w) == 0.0 {
      DotToPicks(m[i], w, i, |x|, |x| + 1);
      TimesZero(w[i]);
      TimesMinusOne(m[i][|x|]);
    }
  }

  /** gas_savings._linear_solve: sound, and without an answer exactly on singular matrices. */
  method LinearSolve(matrix: Matrix, rhs: Vec) returns (solution: Option<Vec>)
    requires |matrix| == |rhs| && Rectangular(matrix, |rhs|)
    ensures solution.Some? ==>
      |solution.value| == |rhs| && forall r :: 0 <= r < |rhs| ==> Dot(matrix[r], solution.value) == rhs[r]
    ensures solution.Some? <==> IndependentColumns(matrix, |rhs|)
  {
    var size := |rhs|;
    var augmented := Augment(matrix, rhs);
    for column := 0 to size
      invariant |augmented| == size && Echelon(augmented, column, size + 1)
      invariant forall v: Vec :: |v| == size + 1 ==>
        (Annihilates(Augment(matrix, rhs), v) <==> Annihilates(augmented, v))
    {
      var pivot := PivotRow(augmented, column, column, size + 1);
      if Abs(augmented[pivot][column]) <= 0.0 {
        SquareDependence(matrix, rhs, augmented, column);
        return None;
      }
      PivotKeepsEquivalence(Augment(matrix, rhs), augmented, column, pivot, column, size + 1);
      PivotExtendsEchelon(augmented, pivot, column, size + 1);
      augmented := PivotStep(augmented, column, pivot, column, size + 1);
    }
    var answer := seq(size, i requires 0 <= i < size => augmented[i][size]);
    SquareIndependence(matrix, rhs, augmented);
    SolutionReadOff(matrix, rhs, augmented, answer);
    return Some(answer);
  }
}
