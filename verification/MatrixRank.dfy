/** The two rank tests of the gas analytics, in exact arithmetic: both return the size of a
    largest independent set of columns. */
module MatrixRank {
  import opened RealArithmetic
  import opened LinearAlgebra
  import opened ColumnSets
  import opened Elimination

  // ----- Column scaling -----

  /** The largest absolute value in a column. */
  function ColumnScale(rows: Matrix, column: nat, width: nat): (s: real)
    requires Rectangular(rows, width) && column < width
    ensures s >= 0.0 && forall r :: 0 <= r < |rows| ==> Abs(rows[r][column]) <= s
  {
    if rows == [] then 0.0
    else
      var rest := ColumnScale(rows[1..], column, width);
      assert forall r :: 0 < r < |rows| ==> rows[r] == rows[1..][r - 1];
      if Abs(rows[0][column]) > rest then Abs(rows[0][column]) else rest
  }

  function Scales(rows: Matrix, width: nat): (s: Vec)
    requires Rectangular(rows, width)
    ensures |s| == width && forall c :: 0 <= c < width ==> s[c] == ColumnScale(rows, c, width)
  {
    seq(width, c requires 0 <= c < width => ColumnScale(rows, c, width))
  }

  /** Each entry over its column's scale; an all-zero column stays zero. */
  function Scaled(rows: Matrix, s: Vec): (m: Matrix)
    requires Rectangular(rows, |s|)
    ensures |m| == |rows| && Rectangular(m, |s|)
    ensures forall r, c :: 0 <= r < |rows| && 0 <= c < |s| ==>
      m[r][c] == if s[c] != 0.0 then rows[r][c] / s[c] else 0.0
  {
    seq(|rows|, r requires 0 <= r < |rows| =>
      seq(|s|, c requires 0 <= c < |s| => if s[c] != 0.0 then rows[r][c] / s[c] else 0.0))
  }

  lemma {:induction false} DotToRescaled(a: Vec, b: Vec, v: Vec, w: Vec, k: nat)
    requires k <= |a| && k <= |b| && k <= |v| && k <= |w|
    requires forall i :: 0 <= i < k ==> Times(a[i], v[i]) == Times(b[i], w[i])
    ensures DotTo(a, v, k) == DotTo(b, w, k)
  {
    if k > 0 {
      DotToRescaled(a, b, v, w, k - 1);
    }
  }

  lemma RescaledNullVectors(rows: Matrix, m: Matrix, s: Vec, v: Vec, w: Vec)
    requires |m| == |rows| && |v| == |w| == |s| && Rectangular(rows, |s|) && Rectangular(m, |s|)
    requires forall c :: 0 <= c < |s| ==> s[c] != 0.0 && v[c] == w[c] * s[c]
    requires forall r, c :: 0 <= r < |rows| && 0 <= c < |s| ==> m[r][c] == rows[r][c] / s[c]
    ensures Annihilates(m, v) <==> Annihilates(rows, w)
  {
    forall r | 0 <= r < |rows| ensures Dot(m[r], v) == Dot(rows[r], w) {
      forall c | 0 <= c < |s| ensures Times(m[r][c], v[c]) == Times(rows[r][c], w[c]) {
        QuotientMoves(rows[r][c], s[c], v[c]);
        var y, z := s[c], w[c];
        assert (z * y) / y == z;
      }
      DotToRescaled(m[r], rows[r], v, w, |s|);
    }
  }

  lemma Quotients(v: Vec, s: Vec) returns (w: Vec)
    requires |v| == |s| && forall c :: 0 <= c < |s| ==> s[c] != 0.0
    ensures |w| == |v| && forall c :: 0 <= c < |v| ==> v[c] == w[c] * s[c]
  {
    w := seq(|v|, c requires 0 <= c < |v| => v[c] / s[c]);
    forall c | 0 <= c < |v| ensures v[c] == w[c] * s[c] {
      var y, z := s[c], v[c];
      assert z == (z / y) * y;
    }
  }

  lemma RescalingKeepsIndependence(rows: Matrix, m: Matrix, s: Vec, columns: set<nat>)
    requires |m| == |rows| && Rectangular(rows, |s|) && Rectangular(m, |s|)
    requires forall c :: 0 <= c < |s| ==> s[c] != 0.0
    requires forall r, c :: 0 <= r < |rows| && 0 <= c < |s| ==> m[r][c] == rows[r][c] / s[c]
    requires IndependentAmong(rows, |s|, columns)
    ensures IndependentAmong(m, |s|, columns)
  {
    var n := |s|;
    forall v: Vec | |v| == n && Supported(v, columns) && Annihilates(m, v) ensures IsZero(v) {
      var w := Quotients(v, s);
      RescaledNullVectors(rows, m, s, v, w);
      forall c | 0 <= c < n ensures v[c] == 0.0 <==> w[c] == 0.0 {
        ZeroProductIff(v[c], w[c], s[c]);
      }
      assert IsZero(w);
    }
  }

  lemma RescalingReflectsIndependence(rows: Matrix, m: Matrix, s: Vec, columns: set<nat>)
    requires |m| == |rows| && Rectangular(rows, |s|) && Rectangular(m, |s|)
    requires forall c :: 0 <= c < |s| ==> s[c] != 0.0
    requires forall r, c :: 0 <= r < |rows| && 0 <= c < |s| ==> m[r][c] == rows[r][c] / s[c]
    requires IndependentAmong(m, |s|, columns)
    ensures IndependentAmong(rows, |s|, columns)
  {
    var n := |s|;
    forall w: Vec | |w| == n && Supported(w, columns) && Annihilates(rows, w) ensures IsZero(w) {
      var v := seq(n, c requires 0 <= c < n => w[c] * s[c]);
      RescaledNullVectors(rows, m, s, v, w);
      forall c | 0 <= c < n ensures v[c] == 0.0 <==> w[c] == 0.0 {
        ZeroProductIff(v[c], w[c], s[c]);
      }
      assert IsZero(v);
    }
  }

  lemma ZeroProductIff(v: real, w: real, s: real)
    requires v == w * s && s != 0.0
    ensures v == 0.0 <==> w == 0.0
  {
  }

  /** Dividing columns by nonzero factors changes no independence. */
  lemma RescaledIndependence(rows: Matrix, m: Matrix, s: Vec, columns: set<nat>)
    requires |m| == |rows| && Rectangular(rows, |s|) && Rectangular(m, |s|)
    requires forall c :: 0 <= c < |s| ==> s[c] != 0.0
    requires forall r, c :: 0 <= r < |rows| && 0 <= c < |s| ==> m[r][c] == rows[r][c] / s[c]
    ensures IndependentAmong(rows, |s|, columns) <==> IndependentAmong(m, |s|, columns)
  {
    if IndependentAmong(rows, |s|, columns) {
      RescalingKeepsIndependence(rows, m, s, columns);
    }
    if IndependentAmong(m, |s|, columns) {
      RescalingReflectsIndependence(rows, m, s, columns);
    }
  }

  lemma ScaledIndependence(rows: Matrix, width: nat, columns: set<nat>)
    requires Rectangular(rows, width)
    ensures IndependentAmong(rows, width, columns)
      <==> IndependentAmong(Scaled(rows, Scales(rows, width)), width, columns)
  {
    var s := Scales(rows, width);
    var s' := seq(width, c requires 0 <= c < width => if s[c] == 0.0 then 1.0 else s[c]);
    var m := Scaled(rows, s);
    forall r, c | 0 <= r < |rows| && 0 <= c < width ensures m[r][c] == rows[r][c] / s'[c] {
      assert Abs(rows[r][c]) <= s[c];
    }
    RescaledIndependence(rows, m, s', columns);
  }

  lemma ScaledLargest(rows: Matrix, width: nat, rank: nat)
    requires Rectangular(rows, width) && LargestIndependent(Scaled(rows, Scales(rows, width)), width, rank)
    ensures LargestIndependent(rows, width, rank)
  {
    forall columns: set<nat> | columns <= ColumnsBelow(width)
      ensures IndependentAmong(rows, width, columns)
        <==> IndependentAmong(Scaled(rows, Scales(rows, width)), width, columns)
    {
      ScaledIndependence(rows, width, columns);
    }
    hide IndependentAmong, Scaled, Scales, ColumnsBelow;
  }

  /** A zero scale marks a zero column, hence dependence. */
  lemma IndependentScalesPositive(rows: Matrix, width: nat)
    requires Rectangular(rows, width) && IndependentColumns(rows, width)
    ensures forall c :: 0 <= c < width ==> Scales(rows, width)[c] > 0.0
  {
    var s := Scales(rows, width);
    forall c | 0 <= c < width ensures s[c] > 0.0 {
      if s[c] <= 0.0 {
        var v := Zeros(width)[c := 1.0];
        assert v[c] == 1.0;
        forall r | 0 <= r < |rows| ensures Dot(rows[r], v) == 0.0 {
          assert Abs(rows[r][c]) <= s[c];
          DotToZero(rows[r], v, width);
        }
        assert Annihilates(rows, v);
        assert false;
      }
    }
  }

  // ----- The tests -----

  /** Rows from `rank` on are zero to the left of the column being processed. */
  ghost predicate LowerZeros(m: Matrix, rank: nat, column: nat, width: nat) {
    Rectangular(m, width)
    && forall i, j :: rank <= i < |m| && 0 <= j < column && j < width ==> m[i][j] == 0.0
  }

  lemma PivotKeepsLowerZeros(m: Matrix, rank: nat, pivot: nat, column: nat, width: nat)
    requires LowerZeros(m, rank, column, width) && rank <= pivot < |m| && column < width
    requires m[pivot][column] != 0.0
    ensures LowerZeros(Reduced(m, rank, pivot, column, width), rank + 1, column + 1, width)
  {
    var r := Reduced(m, rank, pivot, column, width);
    forall i, j | rank + 1 <= i < |m| && 0 <= j < column + 1 && j < width ensures r[i][j] == 0.0 {
      var x := Displaced(m, rank, pivot, i);
      assert j < column ==> m[pivot][j] == 0.0 && x[j] == 0.0;
      EntryCleared(x, m[pivot], column, j);
    }
  }

  /** Clearing a column makes its entry zero and leaves zeros before it. */
  lemma EntryCleared(x: Vec, pivot: Vec, column: nat, j: nat)
    requires j <= column < |x| == |pivot| && pivot[column] != 0.0
    requires j < column ==> pivot[j] == 0.0 && x[j] == 0.0
    ensures Subtract(x, x[column], Divided(pivot, pivot[column]))[j] == 0.0
  {
    if j == column {
      ClearsItself(x[column], pivot[column]);
    } else {
      ClearsNothing(x[column], pivot[column]);
    }
  }

  lemma ClearsItself(a: real, d: real)
    requires d != 0.0
    ensures a - a * (d / d) == 0.0
  {
    assert d / d == 1.0;
  }

  lemma ClearsNothing(a: real, d: real)
    requires d != 0.0
    ensures 0.0 - a * (0.0 / d) == 0.0
  {
    assert 0.0 / d == 0.0;
  }

  /** What the elimination loops keep: the pivot columns are unit columns, in order, the other
      rows are zero so far, and nothing has changed about which vectors are annihilated. */
  ghost predicate Pivoted(original: Matrix, m: Matrix, pivots: seq<nat>, column: nat, width: nat) {
    |m| == |original| && Rectangular(original, width) && |pivots| <= |m| && column <= width
    && LowerZeros(m, |pivots|, column, width)
    && (forall k :: 0 <= k < |pivots| ==> pivots[k] < column)
    && (forall i, k :: 0 <= i < |m| && 0 <= k < |pivots| ==> m[i][pivots[k]] == if i == k then 1.0 else 0.0)
    && forall v: Vec :: |v| == width ==> (Annihilates(original, v) <==> Annihilates(m, v))
  }

  lemma NothingPivoted(m: Matrix, width: nat)
    requires Rectangular(m, width)
    ensures Pivoted(m, m, [], 0, width)
  {
  }

  lemma PivotSkipped(original: Matrix, m: Matrix, pivots: seq<nat>, column: nat, width: nat)
    requires Pivoted(original, m, pivots, column, width) && column < width
    requires forall i :: |pivots| <= i < |m| ==> m[i][column] == 0.0
    ensures Pivoted(original, m, pivots, column + 1, width)
  {
    hide Annihilates;
  }

  lemma PivotTaken(original: Matrix, m: Matrix, pivots: seq<nat>, pivot: nat, column: nat, width: nat)
    requires Pivoted(original, m, pivots, column, width) && column < width
    requires |pivots| <= pivot < |m| && m[pivot][column] != 0.0
    ensures Pivoted(original, Reduced(m, |pivots|, pivot, column, width), pivots + [column], column + 1, width)
  {
    var rank := |pivots|;
    PivotKeepsEquivalence(original, m, rank, pivot, column, width);
    PivotKeepsLowerZeros(m, rank, pivot, column, width);
    hide Annihilates, LowerZeros;
    forall i, k | 0 <= i < |m| && 0 <= k < rank + 1
      ensures Reduced(m, rank, pivot, column, width)[i][(pivots + [column])[k]] == if i == k then 1.0 else 0.0
    {
      UnitColumn(m, pivots, pivot, column, width, i, k);
    }
  }

  /** A pivot step keeps the unit columns and makes another. */
  lemma UnitColumn(m: Matrix, pivots: seq<nat>, pivot: nat, column: nat, width: nat, i: nat, k: nat)
    requires Rectangular(m, width) && |pivots| <= pivot < |m| && column < width && m[pivot][column] != 0.0
    requires i < |m| && k <= |pivots| && forall l :: 0 <= l < |pivots| ==> pivots[l] < column
    requires forall i, l :: 0 <= i < |m| && 0 <= l < |pivots| ==> m[i][pivots[l]] == if i == l then 1.0 else 0.0
    ensures Reduced(m, |pivots|, pivot, column, width)[i][(pivots + [column])[k]] == if i == k then 1.0 else 0.0
  {
    var rank, d := |pivots|, m[pivot][column];
    var x := Displaced(m, rank, pivot, i);
    if k == rank {
      ClearsItself(x[column], d);
    } else {
      UnitEntry(x[column], x[pivots[k]], d);
    }
  }

  lemma UnitEntry(f: real, x: real, d: real)
    requires d != 0.0
    ensures x - f * (0.0 / d) == x && 0.0 / d == 0.0
  {
    assert 0.0 / d == 0.0;
  }

  ghost function PivotSet(pivots: seq<nat>): set<nat> {
    set k | 0 <= k < |pivots| :: pivots[k]
  }

  lemma {:induction false} PivotCount(pivots: seq<nat>)
    requires forall k, l :: 0 <= k < l < |pivots| ==> pivots[k] != pivots[l]
    ensures |PivotSet(pivots)| == |pivots|
  {
    if pivots != [] {
      var front, last := pivots[..|pivots| - 1], pivots[|pivots| - 1];
      PivotCount(front);
      assert PivotSet(pivots) == PivotSet(front) + {last};
    }
  }

  lemma PivotsDiffer(original: Matrix, m: Matrix, pivots: seq<nat>, column: nat, width: nat)
    requires Pivoted(original, m, pivots, column, width)
    ensures |PivotSet(pivots)| == |pivots| && PivotSet(pivots) <= ColumnsBelow(width)
  {
    forall k, l | 0 <= k < l < |pivots| ensures pivots[k] != pivots[l] {
      assert m[k][pivots[k]] == 1.0 && m[k][pivots[l]] == 0.0;
    }
    PivotCount(pivots);
  }

  /** The pivot columns are independent. */
  lemma PivotsIndependent(original: Matrix, m: Matrix, pivots: seq<nat>, column: nat, width: nat)
    requires Pivoted(original, m, pivots, column, width)
    ensures IndependentAmong(original, width, PivotSet(pivots))
  {
    forall v: Vec | |v| == width && Supported(v, PivotSet(pivots)) && Annihilates(original, v) ensures IsZero(v) {
      assert Annihilates(m, v);
      forall k | 0 <= k < |pivots| ensures v[pivots[k]] == 0.0 {
        DotToPicksOne(m[k], v, pivots[k], width);
        TimesZero(v[pivots[k]]);
        assert Dot(m[k], v) == 0.0;
      }
    }
  }

  /** No larger set of columns is: it is wider than the rows that are not zero. */
  lemma LargerIsDependent(original: Matrix, m: Matrix, pivots: seq<nat>, column: nat, width: nat, columns: set<nat>)
    requires Pivoted(original, m, pivots, column, width) && (column == width || |pivots| == |m|)
    requires columns <= ColumnsBelow(width) && |columns| > |pivots|
    ensures !IndependentAmong(original, width, columns)
  {
    var rank := |pivots|;
    var v := WideIsDependent(m[..rank], width, columns);
    forall i | 0 <= i < |m| ensures Dot(m[i], v) == 0.0 {
      if i < rank {
        assert m[..rank][i] == m[i];
      } else {
        DotToZero(m[i], v, width);
      }
    }
    assert Annihilates(m, v);
  }

  lemma PivotsAreRank(original: Matrix, m: Matrix, pivots: seq<nat>, column: nat, width: nat)
    requires Pivoted(original, m, pivots, column, width) && (column == width || |pivots| == |m|)
    ensures LargestIndependent(original, width, |pivots|)
  {
    PivotsDiffer(original, m, pivots, column, width);
    PivotsIndependent(original, m, pivots, column, width);
    forall columns: set<nat> | columns <= ColumnsBelow(width) && |columns| > |pivots|
      ensures !IndependentAmong(original, width, columns)
    {
      LargerIsDependent(original, m, pivots, column, width, columns);
    }
    hide IndependentAmong, Pivoted;
  }

  /** Without rows every vector is annihilated. */
  lemma NoRows(width: nat)
    ensures LargestIndependent([], width, 0)
  {
    NothingPivoted([], width);
    PivotsAreRank([], [], [], 0, width);
  }

  /** The two conditions of the skipping branch. */
  lemma NoPivot(m: Matrix, rank: nat, column: nat, pivot: nat)
    requires rank <= pivot < |m| && forall i :: 0 <= i < |m| ==> column < |m[i]|
    requires (forall i :: rank <= i < |m| ==> Abs(m[i][column]) <= Abs(m[pivot][column]))
      && Abs(m[pivot][column]) <= 0.0
    ensures forall i :: rank <= i < |m| ==> m[i][column] == 0.0
  {
  }

  /** gas_savings._matrix_rank, which scales the columns first. */
  method ScaledRank(rows: Matrix, ghost width: nat) returns (rank: nat)
    requires Rectangular(rows, width)
    ensures LargestIndependent(rows, width, rank)
    ensures rank <= width && (rank == width <==> IndependentColumns(rows, width))
  {
    if rows == [] {
      NoRows(width);
      FullRank([], width, 0);
      return 0;
    }
    var columns := |rows[0]|;
    var scales := Scales(rows, columns);
    var matrix := Scaled(rows, scales);
    ghost var scaled, pivots: seq<nat> := matrix, [];
    NothingPivoted(scaled, width);
    rank := 0;
    var column := 0;
    hide Pivoted, LargestIndependent, IndependentColumns, Scaled, Scales, Reduced;
    while column < columns
      invariant Pivoted(scaled, matrix, pivots, column, width) && rank == |pivots| && column <= columns
      invariant Rectangular(matrix, width) && |matrix| == |scaled|
      decreases columns - column
    {
      if rank >= |matrix| {
        break;
      }
      var pivot := PivotRow(matrix, rank, column, width);
      if Abs(matrix[pivot][column]) <= 0.0 {
        NoPivot(matrix, rank, column, pivot);
        PivotSkipped(scaled, matrix, pivots, column, width);
        column := column + 1;
        continue;
      }
      PivotTaken(scaled, matrix, pivots, pivot, column, width);
      matrix := PivotStep(matrix, rank, pivot, column, width);
      pivots := pivots + [column];
      rank, column := rank + 1, column + 1;
      if rank == |matrix| {
        break;
      }
    }
    PivotsBound(scaled, matrix, pivots, column, width);
    PivotsAreRank(scaled, matrix, pivots, column, width);
    ScaledLargest(rows, width, rank);
    FullRank(rows, width, rank);
  }

  lemma PivotsBound(original: Matrix, m: Matrix, pivots: seq<nat>, column: nat, width: nat)
    requires Pivoted(original, m, pivots, column, width)
    ensures |pivots| <= |m|
  {
  }

  /** Row i of m while columns from..j of it have been reduced in place by the pivot row. */
  ghost predicate PartlySubtracted(row: Vec, before: Vec, factor: real, pivot: Vec, from: nat, j: nat) {
    |row| == |before| == |pivot| && from <= j <= |row|
    && forall k :: 0 <= k < |row| ==> row[k] == if from <= k < j then before[k] - factor * pivot[k] else before[k]
  }

  /** The in-place row update of gas._matrix_rank, which leaves the columns before the pivot
      alone: they are zero in the pivot row, so the whole row operation is the same. */
  method SubtractFrom(row: Vec, factor: real, pivot: Vec, from: nat) returns (r: Vec)
    requires |row| == |pivot| && from <= |row|
    requires forall k :: 0 <= k < from ==> pivot[k] == 0.0
    ensures r == Subtract(row, factor, pivot)
  {
    r := row;
    for j := from to |row|
      invariant PartlySubtracted(r, row, factor, pivot, from, j)
    {
      r := r[j := r[j] - factor * pivot[j]];
    }
  }

  method DivideFrom(row: Vec, divisor: real, from: nat) returns (r: Vec)
    requires divisor != 0.0 && from <= |row|
    requires forall k :: 0 <= k < from ==> row[k] == 0.0
    ensures r == Divided(row, divisor)
  {
    r := row;
    for j := from to |row|
      invariant |r| == |row|
      invariant forall k :: 0 <= k < |r| ==> r[k] == if from <= k < j then row[k] / divisor else row[k]
    {
      r := r[j := r[j] / divisor];
    }
  }

  lemma SubtractNothing(a: Vec, f: real, b: Vec)
    requires |a| == |b| && f == 0.0
    ensures Subtract(a, f, b) == a
  {
    assert forall j :: 0 <= j < |a| ==> f * b[j] == 0.0;
  }

  /** One row of the clearing loop; a row already zero in the pivot column is skipped. */
  method ClearRow(row: Vec, pivot: Vec, c: nat) returns (r: Vec)
    requires |row| == |pivot| && c < |row|
    requires forall k :: 0 <= k < c ==> pivot[k] == 0.0
    ensures r == Subtract(row, row[c], pivot)
  {
    var factor := row[c];
    if Abs(factor) <= 0.0 {
      SubtractNothing(row, factor, pivot);
      return row;
    }
    r := SubtractFrom(row, factor, pivot, c);
  }

  method PivotStepInPlace(m: Matrix, k: nat, p: nat, c: nat, ghost width: nat) returns (r: Matrix)
    requires LowerZeros(m, k, c, width) && k <= p < |m| && c < width && m[p][c] != 0.0
    ensures r == Reduced(m, k, p, c, width)
  {
    ghost var goal := Reduced(m, k, p, c, width);
    r := m[k := m[p]][p := m[k]];
    if p == k { assert r == m; }
    var pivotRow := DivideFrom(r[k], r[k][c], c);
    r := r[k := pivotRow];
    for row := 0 to |m|
      invariant |r| == |m| && r[k] == goal[k] == pivotRow
      invariant forall i :: 0 <= i < row ==> r[i] == goal[i]
      invariant forall i :: row <= i < |m| && i != k ==> r[i] == Displaced(m, k, p, i)
    {
      if row != k {
        var cleared := ClearRow(r[row], pivotRow, c);
        r := r[row := cleared];
      }
    }
    assert r == goal;
  }

  /** gas._matrix_rank, which works in place from the pivot column on. */
  method Rank(rows: Matrix, ghost width: nat) returns (rank: nat)
    requires Rectangular(rows, width)
    ensures LargestIndependent(rows, width, rank)
    ensures rank <= width && (rank == width <==> IndependentColumns(rows, width))
  {
    if rows == [] {
      NoRows(width);
      FullRank([], width, 0);
      return 0;
    }
    var matrix := rows;
    var rowCount, columnCount := |matrix|, |matrix[0]|;
    ghost var pivots: seq<nat> := [];
    NothingPivoted(rows, width);
    rank := 0;
    var column := 0;
    hide Pivoted, LargestIndependent, IndependentColumns, Reduced, LowerZeros;
    while column < columnCount
      invariant Pivoted(rows, matrix, pivots, column, width) && rank == |pivots| && column <= columnCount
      invariant Rectangular(matrix, width) && |matrix| == |rows|
      decreases columnCount - column
    {
      if rank >= rowCount {
        break;
      }
      var pivot := PivotRow(matrix, rank, column, width);
      if Abs(matrix[pivot][column]) <= 0.0 {
        NoPivot(matrix, rank, column, pivot);
        PivotSkipped(rows, matrix, pivots, column, width);
        column := column + 1;
        continue;
      }
      PivotTaken(rows, matrix, pivots, pivot, column, width);
      PivotsZero(rows, matrix, pivots, column, width);
      matrix := PivotStepInPlace(matrix, rank, pivot, column, width);
      pivots := pivots + [column];
      rank, column := rank + 1, column + 1;
    }
    PivotsBound(rows, matrix, pivots, column, width);
    PivotsAreRank(rows, matrix, pivots, column, width);
    FullRank(rows, width, rank);
  }

  lemma PivotsZero(original: Matrix, m: Matrix, pivots: seq<nat>, column: nat, width: nat)
    requires Pivoted(original, m, pivots, column, width)
    ensures LowerZeros(m, |pivots|, column, width)
  {
  }

  /** More rows can only shrink the null space: full column rank survives adding rows. */
  lemma IndependenceSurvivesMoreRows(few: Matrix, many: Matrix, width: nat)
    requires Rectangular(many, width) && IndependentColumns(few, width)
    requires forall r :: r in few ==> r in many
    ensures IndependentColumns(many, width)
  {
    forall v: Vec | |v| == width && Annihilates(many, v) ensures IsZero(v) {
      forall r | 0 <= r < |few| ensures |few[r]| == width && Dot(few[r], v) == 0.0 {
        assert few[r] in many;
        var i :| 0 <= i < |many| && many[i] == few[r];
        assert Dot(many[i], v) == 0.0;
      }
      assert Annihilates(few, v);
    }
  }
}
