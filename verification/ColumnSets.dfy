/** Sets of independent columns: how many there can be, and what the rank of a matrix means. */
module ColumnSets {
  import opened RealArithmetic
  import opened LinearAlgebra

  function ColumnsBelow(width: nat): (columns: set<nat>)
    ensures forall j: nat :: j in columns <==> j < width
  {
    if width == 0 then {} else ColumnsBelow(width - 1) + {width - 1}
  }

  ghost predicate Supported(v: Vec, columns: set<nat>) {
    forall j :: 0 <= j < |v| && j !in columns ==> v[j] == 0.0
  }

  /** No nonzero combination of the columns of the set vanishes. */
  ghost predicate IndependentAmong(m: Matrix, width: nat, columns: set<nat>) {
    forall v: Vec :: |v| == width && Supported(v, columns) && Annihilates(m, v) ==> IsZero(v)
  }

  /** The rank: the size of a largest independent set of columns. */
  ghost predicate LargestIndependent(m: Matrix, width: nat, rank: nat) {
    (exists columns :: columns <= ColumnsBelow(width) && |columns| == rank && IndependentAmong(m, width, columns))
    && forall columns :: columns <= ColumnsBelow(width) && IndependentAmong(m, width, columns) ==> |columns| <= rank
  }

  lemma {:induction false} ColumnCount(width: nat)
    ensures |ColumnsBelow(width)| == width
  {
    if width > 0 {
      ColumnCount(width - 1);
    }
  }

  lemma SubsetCount(a: set<nat>, b: set<nat>)
    requires a <= b
    ensures |a| <= |b| && (|a| == |b| ==> a == b)
  {
    assert b == a + (b - a);
  }

  lemma AllColumns(m: Matrix, width: nat)
    ensures IndependentAmong(m, width, ColumnsBelow(width)) <==> IndependentColumns(m, width)
  {
    forall v: Vec | |v| == width ensures Supported(v, ColumnsBelow(width)) {
    }
    hide Supported, ColumnsBelow;
  }

  /** Full rank is independence of all columns. */
  lemma FullRank(m: Matrix, width: nat, rank: nat)
    requires LargestIndependent(m, width, rank)
    ensures rank <= width && (rank == width <==> IndependentColumns(m, width))
  {
    ColumnCount(width);
    AllColumns(m, width);
    hide IndependentAmong, IndependentColumns, ColumnsBelow;
    var columns :| columns <= ColumnsBelow(width) && |columns| == rank && IndependentAmong(m, width, columns);
    SubsetCount(columns, ColumnsBelow(width));
  }

  function Quotient(a: real, b: real): real
    requires b != 0.0
  {
    a / b
  }

  /** The other rows, cleared in column c by the given row. */
  function Cleared(m: Matrix, row: Vec, c: nat): (r: Matrix)
    requires Rectangular(m, |row|) && c < |row| && row[c] != 0.0
    ensures |r| == |m| && Rectangular(r, |row|)
    ensures forall i :: 0 <= i < |m| ==> r[i] == Subtract(m[i], Quotient(m[i][c], row[c]), row)
  {
    seq(|m|, i requires 0 <= i < |m| => Subtract(m[i], Quotient(m[i][c], row[c]), row))
  }

  lemma ClearedEntry(a: real, b: real)
    requires b != 0.0
    ensures a - Quotient(a, b) * b == 0.0
  {
  }

  lemma BalancedEntry(a: real, d: real)
    requires a != 0.0
    ensures d + Times(a, Quotient(-d, a)) == 0.0
  {
  }

  /** A null vector of the cleared rows becomes one of all rows by choosing its entry at c. */
  lemma NullVectorExtends(m: Matrix, row: Vec, c: nat, v: Vec) returns (w: Vec)
    requires |row| == |v| && Rectangular(m, |v|) && c < |v| && row[c] != 0.0 && v[c] == 0.0
    requires Annihilates(Cleared(m, row, c), v)
    ensures |w| == |v| && Annihilates(m, w) && Dot(row, w) == 0.0
    ensures forall j :: 0 <= j < |v| && j != c ==> w[j] == v[j]
  {
    hide DotTo, Times;
    var n := |v|;
    w := v[c := Quotient(-Dot(row, v), row[c])];
    DotToUpdate(row, v, c, w[c], n);
    BalancedEntry(row[c], Dot(row, v));
    forall i | 0 <= i < |m| ensures Dot(m[i], w) == 0.0 {
      var f := Quotient(m[i][c], row[c]);
      var cleared := Subtract(m[i], f, row);
      assert cleared == Cleared(m, row, c)[i];
      ClearedEntry(m[i][c], row[c]);
      assert cleared[c] == 0.0;
      DotToUpdate(cleared, v, c, w[c], n);
      TimesZero(w[c] - v[c]);
      assert Dot(cleared, w) == 0.0;
      DotToSubtract(m[i], f, row, w, n);
      TimesZero(f);
    }
  }

  lemma UnitVector(m: Matrix, width: nat, columns: set<nat>) returns (v: Vec)
    requires m == [] && columns <= ColumnsBelow(width) && |columns| > 0
    ensures |v| == width && Supported(v, columns) && Annihilates(m, v) && !IsZero(v)
  {
    var c :| c in columns;
    v := seq(width, j => if j == c then 1.0 else 0.0);
    assert v[c] == 1.0;
  }

  /** More columns than rows are dependent. */
  lemma {:induction false} WideIsDependent(m: Matrix, width: nat, columns: set<nat>) returns (v: Vec)
    requires Rectangular(m, width) && columns <= ColumnsBelow(width) && |columns| > |m|
    ensures |v| == width && Supported(v, columns) && Annihilates(m, v) && !IsZero(v)
    decreases |m|
  {
    if m == [] {
      v := UnitVector(m, width, columns);
      return;
    }
    var rest, row := m[..|m| - 1], m[|m| - 1];
    assert m == rest + [row];
    hide DotTo, Times;
    if c :| c in columns && row[c] != 0.0 {
      var before := WideIsDependent(Cleared(rest, row, c), width, columns - {c});
      v := NullVectorExtends(rest, row, c, before);
      var j :| 0 <= j < width && before[j] != 0.0;
      assert v[j] != 0.0;
    } else {
      v := WideIsDependent(rest, width, columns);
      DotToZero(row, v, width);
    }
    LastRow(rest, row, v);
  }

  lemma LastRow(rest: Matrix, row: Vec, v: Vec)
    requires Annihilates(rest, v) && |row| == |v| && Dot(row, v) == 0.0
    ensures Annihilates(rest + [row], v)
  {
    hide DotTo;
  }
}
