/** Half-open intervals of integer time and the measure of their union: the number of unit
    cells they cover. */
module IntervalMeasure {
  datatype Span = Span(left: int, right: int)

  predicate Within(left: int, t: int, right: int) {
    left <= t < right
  }

  function Cells(left: int, right: int): set<int> {
    set t: int | left <= t < right && Within(left, t, right)
  }

  lemma {:induction false} CellCount(left: int, right: int)
    requires left <= right
    ensures |Cells(left, right)| == right - left
    decreases right - left
  {
    if left == right {
      assert Cells(left, right) == {};
    } else {
      CellCount(left, right - 1);
      assert Cells(left, right) == Cells(left, right - 1) + {right - 1};
    }
  }

  /** All cells of the spans. */
  function Covered(spans: seq<Span>): set<int> {
    if spans == [] then {}
    else Covered(spans[..|spans| - 1]) + Cells(spans[|spans| - 1].left, spans[|spans| - 1].right)
  }

  lemma {:induction false} CoveredAt(spans: seq<Span>, t: int)
    ensures t in Covered(spans) <==> exists i :: 0 <= i < |spans| && spans[i].left <= t < spans[i].right
  {
    if spans != [] {
      var front, last := spans[..|spans| - 1], spans[|spans| - 1];
      CoveredAt(front, t);
      if t in Covered(front) {
        var i :| 0 <= i < |front| && front[i].left <= t < front[i].right;
        assert spans[i] == front[i];
      }
      if i :| 0 <= i < |spans| && spans[i].left <= t < spans[i].right {
        assert i < |front| ==> front[i] == spans[i];
      }
      if last.left <= t < last.right {
        assert spans[|spans| - 1] == last;
      }
    }
  }

  lemma {:induction false} CoveredJoin(a: seq<Span>, b: seq<Span>)
    ensures Covered(a + b) == Covered(a) + Covered(b)
  {
    if b == [] {
      assert a + b == a;
    } else {
      CoveredJoin(a, b[..|b| - 1]);
      assert (a + b)[..|a + b| - 1] == a + b[..|b| - 1];
    }
  }

  function Length(spans: seq<Span>): int {
    if spans == [] then 0 else Length(spans[..|spans| - 1]) + spans[|spans| - 1].right - spans[|spans| - 1].left
  }

  lemma {:induction false} LengthJoin(a: seq<Span>, b: seq<Span>)
    ensures Length(a + b) == Length(a) + Length(b)
  {
    if b == [] {
      assert a + b == a;
    } else {
      LengthJoin(a, b[..|b| - 1]);
      assert (a + b)[..|a + b| - 1] == a + b[..|b| - 1];
    }
  }

  /** In order and without overlap. */
  ghost predicate Apart(spans: seq<Span>) {
    (forall i :: 0 <= i < |spans| ==> spans[i].left <= spans[i].right)
    && forall i, j :: 0 <= i < j < |spans| ==> spans[i].right <= spans[j].left
  }

  /** Spans apart measure the sum of their lengths. */
  lemma {:induction false} LengthIsMeasure(spans: seq<Span>)
    requires Apart(spans)
    ensures Length(spans) == |Covered(spans)|
  {
    if spans != [] {
      var front, last := spans[..|spans| - 1], spans[|spans| - 1];
      LengthIsMeasure(front);
      CellCount(last.left, last.right);
      forall t | t in Covered(front) ensures t < last.left {
        CoveredAt(front, t);
        var i :| 0 <= i < |front| && front[i].left <= t < front[i].right;
        assert spans[i].right <= spans[|spans| - 1].left;
      }
      assert Covered(front) !! Cells(last.left, last.right);
    }
  }

  lemma SubsetMeasure(a: set<int>, b: set<int>)
    requires a <= b
    ensures |a| <= |b|
  {
    assert b == a + (b - a);
  }

  lemma ApartJoin(a: seq<Span>, b: seq<Span>)
    requires Apart(a) && Apart(b) && forall i, j :: 0 <= i < |a| && 0 <= j < |b| ==> a[i].right <= b[j].left
    ensures Apart(a + b)
  {
  }
}
