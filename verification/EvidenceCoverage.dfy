/** How much of a period the boiler's states cover once the excluded windows are taken out, and
    the ratios published about it. Time is integer microseconds. */
module EvidenceCoverage {
  import opened Options
  import opened Sorting
  import opened Statistics
  import opened IntegerArithmetic
  import opened IntervalMeasure

  const SECOND := 1000000

  predicate SpanLe(a: Span, b: Span) {
    a.left < b.left || (a.left == b.left && a.right <= b.right)
  }

  // ---- The measure of a union -----------------------------------------------------------------

  /** The ranges that reach into the period, clipped to it. */
  function Clipped(start: int, end: int, ranges: seq<Span>): seq<Span> {
    if ranges == [] then []
    else
      var last := ranges[|ranges| - 1];
      Clipped(start, end, ranges[..|ranges| - 1])
      + if last.left < end && last.right > start then [Span(Later(start, last.left), Earlier(end, last.right))] else []
  }

  lemma {:induction false} ClippedCells(start: int, end: int, ranges: seq<Span>)
    requires start <= end && forall i :: 0 <= i < |ranges| ==> ranges[i].left <= ranges[i].right
    ensures Covered(Clipped(start, end, ranges)) == Covered(ranges) * Cells(start, end)
    ensures forall i :: 0 <= i < |Clipped(start, end, ranges)| ==>
      start <= Clipped(start, end, ranges)[i].left <= Clipped(start, end, ranges)[i].right <= end
  {
    if ranges != [] {
      hide Cells, Covered, Clipped;
      var front, last := ranges[..|ranges| - 1], ranges[|ranges| - 1];
      ClippedCells(start, end, front);
      var piece := Span(Later(start, last.left), Earlier(end, last.right));
      PieceCells(start, end, last);
      CoveredLast(ranges);
      CoveredJoin(Clipped(start, end, front), [piece]);
      OneSpan(piece);
      Distributes(Covered(front), Cells(last.left, last.right), Cells(start, end));
      ClippedLast(start, end, ranges);
    }
  }

  lemma ClippedLast(start: int, end: int, ranges: seq<Span>)
    requires ranges != []
    ensures var front, last := Clipped(start, end, ranges[..|ranges| - 1]), ranges[|ranges| - 1];
      Clipped(start, end, ranges)
      == if last.left < end && last.right > start
        then front + [Span(Later(start, last.left), Earlier(end, last.right))] else front
  {
  }

  lemma CoveredLast(spans: seq<Span>)
    requires spans != []
    ensures Covered(spans) == Covered(spans[..|spans| - 1]) + Cells(spans[|spans| - 1].left, spans[|spans| - 1].right)
  {
  }

  lemma Distributes(a: set<int>, b: set<int>, c: set<int>)
    ensures (a + b) * c == a * c + b * c && a + {} == a
  {
  }

  lemma PieceCells(start: int, end: int, range: Span)
    requires start <= end && range.left <= range.right
    ensures Cells(range.left, range.right) * Cells(start, end)
      == if range.left < end && range.right > start then Cells(Later(start, range.left), Earlier(end, range.right))
        else {}
  {
  }

  lemma OneSpan(s: Span)
    ensures Covered([s]) == Cells(s.left, s.right)
  {
    assert Covered([s]) == Covered([]) + Cells(s.left, s.right);
  }

  lemma SortedSpans(spans: seq<Span>)
    ensures var s := Sort(SpanLe, spans);
      (forall i, j :: 0 <= i < j < |s| ==> s[i].left <= s[j].left)
      && Covered(s) == Covered(spans) && forall x :: x in s <==> x in spans
  {
    assert TotalPreorder(SpanLe);
    SortSorted(SpanLe, spans);
    SortMembers(SpanLe, spans);
    var s := Sort(SpanLe, spans);
    forall t ensures t in Covered(s) <==> t in Covered(spans) {
      SameCells(s, spans, t);
      SameCells(spans, s, t);
    }
  }

  lemma SameCells(a: seq<Span>, b: seq<Span>, t: int)
    requires forall x :: x in a ==> x in b
    ensures t in Covered(a) ==> t in Covered(b)
  {
    CoveredAt(a, t);
    CoveredAt(b, t);
    if i :| 0 <= i < |a| && a[i].left <= t < a[i].right {
      assert a[i] in b;
    }
  }

  /** The blocks built so far cover the same cells as the ranges read so far. */
  ghost predicate Blocks(done: seq<Span>, block: Span, read: seq<Span>) {
    Apart(done + [block]) && Covered(done + [block]) == Covered(read)
  }

  lemma BlockGrows(done: seq<Span>, block: Span, read: seq<Span>, next: Span)
    requires Blocks(done, block, read) && block.left <= next.left <= next.right && next.left <= block.right
    ensures Blocks(done, Span(block.left, Later(block.right, next.right)), read + [next])
  {
    var grown := Span(block.left, Later(block.right, next.right));
    CoveredJoin(done, [block]);
    CoveredJoin(done, [grown]);
    CoveredJoin(read, [next]);
    OneSpan(block);
    OneSpan(grown);
    OneSpan(next);
    CellsMerge(block, next);
    hide Covered, Cells, Later;
    LaterIs(block.right, next.right);
    forall i | 0 <= i < |done| ensures done[i].left <= done[i].right <= block.left {
      assert (done + [block])[i] == done[i] && (done + [block])[|done|] == block;
    }
    forall i, j | 0 <= i < j < |done| ensures done[i].right <= done[j].left {
      assert (done + [block])[i] == done[i] && (done + [block])[j] == done[j];
    }
  }

  lemma LaterIs(a: int, b: int)
    ensures a <= Later(a, b) && b <= Later(a, b)
  {
  }

  lemma CellsMerge(block: Span, next: Span)
    requires block.left <= next.left <= next.right && next.left <= block.right
    ensures Cells(block.left, Later(block.right, next.right))
      == Cells(block.left, block.right) + Cells(next.left, next.right)
  {
  }

  lemma BlockEnds(done: seq<Span>, block: Span, read: seq<Span>, next: Span)
    requires Blocks(done, block, read) && block.right < next.left <= next.right
    ensures Blocks(done + [block], next, read + [next])
  {
    CoveredJoin(done + [block], [next]);
    CoveredJoin(read, [next]);
    OneSpan(next);
    forall i | 0 <= i < |done| ensures done[i].right <= block.left <= block.right {
      assert (done + [block])[i] == done[i] && (done + [block])[|done|] == block;
    }
    hide Covered;
  }

  /** evidence._union_seconds: the measure of the ranges inside the period. */
  method UnionSeconds(start: int, end: int, ranges: seq<Span>) returns (total: int)
    requires start <= end && forall i :: 0 <= i < |ranges| ==> ranges[i].left <= ranges[i].right
    ensures total == |Covered(ranges) * Cells(start, end)|
  {
    hide *;
    ClippedCells(start, end, ranges);
    SortedSpans(Clipped(start, end, ranges));
    var clipped := Sort(SpanLe, Clipped(start, end, ranges));
    forall i | 0 <= i < |clipped| ensures clipped[i].left <= clipped[i].right {
      assert clipped[i] in clipped;
    }
    total := Sweep(clipped);
  }

  /** What the sweep has read, finished and summed. */
  ghost predicate Swept(done: seq<Span>, current: Option<Span>, total: int, read: seq<Span>) {
    if current == None then done == [] && read == [] && total == 0
      else Blocks(done, current.value, read) && total == Length(done)
  }

  method Sweep(clipped: seq<Span>) returns (total: int)
    requires forall i :: 0 <= i < |clipped| ==> clipped[i].left <= clipped[i].right
    requires forall i, j :: 0 <= i < j < |clipped| ==> clipped[i].left <= clipped[j].left
    ensures total == |Covered(clipped)|
  {
    hide Covered, Blocks, Length, Apart;
    total := 0;
    var current: Option<Span> := None;
    ghost var done: seq<Span> := [];
    for i := 0 to |clipped|
      invariant Swept(done, current, total, clipped[..i]) && (current == None <==> i == 0)
      invariant current.Some? ==> current.value.left <= clipped[i - 1].left
    {
      var next := clipped[i];
      assert clipped[..i + 1] == clipped[..i] + [next];
      match current {
        case None =>
          FirstBlock(next, clipped[..i]);
          current := Some(next);
        case Some(block) =>
          if next.left <= block.right {
            BlockGrows(done, block, clipped[..i], next);
            current := Some(Span(block.left, Later(block.right, next.right)));
          } else {
            BlockEnds(done, block, clipped[..i], next);
            LengthJoin(done, [block]);
            OneLength(block);
            total := total + (block.right - block.left);
            done := done + [block];
            current := Some(next);
          }
      }
    }
    assert clipped[..|clipped|] == clipped;
    if current.Some? {
      total := total + (current.value.right - current.value.left);
      LengthJoin(done, [current.value]);
      OneLength(current.value);
      BlocksMeasure(done, current.value, clipped);
    } else {
      NoCells(clipped);
    }
  }

  lemma FirstBlock(next: Span, read: seq<Span>)
    requires read == [] && next.left <= next.right
    ensures Blocks([], next, read + [next]) && Length([]) == 0
  {
    assert [] + [next] == [next] == read + [next];
  }

  lemma OneLength(s: Span)
    ensures Length([s]) == s.right - s.left
  {
    assert Length([s]) == Length([]) + s.right - s.left;
  }

  lemma BlocksMeasure(done: seq<Span>, block: Span, read: seq<Span>)
    requires Blocks(done, block, read)
    ensures Length(done + [block]) == |Covered(read)|
  {
    LengthIsMeasure(done + [block]);
  }

  lemma NoCells(spans: seq<Span>)
    requires spans == []
    ensures Covered(spans) == {}
  {
  }

  // ---- Pieces of the state timeline -----------------------------------------------------------

  datatype StateSample = StateSample(at: int, flags: set<string>)

  /** A stretch during which one state is in force. */
  datatype Piece = Piece(left: int, right: int, flags: set<string>)

  function SpansOf(pieces: seq<Piece>): (spans: seq<Span>)
    ensures |spans| == |pieces| && forall i :: 0 <= i < |pieces| ==> spans[i] == Span(pieces[i].left, pieces[i].right)
  {
    if pieces == [] then []
    else SpansOf(pieces[..|pieces| - 1]) + [Span(pieces[|pieces| - 1].left, pieces[|pieces| - 1].right)]
  }

  lemma {:induction false} SpansJoin(a: seq<Piece>, b: seq<Piece>)
    ensures SpansOf(a + b) == SpansOf(a) + SpansOf(b)
  {
    assert forall i :: 0 <= i < |a + b| ==> SpansOf(a + b)[i] == (SpansOf(a) + SpansOf(b))[i];
  }

  ghost predicate Positive(pieces: seq<Piece>) {
    forall i :: 0 <= i < |pieces| ==> pieces[i].left < pieces[i].right
  }

  /** States in time order, one for each instant. */
  ghost predicate Normalised(states: seq<StateSample>) {
    forall i, j :: 0 <= i < j < |states| ==> states[i].at < states[j].at
  }

  /** How long a state may go unconfirmed: three times the usual gap, between one and thirty minutes. */
  function AllowedGap(states: seq<StateSample>): real
    requires Normalised(states) && |states| >= 2
  {
    var usual := Median(Gaps((s: StateSample) => s.at, states)) * 3.0;
    var atLeast := if usual < (60 * SECOND) as real then (60 * SECOND) as real else usual;
    if atLeast > (1800 * SECOND) as real then (1800 * SECOND) as real else atLeast
  }

  /** The piece lies in the period and shows the state that was reported last. */
  ghost predicate InForce(piece: Piece, states: seq<StateSample>, start: int, end: int) {
    start <= piece.left < piece.right <= end
    && exists i :: 0 <= i < |states| - 1 && states[i].at <= piece.left && piece.right <= states[i + 1].at
         && piece.flags == states[i].flags && Confirmed(states, i)
  }

  /** The next state comes soon enough to confirm that this one lasted. */
  ghost predicate Confirmed(states: seq<StateSample>, i: nat) {
    Normalised(states) && i + 1 < |states| && (states[i + 1].at - states[i].at) as real <= AllowedGap(states)
  }

  lemma NoPieces()
    ensures Apart(SpansOf([]))
  {
  }

  lemma InForceHere(states: seq<StateSample>, start: int, end: int, i: nat)
    requires Normalised(states) && i < |states| - 1
    ensures states[i].at < states[i + 1].at
    ensures Confirmed(states, i) <==> (states[i + 1].at - states[i].at) as real <= AllowedGap(states)
    ensures Later(start, states[i].at) >= states[i].at && Earlier(end, states[i + 1].at) <= states[i + 1].at
    ensures Later(start, states[i].at) < Earlier(end, states[i + 1].at) && Confirmed(states, i) ==>
      InForce(Piece(Later(start, states[i].at), Earlier(end, states[i + 1].at), states[i].flags), states, start, end)
  {
    hide AllowedGap;
    assert states[i].at < states[i + 1].at;
  }

  /** evidence._state_intervals. */
  method StateIntervals(states: seq<StateSample>, start: int, end: int) returns (pieces: seq<Piece>)
    requires Normalised(states)
    ensures Apart(SpansOf(pieces)) && forall i :: 0 <= i < |pieces| ==> InForce(pieces[i], states, start, end)
    ensures forall i :: 0 <= i < |states| - 1 && Confirmed(states, i) ==>
      var left, right := Later(start, states[i].at), Earlier(end, states[i + 1].at);
      left < right ==> Piece(left, right, states[i].flags) in pieces
  {
    hide *;
    pieces := [];
    NoPieces();
    if |states| < 2 {
      return;
    }
    var allowed := AllowedGap(states);
    for i := 0 to |states| - 1
      invariant Apart(SpansOf(pieces)) && forall k :: 0 <= k < |pieces| ==> InForce(pieces[k], states, start, end)
      invariant forall k :: 0 <= k < |pieces| ==> pieces[k].right <= states[i].at
      invariant forall k :: 0 <= k < i && Confirmed(states, k) ==>
        var left, right := Later(start, states[k].at), Earlier(end, states[k + 1].at);
        left < right ==> Piece(left, right, states[k].flags) in pieces
    {
      var left, right := Later(start, states[i].at), Earlier(end, states[i + 1].at);
      InForceHere(states, start, end, i);
      if left < right && (states[i + 1].at - states[i].at) as real <= allowed {
        var piece := Piece(left, right, states[i].flags);
        PieceJoins(pieces, piece);
        pieces := pieces + [piece];
      }
    }
  }

  lemma {:induction false} OnePiece(piece: Piece)
    ensures SpansOf([piece]) == [Span(piece.left, piece.right)]
    ensures Covered(SpansOf([piece])) == Cells(piece.left, piece.right)
    ensures Length(SpansOf([piece])) == piece.right - piece.left
  {
    assert |SpansOf([piece])| == 1;
    assert SpansOf([piece]) == [Span(piece.left, piece.right)];
    OneSpan(Span(piece.left, piece.right));
    OneLength(Span(piece.left, piece.right));
  }

  lemma {:induction false} PieceJoins(pieces: seq<Piece>, piece: Piece)
    requires Apart(SpansOf(pieces)) && piece.left <= piece.right
      && forall k :: 0 <= k < |pieces| ==> pieces[k].right <= piece.left
    ensures Apart(SpansOf(pieces + [piece]))
    ensures Covered(SpansOf(pieces + [piece])) == Covered(SpansOf(pieces)) + Cells(piece.left, piece.right)
    ensures Length(SpansOf(pieces + [piece])) == Length(SpansOf(pieces)) + piece.right - piece.left
  {
    hide SpansOf, Covered, Cells, Length;
    SpansJoin(pieces, [piece]);
    OnePiece(piece);
    CoveredJoin(SpansOf(pieces), SpansOf([piece]));
    LengthJoin(SpansOf(pieces), SpansOf([piece]));
  }

  // ---- Taking the excluded windows out ------------------------------------------------------------

  /** evidence._excluded. */
  predicate Excluded(left: int, right: int, exclusions: seq<Span>) {
    exists i :: 0 <= i < |exclusions| && exclusions[i].left < right && exclusions[i].right > left
  }

  /** The boundaries of the interval and of every exclusion that reaches into it. */
  ghost predicate HasBoundaries(bounds: seq<int>, start: int, end: int, exclusions: seq<Span>, n: nat)
    requires n <= |exclusions|
  {
    start in bounds && end in bounds && (forall b :: b in bounds ==> start <= b <= end)
    && forall i :: 0 <= i < n && exclusions[i].left < end && exclusions[i].right > start ==>
         Later(start, exclusions[i].left) in bounds && Earlier(end, exclusions[i].right) in bounds
  }

  ghost predicate NoneBetween(bounds: seq<int>, left: int, right: int) {
    forall b :: b in bounds ==> b <= left || b >= right
  }

  /** Between two neighbouring boundaries an exclusion covers everything or nothing. */
  lemma {:induction false} GapIsUniform(bounds: seq<int>, start: int, end: int, exclusions: seq<Span>, left: int,
                                        right: int)
    requires HasBoundaries(bounds, start, end, exclusions, |exclusions|) && NoneBetween(bounds, left, right)
    requires start <= left < right <= end
    ensures Excluded(left, right, exclusions) ==> Cells(left, right) <= Covered(exclusions)
    ensures !Excluded(left, right, exclusions) ==> Cells(left, right) !! Covered(exclusions)
  {
    if i :| 0 <= i < |exclusions| && exclusions[i].left < right && exclusions[i].right > left {
      assert exclusions[i].left <= left && right <= exclusions[i].right;
      forall t | t in Cells(left, right) ensures t in Covered(exclusions) {
        CoveredAt(exclusions, t);
      }
    } else {
      forall t | t in Cells(left, right) ensures t !in Covered(exclusions) {
        CoveredAt(exclusions, t);
      }
    }
  }

  /** A set of boundaries is kept as the increasing list of its elements. */
  predicate Increasing(s: seq<int>) {
    forall i, j :: 0 <= i < j < |s| ==> s[i] < s[j]
  }

  function Added(s: seq<int>, x: int): (r: seq<int>)
    ensures forall y :: y in r <==> y in s || y == x
  {
    if s == [] then [x]
    else if x < s[0] then [x] + s
    else if x == s[0] then s
    else
      assert s == [s[0]] + s[1..];
      [s[0]] + Added(s[1..], x)
  }

  lemma {:induction false} AddedIncreasing(s: seq<int>, x: int)
    requires Increasing(s)
    ensures Increasing(Added(s, x))
  {
    if s != [] && x > s[0] {
      AddedIncreasing(s[1..], x);
      var rest := Added(s[1..], x);
      forall i | 0 <= i < |rest| ensures s[0] < rest[i] {
        assert rest[i] in rest;
      }
    }
  }

  method Boundaries(start: int, end: int, exclusions: seq<Span>) returns (bounds: seq<int>)
    requires start <= end && forall i :: 0 <= i < |exclusions| ==> exclusions[i].left <= exclusions[i].right
    ensures HasBoundaries(bounds, start, end, exclusions, |exclusions|) && Increasing(bounds)
  {
    bounds := Added([start], end);
    OuterBounds(start, end, exclusions);
    hide *;
    for i := 0 to |exclusions|
      invariant HasBoundaries(bounds, start, end, exclusions, i) && Increasing(bounds)
    {
      BoundsOf(bounds, start, end, exclusions, i);
      if exclusions[i].left < end && exclusions[i].right > start {
        AddedIncreasing(bounds, Later(start, exclusions[i].left));
        bounds := Added(bounds, Later(start, exclusions[i].left));
        AddedIncreasing(bounds, Earlier(end, exclusions[i].right));
        bounds := Added(bounds, Earlier(end, exclusions[i].right));
      }
    }
  }

  lemma OuterBounds(start: int, end: int, exclusions: seq<Span>)
    requires start <= end
    ensures HasBoundaries(Added([start], end), start, end, exclusions, 0) && Increasing(Added([start], end))
  {
    hide Added;
    assert start in [start];
    AddedIncreasing([start], end);
  }

  lemma BoundsOf(bounds: seq<int>, start: int, end: int, exclusions: seq<Span>, i: nat)
    requires start <= end && i < |exclusions| && exclusions[i].left <= exclusions[i].right
    requires HasBoundaries(bounds, start, end, exclusions, i)
    ensures var left, right := Later(start, exclusions[i].left), Earlier(end, exclusions[i].right);
      var inside := exclusions[i].left < end && exclusions[i].right > start;
      HasBoundaries(if inside then Added(Added(bounds, left), right) else bounds, start, end, exclusions, i + 1)
  {
    hide Added;
  }

  /** The part of an interval that no exclusion touches, in pieces. */
  ghost predicate Remainder(pieces: seq<Piece>, interval: Piece, upTo: int, exclusions: seq<Span>) {
    Apart(SpansOf(pieces))
    && (forall i :: 0 <= i < |pieces| ==>
          interval.left <= pieces[i].left < pieces[i].right <= upTo && pieces[i].flags == interval.flags)
    && Covered(SpansOf(pieces)) == Cells(interval.left, upTo) - Covered(exclusions)
  }

  lemma {:induction false} GapJoins(pieces: seq<Piece>, interval: Piece, bounds: seq<int>, left: int, right: int,
                                    exclusions: seq<Span>)
    requires Remainder(pieces, interval, left, exclusions)
    requires HasBoundaries(bounds, interval.left, interval.right, exclusions, |exclusions|)
      && NoneBetween(bounds, left, right)
    requires interval.left <= left < right <= interval.right
    ensures var more := pieces + [Piece(left, right, interval.flags)];
      Remainder(if Excluded(left, right, exclusions) then pieces else more, interval, right, exclusions)
  {
    hide Remainder, HasBoundaries, NoneBetween, Excluded;
    GapIsUniform(bounds, interval.left, interval.right, exclusions, left, right);
    if Excluded(left, right, exclusions) {
      GapDropped(pieces, interval, left, right, exclusions);
    } else {
      GapKept(pieces, interval, left, right, exclusions);
    }
  }

  lemma {:induction false} GapDropped(pieces: seq<Piece>, interval: Piece, left: int, right: int, exclusions: seq<Span>)
    requires Remainder(pieces, interval, left, exclusions) && interval.left <= left < right
    requires Cells(left, right) <= Covered(exclusions)
    ensures Remainder(pieces, interval, right, exclusions)
  {
    hide SpansOf, Covered, Cells, Apart;
    CellsJoin(interval.left, left, right);
    GapAway(Cells(interval.left, left), Cells(left, right), Covered(exclusions));
  }

  lemma {:induction false} GapKept(pieces: seq<Piece>, interval: Piece, left: int, right: int, exclusions: seq<Span>)
    requires Remainder(pieces, interval, left, exclusions) && interval.left <= left < right
    requires Cells(left, right) !! Covered(exclusions)
    ensures Remainder(pieces + [Piece(left, right, interval.flags)], interval, right, exclusions)
  {
    hide SpansOf, Covered, Cells, Apart, Length;
    CellsJoin(interval.left, left, right);
    GapStays(Cells(interval.left, left), Cells(left, right), Covered(exclusions));
    PieceJoins(pieces, Piece(left, right, interval.flags));
  }

  lemma GapAway(all: set<int>, gap: set<int>, out: set<int>)
    requires gap <= out
    ensures all + gap - out == all - out
  {
  }

  lemma GapStays(all: set<int>, gap: set<int>, out: set<int>)
    requires gap !! out
    ensures all + gap - out == (all - out) + gap
  {
  }

  lemma CellsJoin(a: int, b: int, c: int)
    requires a <= b <= c
    ensures Cells(a, c) == Cells(a, b) + Cells(b, c)
  {
  }

  /** The inner loops of evidence._split_state_intervals. */
  method SplitInterval(interval: Piece, exclusions: seq<Span>) returns (pieces: seq<Piece>)
    requires interval.left < interval.right
      && forall i :: 0 <= i < |exclusions| ==> exclusions[i].left <= exclusions[i].right
    ensures Remainder(pieces, interval, interval.right, exclusions)
  {
    hide *;
    var ordered := Boundaries(interval.left, interval.right, exclusions);
    FirstAndLast(ordered, interval.left, interval.right, exclusions);
    pieces := [];
    NothingRemains(interval, exclusions);
    for k := 0 to |ordered| - 1
      invariant Remainder(pieces, interval, ordered[k], exclusions)
    {
      var left, right := ordered[k], ordered[k + 1];
      Neighbours(ordered, k);
      assert left in ordered && right in ordered;
      GapJoins(pieces, interval, ordered, left, right, exclusions);
      if left < right && !Excluded(left, right, exclusions) {
        pieces := pieces + [Piece(left, right, interval.flags)];
      }
    }
  }

  lemma NothingRemains(interval: Piece, exclusions: seq<Span>)
    ensures Remainder([], interval, interval.left, exclusions)
  {
    assert Cells(interval.left, interval.left) == {};
    hide Covered;
    assert Covered(SpansOf([])) == {} by {
      NoCells(SpansOf([]));
    }
  }

  lemma FirstAndLast(bounds: seq<int>, start: int, end: int, exclusions: seq<Span>)
    requires HasBoundaries(bounds, start, end, exclusions, |exclusions|) && start < end && Increasing(bounds)
    ensures |bounds| >= 2 && bounds[0] == start && bounds[|bounds| - 1] == end
    ensures forall b :: b in bounds ==> start <= b <= end
  {
    var i :| 0 <= i < |bounds| && bounds[i] == start;
    var j :| 0 <= j < |bounds| && bounds[j] == end;
    assert bounds[0] in bounds && bounds[|bounds| - 1] in bounds;
  }

  lemma Neighbours(bounds: seq<int>, k: nat)
    requires Increasing(bounds) && k + 1 < |bounds|
    ensures NoneBetween(bounds, bounds[k], bounds[k + 1]) && bounds[k] < bounds[k + 1]
  {
  }

  /** Every piece is a part of one of the intervals and keeps its state. */
  ghost predicate PartOf(piece: Piece, intervals: seq<Piece>) {
    piece.left < piece.right
    && exists i :: 0 <= i < |intervals| && intervals[i].left <= piece.left && piece.right <= intervals[i].right
         && piece.flags == intervals[i].flags
  }

  ghost predicate SplitOf(pieces: seq<Piece>, intervals: seq<Piece>, n: nat, exclusions: seq<Span>)
    requires n <= |intervals|
  {
    Apart(SpansOf(pieces)) && (forall i :: 0 <= i < |pieces| ==> PartOf(pieces[i], intervals[..n]))
    && Covered(SpansOf(pieces)) == Covered(SpansOf(intervals[..n])) - Covered(exclusions)
  }

  lemma {:induction false} OneMoreSplit(pieces: seq<Piece>, more: seq<Piece>, intervals: seq<Piece>, n: nat,
                                        exclusions: seq<Span>)
    requires n < |intervals| && Apart(SpansOf(intervals)) && SplitOf(pieces, intervals, n, exclusions)
    requires Remainder(more, intervals[n], intervals[n].right, exclusions)
    ensures SplitOf(pieces + more, intervals, n + 1, exclusions)
  {
    hide SpansOf, Covered, Cells, Apart, PartOf;
    SplitCells(pieces, more, intervals, n, exclusions);
    PartsStay(pieces, intervals, n);
    SpansJoin(pieces, more);
    PartsAdded(more, intervals, n);
    PartsBefore(pieces, more, intervals, n);
    ApartJoin(SpansOf(pieces), SpansOf(more));
  }

  lemma {:induction false} SplitCells(pieces: seq<Piece>, more: seq<Piece>, intervals: seq<Piece>, n: nat,
                                      exclusions: seq<Span>)
    requires n < |intervals| && Covered(SpansOf(pieces)) == Covered(SpansOf(intervals[..n])) - Covered(exclusions)
    requires Covered(SpansOf(more)) == Cells(intervals[n].left, intervals[n].right) - Covered(exclusions)
    ensures Covered(SpansOf(pieces + more)) == Covered(SpansOf(intervals[..n + 1])) - Covered(exclusions)
  {
    hide SpansOf, Covered, Cells;
    assert intervals[..n + 1] == intervals[..n] + [intervals[n]];
    SpansJoin(pieces, more);
    SpansJoin(intervals[..n], [intervals[n]]);
    CoveredJoin(SpansOf(pieces), SpansOf(more));
    CoveredJoin(SpansOf(intervals[..n]), SpansOf([intervals[n]]));
    OnePiece(intervals[n]);
  }

  lemma {:induction false} PartsStay(pieces: seq<Piece>, intervals: seq<Piece>, n: nat)
    requires n < |intervals| && forall i :: 0 <= i < |pieces| ==> PartOf(pieces[i], intervals[..n])
    ensures forall i :: 0 <= i < |pieces| ==> PartOf(pieces[i], intervals[..n + 1])
  {
    var before, now := intervals[..n], intervals[..n + 1];
    forall i | 0 <= i < |pieces| ensures PartOf(pieces[i], now) {
      var j :| 0 <= j < |before| && before[j].left <= pieces[i].left && pieces[i].right <= before[j].right
        && pieces[i].flags == before[j].flags;
      assert now[j] == before[j];
    }
  }

  lemma {:induction false} PartsAdded(more: seq<Piece>, intervals: seq<Piece>, n: nat)
    requires n < |intervals|
    requires forall i :: 0 <= i < |more| ==>
      intervals[n].left <= more[i].left < more[i].right <= intervals[n].right && more[i].flags == intervals[n].flags
    ensures forall i :: 0 <= i < |more| ==> PartOf(more[i], intervals[..n + 1])
  {
    assert intervals[..n + 1][n] == intervals[n];
  }

  lemma {:induction false} PartsBefore(pieces: seq<Piece>, more: seq<Piece>, intervals: seq<Piece>, n: nat)
    requires n < |intervals| && Apart(SpansOf(intervals))
      && forall i :: 0 <= i < |pieces| ==> PartOf(pieces[i], intervals[..n])
    requires forall i :: 0 <= i < |more| ==> intervals[n].left <= more[i].left
    ensures forall i, j :: 0 <= i < |pieces| && 0 <= j < |more| ==> SpansOf(pieces)[i].right <= SpansOf(more)[j].left
  {
    forall i | 0 <= i < |pieces| ensures pieces[i].right <= intervals[n].left {
      var before := intervals[..n];
      var j :| 0 <= j < |before| && before[j].left <= pieces[i].left && pieces[i].right <= before[j].right
        && pieces[i].flags == before[j].flags;
      assert SpansOf(intervals)[j].right <= SpansOf(intervals)[n].left;
    }
  }

  /** The pieces do not overlap, each is part of one interval, and together they are exactly
      what the exclusions leave of the intervals. */
  ghost predicate Leaves(intervals: seq<Piece>, exclusions: seq<Span>, pieces: seq<Piece>) {
    Apart(SpansOf(pieces)) && (forall i :: 0 <= i < |pieces| ==> PartOf(pieces[i], intervals))
    && Covered(SpansOf(pieces)) == Covered(SpansOf(intervals)) - Covered(exclusions)
  }

  /** evidence._split_state_intervals: what remains of the intervals is exactly their part
      outside every exclusion, in pieces that do not overlap. */
  method SplitStateIntervals(intervals: seq<Piece>, exclusions: seq<Span>) returns (pieces: seq<Piece>)
    requires Apart(SpansOf(intervals)) && Positive(intervals)
    requires forall i :: 0 <= i < |exclusions| ==> exclusions[i].left <= exclusions[i].right
    ensures Leaves(intervals, exclusions, pieces)
  {
    pieces := [];
    NothingSplit(intervals, exclusions);
    hide SplitOf, Remainder, SpansOf, Covered, Leaves;
    for n := 0 to |intervals|
      invariant SplitOf(pieces, intervals, n, exclusions)
    {
      var more := SplitInterval(intervals[n], exclusions);
      OneMoreSplit(pieces, more, intervals, n, exclusions);
      pieces := pieces + more;
    }
    AllSplit(pieces, intervals, exclusions);
  }

  lemma NothingSplit(intervals: seq<Piece>, exclusions: seq<Span>)
    ensures SplitOf([], intervals, 0, exclusions)
  {
    assert intervals[..0] == [];
    NoCells(SpansOf([]));
  }

  lemma AllSplit(pieces: seq<Piece>, intervals: seq<Piece>, exclusions: seq<Span>)
    requires SplitOf(pieces, intervals, |intervals|, exclusions)
    ensures Leaves(intervals, exclusions, pieces)
  {
    assert intervals[..|intervals|] == intervals;
  }

  // ---- Time by state ------------------------------------------------------------------------

  predicate Requested(flags: set<string>) {
    "ch" in flags && "dhw" !in flags
  }

  predicate Burning(flags: set<string>) {
    "fl" in flags && "ch" in flags && "dhw" !in flags
  }

  predicate Lit(flags: set<string>) {
    "fl" in flags
  }

  predicate Any(flags: set<string>) {
    true
  }

  function Chosen(pieces: seq<Piece>, wanted: set<string> -> bool): seq<Piece> {
    if pieces == [] then []
    else
      var last := pieces[|pieces| - 1];
      Chosen(pieces[..|pieces| - 1], wanted) + if wanted(last.flags) then [last] else []
  }

  /** The total duration of the pieces whose state is wanted. */
  function Seconds(pieces: seq<Piece>, wanted: set<string> -> bool): int {
    if pieces == [] then 0
    else
      var last := pieces[|pieces| - 1];
      Seconds(pieces[..|pieces| - 1], wanted) + if wanted(last.flags) then last.right - last.left else 0
  }

  lemma {:induction false} SecondsIsLength(pieces: seq<Piece>)
    ensures Seconds(pieces, Any) == Length(SpansOf(pieces))
  {
    if pieces != [] {
      var front, last := pieces[..|pieces| - 1], pieces[|pieces| - 1];
      SecondsIsLength(front);
      assert SpansOf(pieces)[..|pieces| - 1] == SpansOf(front);
    }
  }

  /** A rarer state lasts no longer. */
  lemma {:induction false} SecondsMonotone(pieces: seq<Piece>, some: set<string> -> bool, more: set<string> -> bool)
    requires Positive(pieces) && forall i :: 0 <= i < |pieces| && some(pieces[i].flags) ==> more(pieces[i].flags)
    ensures 0 <= Seconds(pieces, some) <= Seconds(pieces, more)
  {
    if pieces != [] {
      SecondsMonotone(pieces[..|pieces| - 1], some, more);
    }
  }

  lemma {:induction false} ChosenSeconds(pieces: seq<Piece>, first: set<string> -> bool, then_: set<string> -> bool,
                                         both: set<string> -> bool)
    requires forall i :: 0 <= i < |pieces| ==>
      (both(pieces[i].flags) <==> first(pieces[i].flags) && then_(pieces[i].flags))
    ensures Seconds(Chosen(pieces, first), then_) == Seconds(pieces, both)
  {
    if pieces != [] {
      var front, last := pieces[..|pieces| - 1], pieces[|pieces| - 1];
      ChosenSeconds(front, first, then_, both);
      if first(last.flags) {
        assert Chosen(pieces, first)[..|Chosen(pieces, first)| - 1] == Chosen(front, first);
      } else {
        assert Chosen(pieces, first) == Chosen(front, first);
      }
    }
  }

  /** The flame cycles so far fit into the burning time so far; an open cycle is a stretch of
      it without a hole, up to the last piece. */
  ghost predicate CyclesFit(cycles: seq<Span>, open: Option<int>, previous: Option<int>, read: seq<Piece>) {
    (forall i :: 0 <= i < |cycles| ==> cycles[i].left < cycles[i].right)
    && 0 <= Length(cycles) <= Seconds(read, Burning)
    && (open.Some? ==> previous.Some? && open.value < previous.value
                       && Length(cycles) + previous.value - open.value <= Seconds(read, Burning))
  }

  /** Piece i lights the burner: requested heating burns right after a piece without flame. */
  predicate Lights(valid: seq<Piece>, i: nat)
    requires i < |valid|
  {
    Burning(valid[i].flags) && i > 0 && valid[i - 1].right == valid[i].left && !Lit(valid[i - 1].flags)
  }

  function StartsTo(valid: seq<Piece>, n: nat): nat
    requires n <= |valid|
  {
    if n == 0 then 0 else StartsTo(valid, n - 1) + if Lights(valid, n - 1) then 1 else 0
  }

  /** From a on, up to before b, heating burns without a hole. */
  ghost predicate Burns(valid: seq<Piece>, a: nat, b: nat) {
    a < b <= |valid| && Lights(valid, a) && (forall k :: a <= k < b ==> Burning(valid[k].flags))
    && forall k :: a <= k < b - 1 ==> valid[k].right == valid[k + 1].left
  }

  /** A complete cycle: lit at a, burning without a hole, and seen to go out at b. */
  ghost predicate Cycle(valid: seq<Piece>, a: nat, b: nat) {
    b < |valid| && Burns(valid, a, b) && valid[b - 1].right == valid[b].left && !Lit(valid[b].flags)
  }

  /** The complete cycles among the first n pieces are exactly those listed, in order. */
  ghost predicate CyclesAre(valid: seq<Piece>, cycles: seq<Span>, ends: seq<(nat, nat)>, n: nat) {
    n <= |valid| && |ends| == |cycles|
    && (forall i :: 0 <= i < |ends| ==>
          ends[i].1 < n && Cycle(valid, ends[i].0, ends[i].1)
            && cycles[i] == Span(valid[ends[i].0].left, valid[ends[i].1].left))
    && (forall i, j :: 0 <= i < j < |ends| ==> ends[i].1 < ends[j].1)
    && forall a: nat, b: nat :: b < n && Cycle(valid, a, b) ==> (a, b) in ends
  }

  /** The cycle that is open after the first n pieces: exactly when heating burns up to there. */
  ghost predicate OpenIs(valid: seq<Piece>, open: Option<int>, a: nat, n: nat)
    requires n <= |valid|
  {
    if open.Some? then Burns(valid, a, n) && open.value == valid[a].left else forall c: nat :: !Burns(valid, c, n)
  }

  lemma SameStart(valid: seq<Piece>, a: nat, c: nat, n: nat)
    requires Burns(valid, a, n) && Burns(valid, c, n)
    ensures a == c
  {
  }

  lemma BurnsOn(valid: seq<Piece>, c: nat, n: nat)
    requires n < |valid|
    ensures Burns(valid, c, n + 1)
      <==> Burning(valid[n].flags)
           && ((c == n && Lights(valid, n)) || (c < n && Burns(valid, c, n) && valid[n - 1].right == valid[n].left))
  {
  }

  /** What the next piece does to the open cycle. */
  lemma NextOpen(valid: seq<Piece>, open: Option<int>, a: nat, n: nat)
    requires n < |valid| && OpenIs(valid, open, a, n)
    ensures var joined := n > 0 && valid[n - 1].right == valid[n].left;
      var piece := valid[n];
      if Lights(valid, n) then OpenIs(valid, Some(piece.left), n, n + 1)
      else if open.Some? && joined && Burning(piece.flags) then OpenIs(valid, open, a, n + 1)
      else OpenIs(valid, None, a, n + 1)
  {
    assert open.Some? ==> a < n;
    hide Burns, Burning;
    BurnsOn(valid, a, n);
    BurnsOn(valid, n, n);
    var m := n + 1;
    if !Lights(valid, n) && !(open.Some? && n > 0 && valid[n - 1].right == valid[n].left && Burning(valid[n].flags)) {
      forall c: nat ensures !Burns(valid, c, m) {
        BurnsOn(valid, c, n);
      }
    }
  }

  /** A piece ends a cycle exactly when it joins the open one without flame. */
  lemma NextCycle(valid: seq<Piece>, cycles: seq<Span>, ends: seq<(nat, nat)>, open: Option<int>, a: nat, n: nat)
    requires n < |valid| && CyclesAre(valid, cycles, ends, n) && OpenIs(valid, open, a, n)
    ensures if open.Some? && valid[n - 1].right == valid[n].left && !Lit(valid[n].flags)
      then CyclesAre(valid, cycles + [Span(open.value, valid[n].left)], ends + [(a, n)], n + 1)
      else CyclesAre(valid, cycles, ends, n + 1)
  {
    hide Lights;
    if open.Some? {
      forall c: nat | Burns(valid, c, n) ensures c == a {
        SameStart(valid, a, c, n);
      }
      assert a < n;
    }
    hide Burns;
    forall c: nat, b: nat | b < n + 1 && Cycle(valid, c, b)
      ensures (c, b) in ends
        || (open.Some? && valid[n - 1].right == valid[n].left && !Lit(valid[n].flags) && (c, b) == (a, n))
    {
    }
  }

  /** The number of flame starts, and exactly the complete cycles. */
  ghost predicate Counted(valid: seq<Piece>, starts: nat, cycles: seq<Span>) {
    starts == StartsTo(valid, |valid|) && exists ends :: CyclesAre(valid, cycles, ends, |valid|)
  }

  lemma NoCycles(valid: seq<Piece>)
    ensures CyclesAre(valid, [], [], 0) && OpenIs(valid, None, 0, 0)
  {
  }

  /** The end of the piece before n. */
  function EndBefore(valid: seq<Piece>, n: nat): Option<int>
    requires n <= |valid|
  {
    if n == 0 then None else Some(valid[n - 1].right)
  }

  /** What the loop over the pieces keeps. */
  ghost predicate CycleState(valid: seq<Piece>, starts: nat, cycles: seq<Span>, ends: seq<(nat, nat)>,
                             open: Option<int>, a: nat, n: nat) {
    n <= |valid| && CyclesFit(cycles, open, EndBefore(valid, n), valid[..n])
    && starts == StartsTo(valid, n) && |cycles| + (if open.Some? then 1 else 0) <= starts
    && CyclesAre(valid, cycles, ends, n) && OpenIs(valid, open, a, n)
  }

  lemma FirstPiece(valid: seq<Piece>)
    ensures CycleState(valid, 0, [], [], None, 0, 0)
  {
    assert valid[..0] == [];
    NothingFits();
    NoCycles(valid);
  }

  lemma NextPiece(valid: seq<Piece>, starts: nat, cycles: seq<Span>, ends: seq<(nat, nat)>, open: Option<int>, a: nat,
                  n: nat)
    requires n < |valid| && Positive(valid) && CycleState(valid, starts, cycles, ends, open, a, n)
    ensures var piece := valid[n];
      var joined := EndBefore(valid, n) == Some(piece.left);
      if Lights(valid, n) then CycleState(valid, starts + 1, cycles, ends, Some(piece.left), n, n + 1)
      else if open.Some? && joined && !Lit(piece.flags) then
        CycleState(valid, starts, cycles + [Span(open.value, piece.left)], ends + [(a, n)], None, a, n + 1)
      else if open.Some? && joined && Burning(piece.flags) then CycleState(valid, starts, cycles, ends, open, a, n + 1)
      else CycleState(valid, starts, cycles, ends, None, a, n + 1)
  {
    LightsWhen(valid, n);
    NextOpen(valid, open, a, n);
    NextCycle(valid, cycles, ends, open, a, n);
    FitsOn(valid, cycles, open, EndBefore(valid, n), n);
    hide CyclesAre, OpenIs, CyclesFit, Positive, Lights, Burning, Requested, Lit, StartsTo;
  }

  /** The loop of evidence._operational_metrics over flame starts and complete cycles. */
  method FlameCycles(valid: seq<Piece>) returns (starts: nat, cycles: seq<Span>)
    requires Positive(valid)
    ensures Counted(valid, starts, cycles)
    ensures |cycles| <= starts
    ensures forall i :: 0 <= i < |cycles| ==> cycles[i].left < cycles[i].right
    ensures 0 <= Length(cycles) <= Seconds(valid, Burning)
  {
    hide *;
    starts, cycles := 0, [];
    var cycleStart: Option<int> := None;
    var previousEnd: Option<int> := None;
    var previousFlame: Option<bool> := None;
    ghost var ends: seq<(nat, nat)>, a: nat := [], 0;
    FirstPiece(valid);
    for i := 0 to |valid|
      invariant CycleState(valid, starts, cycles, ends, cycleStart, a, i)
      invariant i == 0 ==> previousEnd == None && previousFlame == None && cycleStart == None
      invariant i > 0 ==> previousEnd == Some(valid[i - 1].right) && previousFlame == Some(Lit(valid[i - 1].flags))
    {
      var piece := valid[i];
      NextPiece(valid, starts, cycles, ends, cycleStart, a, i);
      LightsWhen(valid, i);
      var flame, heating := Lit(piece.flags), Requested(piece.flags);
      if previousEnd != Some(piece.left) {
        cycleStart, previousFlame := None, None;
      }
      if flame && heating && previousFlame == Some(false) {
        starts := starts + 1;
        cycleStart, a := Some(piece.left), i;
      } else if !flame && cycleStart.Some? {
        cycles, ends := cycles + [Span(cycleStart.value, piece.left)], ends + [(a, i)];
        cycleStart := None;
      } else if flame && !heating {
        cycleStart := None;
      }
      previousFlame, previousEnd := Some(flame), Some(piece.right);
    }
    AllPieces(valid, starts, cycles, ends, cycleStart, a);
  }

  lemma AllPieces(valid: seq<Piece>, starts: nat, cycles: seq<Span>, ends: seq<(nat, nat)>, open: Option<int>, a: nat)
    requires CycleState(valid, starts, cycles, ends, open, a, |valid|)
    ensures Counted(valid, starts, cycles) && |cycles| <= starts
    ensures forall i :: 0 <= i < |cycles| ==> cycles[i].left < cycles[i].right
    ensures 0 <= Length(cycles) <= Seconds(valid, Burning)
  {
    assert valid[..|valid|] == valid;
  }

  lemma NothingFits()
    ensures CyclesFit([], None, None, [])
  {
  }

  lemma LightsWhen(valid: seq<Piece>, i: nat)
    requires i < |valid|
    ensures Burning(valid[i].flags) <==> Lit(valid[i].flags) && Requested(valid[i].flags)
    ensures Lights(valid, i) <==>
      Lit(valid[i].flags) && Requested(valid[i].flags) && i > 0 && valid[i - 1].right == valid[i].left
        && !Lit(valid[i - 1].flags)
    ensures EndBefore(valid, i) == if i == 0 then None else Some(valid[i - 1].right)
    ensures StartsTo(valid, i + 1) == StartsTo(valid, i) + if Lights(valid, i) then 1 else 0
  {
  }

  /** The next piece, in each of the ways the loop may take it. */
  lemma FitsOn(valid: seq<Piece>, cycles: seq<Span>, open: Option<int>, previous: Option<int>, n: nat)
    requires n < |valid| && Positive(valid) && CyclesFit(cycles, open, previous, valid[..n])
    ensures var piece, read := valid[n], valid[..n + 1];
      CyclesFit(cycles, None, Some(piece.right), read)
      && (Burning(piece.flags) ==> CyclesFit(cycles, Some(piece.left), Some(piece.right), read))
      && (open.Some? && previous == Some(piece.left) ==>
            CyclesFit(cycles + [Span(open.value, piece.left)], None, Some(piece.right), read)
            && (Burning(piece.flags) ==> CyclesFit(cycles, open, Some(piece.right), read)))
  {
    SecondsOn(valid, n);
    if open.Some? {
      CycleEnds(cycles, open.value, valid[n].left);
    }
    hide Length, Burning, Seconds;
  }

  lemma SecondsOn(valid: seq<Piece>, n: nat)
    requires n < |valid| && Positive(valid)
    ensures Seconds(valid[..n + 1], Burning)
      == Seconds(valid[..n], Burning) + if Burning(valid[n].flags) then valid[n].right - valid[n].left else 0
    ensures valid[n].left < valid[n].right
  {
    assert valid[..n + 1][..n] == valid[..n];
  }

  lemma {:induction false} CycleEnds(cycles: seq<Span>, left: int, right: int)
    ensures Length(cycles + [Span(left, right)]) == Length(cycles) + right - left
  {
    LengthJoin(cycles, [Span(left, right)]);
    OneLength(Span(left, right));
  }

  // ---- What the figures count ---------------------------------------------------------------------

  /** The states of a period and the windows that do not count. */
  datatype Timeline = Timeline(states: seq<StateSample>, exclusions: seq<Span>, start: int, end: int)

  /** State i is the last one reported at t, and the next comes soon enough to confirm it. */
  ghost predicate Shows(states: seq<StateSample>, i: nat, t: int)
    requires i + 1 < |states|
  {
    states[i].at <= t < states[i + 1].at && Confirmed(states, i)
  }

  /** At instant t of the period, outside every exclusion, a wanted state is in force. */
  ghost predicate At(line: Timeline, t: int, wanted: set<string> -> bool) {
    line.start <= t < line.end && t !in Covered(line.exclusions)
    && exists i :: 0 <= i < |line.states| - 1 && Shows(line.states, i, t) && wanted(line.states[i].flags)
  }

  ghost function Instants(line: Timeline, wanted: set<string> -> bool): set<int> {
    set t: int | line.start <= t < line.end && At(line, t, wanted)
  }

  predicate Dark(flags: set<string>) {
    "fl" !in flags
  }

  /** The burner starts at t: the instant before was dark, and now requested heating burns. */
  ghost predicate StartsAt(line: Timeline, t: int) {
    At(line, t, Burning) && At(line, t - 1, Dark)
  }

  ghost function StartInstants(line: Timeline): set<int> {
    set t: int | line.start <= t < line.end && StartsAt(line, t)
  }

  /** From a start requested heating burns at every instant, until a dark one. */
  ghost predicate CycleAt(line: Timeline, cycle: Span) {
    cycle.left < cycle.right && StartsAt(line, cycle.left) && At(line, cycle.right, Dark)
    && forall t :: cycle.left <= t < cycle.right ==> At(line, t, Burning)
  }

  predicate Holds(piece: Piece, t: int) {
    piece.left <= t < piece.right
  }

  ghost predicate PieceAt(pieces: seq<Piece>, t: int, wanted: set<string> -> bool) {
    exists k :: 0 <= k < |pieces| && Holds(pieces[k], t) && wanted(pieces[k].flags)
  }

  /** The pieces and the timeline show the same states at the same instants. */
  ghost predicate Agree(pieces: seq<Piece>, line: Timeline) {
    forall t: int, wanted: set<string> -> bool :: PieceAt(pieces, t, wanted) <==> At(line, t, wanted)
  }

  lemma IntervalsAgree(intervals: seq<Piece>, states: seq<StateSample>, start: int, end: int)
    requires forall i :: 0 <= i < |intervals| ==> InForce(intervals[i], states, start, end)
    requires forall i :: 0 <= i < |states| - 1 && Confirmed(states, i) ==>
      var left, right := Later(start, states[i].at), Earlier(end, states[i + 1].at);
      left < right ==> Piece(left, right, states[i].flags) in intervals
    ensures Agree(intervals, Timeline(states, [], start, end))
  {
    hide *;
    var line := Timeline(states, [], start, end);
    forall t: int, wanted: set<string> -> bool
      ensures PieceAt(intervals, t, wanted) <==> At(line, t, wanted)
    {
      if PieceAt(intervals, t, wanted) {
        PieceShows(intervals, states, start, end, t, wanted);
      }
      if At(line, t, wanted) {
        ShownInPiece(intervals, states, start, end, t, wanted);
      }
    }
    AgreeIf(intervals, line);
  }

  lemma AgreeIf(pieces: seq<Piece>, line: Timeline)
    requires forall t: int, wanted: set<string> -> bool :: PieceAt(pieces, t, wanted) <==> At(line, t, wanted)
    ensures Agree(pieces, line)
  {
  }

  lemma PieceShows(intervals: seq<Piece>, states: seq<StateSample>, start: int, end: int, t: int,
                   wanted: set<string> -> bool)
    requires forall i :: 0 <= i < |intervals| ==> InForce(intervals[i], states, start, end)
    requires PieceAt(intervals, t, wanted)
    ensures At(Timeline(states, [], start, end), t, wanted)
  {
    hide Confirmed;
    var k :| 0 <= k < |intervals| && Holds(intervals[k], t) && wanted(intervals[k].flags);
    assert InForce(intervals[k], states, start, end);
    var i :| 0 <= i < |states| - 1 && states[i].at <= intervals[k].left && intervals[k].right <= states[i + 1].at
      && intervals[k].flags == states[i].flags && Confirmed(states, i);
    assert Shows(states, i, t);
  }

  lemma ShownInPiece(intervals: seq<Piece>, states: seq<StateSample>, start: int, end: int, t: int,
                     wanted: set<string> -> bool)
    requires forall i :: 0 <= i < |states| - 1 && Confirmed(states, i) ==>
      var left, right := Later(start, states[i].at), Earlier(end, states[i + 1].at);
      left < right ==> Piece(left, right, states[i].flags) in intervals
    requires At(Timeline(states, [], start, end), t, wanted)
    ensures PieceAt(intervals, t, wanted)
  {
    hide Confirmed, Covered;
    var i :| 0 <= i < |states| - 1 && Shows(states, i, t) && wanted(states[i].flags);
    var piece := Piece(Later(start, states[i].at), Earlier(end, states[i + 1].at), states[i].flags);
    assert Holds(piece, t) && piece in intervals;
  }

  /** No two pieces hold the same instant. */
  lemma {:induction false} OneHolds(pieces: seq<Piece>, i: nat, j: nat, t: int)
    requires Apart(SpansOf(pieces)) && i < |pieces| && j < |pieces| && Holds(pieces[i], t) && Holds(pieces[j], t)
    ensures i == j
  {
    PiecesApart(pieces);
  }

  lemma {:induction false} PiecesApart(pieces: seq<Piece>)
    requires Apart(SpansOf(pieces))
    ensures forall i, j :: 0 <= i < j < |pieces| ==> pieces[i].right <= pieces[j].left
  {
    forall i, j | 0 <= i < j < |pieces| ensures pieces[i].right <= pieces[j].left {
      assert SpansOf(pieces)[i].right <= SpansOf(pieces)[j].left;
    }
  }

  lemma {:induction false} HeldIsCovered(pieces: seq<Piece>, t: int)
    ensures t in Covered(SpansOf(pieces)) <==> exists k :: 0 <= k < |pieces| && Holds(pieces[k], t)
  {
    CoveredAt(SpansOf(pieces), t);
    hide Covered;
    var spans := SpansOf(pieces);
    if t in Covered(spans) {
      var k :| 0 <= k < |spans| && spans[k].left <= t < spans[k].right;
      assert Holds(pieces[k], t);
    }
    if k :| 0 <= k < |pieces| && Holds(pieces[k], t) {
      assert spans[k].left <= t < spans[k].right;
    }
  }

  /** A piece that is left shows the state its interval showed. */
  lemma LeftoverShows(intervals: seq<Piece>, exclusions: seq<Span>, pieces: seq<Piece>, k: nat, t: int)
    returns (i: nat)
    requires Leaves(intervals, exclusions, pieces) && k < |pieces| && Holds(pieces[k], t)
    ensures i < |intervals| && Holds(intervals[i], t) && pieces[k].flags == intervals[i].flags
    ensures t !in Covered(exclusions)
  {
    HeldIsCovered(pieces, t);
    hide Covered, SpansOf, Apart;
    assert PartOf(pieces[k], intervals);
    i :| 0 <= i < |intervals| && intervals[i].left <= pieces[k].left && pieces[k].right <= intervals[i].right
      && pieces[k].flags == intervals[i].flags;
  }

  lemma LeftoversAgree(intervals: seq<Piece>, line: Timeline, exclusions: seq<Span>, pieces: seq<Piece>)
    requires Apart(SpansOf(intervals)) && Leaves(intervals, exclusions, pieces)
    requires line.exclusions == [] && Agree(intervals, line)
    ensures Agree(pieces, line.(exclusions := exclusions))
  {
    var all := line.(exclusions := exclusions);
    forall t: int, wanted: set<string> -> bool
      ensures PieceAt(pieces, t, wanted) <==> At(all, t, wanted)
    {
      hide At, Covered, SpansOf, Apart, Leaves;
      Excluding(line, exclusions, t, wanted);
      assert PieceAt(intervals, t, wanted) <==> At(line, t, wanted);
      if k :| 0 <= k < |pieces| && Holds(pieces[k], t) && wanted(pieces[k].flags) {
        var i := LeftoverShows(intervals, exclusions, pieces, k, t);
      }
      if PieceAt(intervals, t, wanted) && t !in Covered(exclusions) {
        var i :| 0 <= i < |intervals| && Holds(intervals[i], t) && wanted(intervals[i].flags);
        HeldIsCovered(intervals, t);
        HeldIsCovered(pieces, t);
        var k :| 0 <= k < |pieces| && Holds(pieces[k], t);
        var j := LeftoverShows(intervals, exclusions, pieces, k, t);
        OneHolds(intervals, i, j, t);
      }
    }
  }

  lemma Excluding(line: Timeline, exclusions: seq<Span>, t: int, wanted: set<string> -> bool)
    requires line.exclusions == []
    ensures At(line.(exclusions := exclusions), t, wanted) <==> At(line, t, wanted) && t !in Covered(exclusions)
  {
    NoCells([]);
    hide Shows;
  }

  /** The wanted pieces measure what their instants number. */
  lemma {:induction false} ChosenApart(pieces: seq<Piece>, wanted: set<string> -> bool)
    requires Apart(SpansOf(pieces))
    ensures Apart(SpansOf(Chosen(pieces, wanted)))
    ensures Seconds(pieces, wanted) == Length(SpansOf(Chosen(pieces, wanted)))
    ensures forall x :: x in Chosen(pieces, wanted) <==> x in pieces && wanted(x.flags)
  {
    hide SpansOf, Apart, Length;
    if pieces == [] {
      NothingApart();
    } else {
      var front, last := pieces[..|pieces| - 1], pieces[|pieces| - 1];
      FrontApart(pieces);
      ChosenApart(front, wanted);
      var chosen := Chosen(front, wanted);
      assert pieces == front + [last];
      if wanted(last.flags) {
        forall k | 0 <= k < |chosen| ensures chosen[k].right <= last.left {
          assert chosen[k] in chosen;
        }
        PieceJoins(chosen, last);
      } else {
        assert Chosen(pieces, wanted) == chosen;
      }
    }
  }

  lemma NothingApart()
    ensures Apart(SpansOf([])) && Length(SpansOf([])) == 0
  {
  }

  lemma FrontApart(pieces: seq<Piece>)
    requires Apart(SpansOf(pieces)) && pieces != []
    ensures var front, last := pieces[..|pieces| - 1], pieces[|pieces| - 1];
      Apart(SpansOf(front)) && last.left <= last.right && forall x :: x in front ==> x.right <= last.left
  {
    var front, last, spans := pieces[..|pieces| - 1], pieces[|pieces| - 1], SpansOf(pieces);
    assert SpansOf(front) == spans[..|pieces| - 1];
    forall x | x in front ensures x.right <= last.left {
      var i :| 0 <= i < |front| && front[i] == x;
      assert spans[i].right <= spans[|pieces| - 1].left;
    }
    assert spans[|pieces| - 1].left <= spans[|pieces| - 1].right;
  }

  /** Wanted time is the number of instants at which a wanted state is in force. */
  lemma SecondsAreInstants(pieces: seq<Piece>, line: Timeline, wanted: set<string> -> bool)
    requires Apart(SpansOf(pieces)) && Agree(pieces, line)
    ensures Seconds(pieces, wanted) == |Instants(line, wanted)|
  {
    ChosenApart(pieces, wanted);
    var chosen := Chosen(pieces, wanted);
    LengthIsMeasure(SpansOf(chosen));
    forall t ensures t in Covered(SpansOf(chosen)) <==> t in Instants(line, wanted) {
      HeldIsCovered(chosen, t);
      assert PieceAt(pieces, t, wanted) <==> At(line, t, wanted);
      hide Covered, SpansOf, Apart, Chosen;
      if k :| 0 <= k < |chosen| && Holds(chosen[k], t) {
        assert chosen[k] in chosen;
        var i :| 0 <= i < |pieces| && pieces[i] == chosen[k];
      }
      if i :| 0 <= i < |pieces| && Holds(pieces[i], t) && wanted(pieces[i].flags) {
        assert pieces[i] in chosen;
      }
    }
    assert Covered(SpansOf(chosen)) == Instants(line, wanted);
  }

  // -- Starts and cycles are about instants, not about pieces --

  /** Where the state changes from one instant to the next, two pieces meet. */
  lemma {:induction false} Joint(valid: seq<Piece>, i: nat, j: nat, t: int)
    requires Apart(SpansOf(valid)) && Positive(valid) && i < |valid| && j < |valid|
    requires Holds(valid[i], t) && Holds(valid[j], t - 1) && valid[i].flags != valid[j].flags
    ensures i == j + 1 && valid[i].left == t == valid[j].right
  {
    PiecesApart(valid);
    PiecesBetween(valid);
  }

  lemma {:induction false} PiecesBetween(pieces: seq<Piece>)
    requires Apart(SpansOf(pieces)) && Positive(pieces)
    ensures forall i, j :: 0 <= i < j < |pieces| && i + 1 != j ==> pieces[i].right < pieces[j].left
  {
    PiecesApart(pieces);
    hide Apart, SpansOf;
    forall i, j | 0 <= i < j < |pieces| && i + 1 != j ensures pieces[i].right < pieces[j].left {
      assert pieces[i].right <= pieces[i + 1].left < pieces[i + 1].right <= pieces[j].left;
    }
  }

  lemma {:induction false} LightsStarts(valid: seq<Piece>, line: Timeline, i: nat)
    requires Positive(valid) && Agree(valid, line) && i < |valid| && Lights(valid, i)
    ensures StartsAt(line, valid[i].left) && line.start <= valid[i].left < line.end
  {
    var t := valid[i].left;
    assert Holds(valid[i], t) && Holds(valid[i - 1], t - 1);
    assert PieceAt(valid, t, Burning) && PieceAt(valid, t - 1, Dark);
    hide PieceAt;
    assert At(line, t, Burning) && At(line, t - 1, Dark);
  }

  lemma {:induction false} StartsLight(valid: seq<Piece>, line: Timeline, t: int) returns (i: nat)
    requires Apart(SpansOf(valid)) && Positive(valid) && Agree(valid, line) && StartsAt(line, t)
    ensures i < |valid| && Lights(valid, i) && valid[i].left == t
  {
    hide Apart, SpansOf, At;
    assert PieceAt(valid, t, Burning) && PieceAt(valid, t - 1, Dark);
    i :| 0 <= i < |valid| && Holds(valid[i], t) && Burning(valid[i].flags);
    var j :| 0 <= j < |valid| && Holds(valid[j], t - 1) && Dark(valid[j].flags);
    Joint(valid, i, j, t);
  }

  ghost function LightsTo(valid: seq<Piece>, n: nat): set<int>
    requires n <= |valid|
  {
    if n == 0 then {} else LightsTo(valid, n - 1) + if Lights(valid, n - 1) then {valid[n - 1].left} else {}
  }

  lemma {:induction false} LitInstant(valid: seq<Piece>, n: nat, t: int)
    requires n <= |valid|
    ensures t in LightsTo(valid, n) <==> exists i :: 0 <= i < n && Lights(valid, i) && valid[i].left == t
  {
    hide Lights;
    if n > 0 {
      LitInstant(valid, n - 1, t);
    }
  }

  lemma {:induction false} StartsAreLights(valid: seq<Piece>, n: nat)
    requires n <= |valid| && Positive(valid) && Apart(SpansOf(valid))
    ensures StartsTo(valid, n) == |LightsTo(valid, n)|
  {
    hide *;
    if n == 0 {
      NothingLit(valid);
    } else {
      StartsAreLights(valid, n - 1);
      LeftIsNew(valid, n - 1);
      LitStep(valid, n - 1);
    }
  }

  lemma NothingLit(valid: seq<Piece>)
    ensures StartsTo(valid, 0) == |LightsTo(valid, 0)|
  {
  }

  lemma LitStep(valid: seq<Piece>, n: nat)
    requires n < |valid| && valid[n].left !in LightsTo(valid, n)
    ensures StartsTo(valid, n + 1) - StartsTo(valid, n) == |LightsTo(valid, n + 1)| - |LightsTo(valid, n)|
  {
    hide Lights;
    var before := LightsTo(valid, n);
    assert |before + {valid[n].left}| == |before| + 1 && before + {} == before;
  }

  lemma {:induction false} LeftIsNew(valid: seq<Piece>, n: nat)
    requires n < |valid| && Positive(valid) && Apart(SpansOf(valid))
    ensures valid[n].left !in LightsTo(valid, n)
  {
    PiecesApart(valid);
    LitInstant(valid, n, valid[n].left);
    hide Lights, Apart, SpansOf, LightsTo;
  }

  /** The starts counted are the instants at which the burner starts. */
  lemma {:induction false} StartsAreInstants(valid: seq<Piece>, line: Timeline)
    requires Apart(SpansOf(valid)) && Positive(valid) && Agree(valid, line)
    ensures StartsTo(valid, |valid|) == |StartInstants(line)|
  {
    hide Lights, Apart, SpansOf, Positive, Agree, StartsAt, LightsTo, StartsTo;
    StartsAreLights(valid, |valid|);
    var lefts := LightsTo(valid, |valid|);
    forall t ensures t in lefts <==> t in StartInstants(line) {
      LitInstant(valid, |valid|, t);
      if i :| 0 <= i < |valid| && Lights(valid, i) && valid[i].left == t {
        LightsStarts(valid, line, i);
      }
      if StartsAt(line, t) {
        var i := StartsLight(valid, line, t);
      }
    }
    assert lefts == StartInstants(line);
  }

  /** In a stretch of burning pieces without a hole every instant burns. */
  lemma {:induction false} BurnsAt(valid: seq<Piece>, a: nat, b: nat, t: int)
    requires Burns(valid, a, b) && valid[a].left <= t < valid[b - 1].right
    ensures PieceAt(valid, t, Burning)
    decreases b
  {
    if t >= valid[b - 1].left {
      assert Holds(valid[b - 1], t);
    } else {
      BurnsAt(valid, a, b - 1, t);
    }
  }

  lemma {:induction false} CycleIsAt(valid: seq<Piece>, line: Timeline, a: nat, b: nat)
    requires Positive(valid) && Agree(valid, line) && Cycle(valid, a, b)
    ensures CycleAt(line, Span(valid[a].left, valid[b].left))
  {
    LightsStarts(valid, line, a);
    BurnsFrom(valid, a, b);
    Extinguished(valid[b].flags);
    var left, right := valid[a].left, valid[b].left;
    assert Holds(valid[b], right);
    assert PieceAt(valid, right, Dark);
    hide Burning, PieceAt, StartsAt, At, Lights, Dark, Positive;
    forall t | left <= t < right ensures At(line, t, Burning) {
      BurnsAt(valid, a, b, t);
    }
  }

  lemma {:induction false} BurnsFrom(valid: seq<Piece>, a: nat, b: nat)
    requires Positive(valid) && Burns(valid, a, b)
    ensures valid[a].left < valid[b - 1].right
    decreases b
  {
    if a < b - 1 {
      BurnsFrom(valid, a, b - 1);
    }
  }

  /** A piece whose first instant burns is burning. */
  lemma {:induction false} BurningPiece(valid: seq<Piece>, line: Timeline, t: int) returns (k: nat)
    requires Agree(valid, line) && At(line, t, Burning)
    ensures k < |valid| && Holds(valid[k], t) && Burning(valid[k].flags)
  {
    hide At;
    assert PieceAt(valid, t, Burning);
    k :| 0 <= k < |valid| && Holds(valid[k], t) && Burning(valid[k].flags);
  }

  lemma {:induction false} CycleFound(valid: seq<Piece>, line: Timeline, cycle: Span) returns (a: nat, b: nat)
    requires Apart(SpansOf(valid)) && Positive(valid) && Agree(valid, line) && CycleAt(line, cycle)
    ensures Cycle(valid, a, b) && cycle == Span(valid[a].left, valid[b].left)
  {
    hide *;
    CycleMeans(line, cycle);
    a := StartsLight(valid, line, cycle.left);
    var last := BurningPiece(valid, line, cycle.right - 1);
    b := DarkPiece(valid, line, cycle.right);
    Extinguished(valid[b].flags);
    Extinguished(valid[last].flags);
    Joint(valid, b, last, cycle.right);
    CycleBurns(valid, line, a, b);
  }

  lemma CycleMeans(line: Timeline, cycle: Span)
    requires CycleAt(line, cycle)
    ensures StartsAt(line, cycle.left) && cycle.left < cycle.right && At(line, cycle.right, Dark)
    ensures forall t :: cycle.left <= t < cycle.right ==> At(line, t, Burning)
  {
  }

  lemma {:induction false} DarkPiece(valid: seq<Piece>, line: Timeline, t: int) returns (k: nat)
    requires Agree(valid, line) && At(line, t, Dark)
    ensures k < |valid| && Holds(valid[k], t) && Dark(valid[k].flags)
  {
    hide At;
    assert PieceAt(valid, t, Dark);
    k :| 0 <= k < |valid| && Holds(valid[k], t) && Dark(valid[k].flags);
  }

  lemma {:induction false} CycleBurns(valid: seq<Piece>, line: Timeline, a: nat, b: nat)
    requires Apart(SpansOf(valid)) && Positive(valid) && Agree(valid, line) && a < |valid| && b < |valid|
    requires Lights(valid, a) && b > 0 && valid[b - 1].right == valid[b].left && !Lit(valid[b].flags)
    requires valid[a].left < valid[b].left
    requires forall t :: valid[a].left <= t < valid[b].left ==> At(line, t, Burning)
    ensures Cycle(valid, a, b)
  {
    PiecesApart(valid);
    hide Apart, SpansOf, Agree, At, Lights, Burning, Lit;
    forall k | a <= k < b ensures Burning(valid[k].flags) {
      var m := BurningPiece(valid, line, valid[k].left);
      OneHolds(valid, k, m, valid[k].left);
    }
    forall k | a <= k < b - 1 ensures valid[k].right == valid[k + 1].left {
      var m := BurningPiece(valid, line, valid[k].right);
      NextHolds(valid, k, m);
    }
  }

  lemma Extinguished(flags: set<string>)
    ensures Dark(flags) <==> !Lit(flags)
    ensures Burning(flags) ==> Lit(flags)
  {
  }

  lemma {:induction false} NextHolds(valid: seq<Piece>, k: nat, m: nat)
    requires Positive(valid) && k + 1 < |valid| && m < |valid| && Holds(valid[m], valid[k].right)
    requires forall i, j :: 0 <= i < j < |valid| ==> valid[i].right <= valid[j].left
    ensures valid[k].right == valid[k + 1].left
  {
  }

  /** The cycles listed are exactly those of the timeline, in order. */
  ghost predicate CyclesOf(line: Timeline, cycles: seq<Span>) {
    (forall c :: c in cycles <==> CycleAt(line, c))
    && forall i, j :: 0 <= i < j < |cycles| ==> cycles[i].right < cycles[j].right
  }

  lemma {:induction false} CyclesAreInstants(valid: seq<Piece>, line: Timeline, starts: nat, cycles: seq<Span>)
    requires Apart(SpansOf(valid)) && Positive(valid) && Agree(valid, line) && Counted(valid, starts, cycles)
    ensures forall c :: c in cycles <==> CycleAt(line, c)
    ensures forall i, j :: 0 <= i < j < |cycles| ==> cycles[i].right < cycles[j].right
  {
    var ends: seq<(nat, nat)> :| CyclesAre(valid, cycles, ends, |valid|);
    hide *;
    forall c | c in cycles ensures CycleAt(line, c) {
      var i :| 0 <= i < |cycles| && cycles[i] == c;
      ListedCycle(valid, cycles, ends, i);
      CycleIsAt(valid, line, ends[i].0, ends[i].1);
    }
    forall c | CycleAt(line, c) ensures c in cycles {
      var a, b := CycleFound(valid, line, c);
      CycleListed(valid, cycles, ends, a, b);
    }
    CyclesInOrder(valid, cycles, ends);
  }

  lemma ListedCycle(valid: seq<Piece>, cycles: seq<Span>, ends: seq<(nat, nat)>, i: nat)
    requires CyclesAre(valid, cycles, ends, |valid|) && i < |cycles|
    ensures |ends| == |cycles| && Cycle(valid, ends[i].0, ends[i].1)
    ensures ends[i].0 < |valid| && ends[i].1 < |valid|
    ensures cycles[i] == Span(valid[ends[i].0].left, valid[ends[i].1].left)
  {
  }

  lemma CycleListed(valid: seq<Piece>, cycles: seq<Span>, ends: seq<(nat, nat)>, a: nat, b: nat)
    requires CyclesAre(valid, cycles, ends, |valid|) && Cycle(valid, a, b)
    ensures a < |valid| && b < |valid| && Span(valid[a].left, valid[b].left) in cycles
  {
    EndsWithin(valid, a, b);
    hide Cycle;
    var i :| 0 <= i < |ends| && ends[i] == (a, b);
    assert cycles[i] in cycles;
  }

  lemma {:induction false} CyclesInOrder(valid: seq<Piece>, cycles: seq<Span>, ends: seq<(nat, nat)>)
    requires Apart(SpansOf(valid)) && Positive(valid) && CyclesAre(valid, cycles, ends, |valid|)
    ensures forall i, j :: 0 <= i < j < |cycles| ==> cycles[i].right < cycles[j].right
  {
    PiecesApart(valid);
    hide Apart, SpansOf, Cycle;
  }

  lemma EndsWithin(valid: seq<Piece>, a: nat, b: nat)
    requires Cycle(valid, a, b)
    ensures a < b < |valid|
  {
  }

  // ---- The published ratios -----------------------------------------------------------------------

  function Ratio(part: int, whole: int): real
    requires whole > 0
  {
    part as real / whole as real
  }

  function Percent(part: int, whole: int): real
    requires whole > 0
  {
    Ratio(part, whole) * 100.0
  }

  lemma PercentInRange(part: int, whole: int)
    requires 0 <= part <= whole && whole > 0
    ensures 0.0 <= Percent(part, whole) <= 100.0
    ensures 0.0 <= Ratio(part, whole) <= 1.0
  {
    var p, w := part as real, whole as real;
    QuotientInRange(p, w);
  }

  lemma QuotientInRange(p: real, w: real)
    requires 0.0 <= p <= w && w > 0.0
    ensures 0.0 <= p / w <= 1.0
  {
    assert p / w * w == p;
  }

  datatype Metrics =
    | Insufficient(coverage: real)
    | Measured(coverage: real, baseCoverage: real, observedValid: int, eligible: int,
               demand: int, flame: int, starts: nat, cycles: seq<Span>,
               runtimeRatio: Option<real>, idleRatio: Option<real>)

  /** What the published metrics promise about themselves: every coverage is a percentage and
      every ratio a fraction. */
  ghost predicate InBounds(m: Metrics) {
    0.0 <= m.coverage <= 100.0
    && (m.Measured? ==>
          0.0 <= m.baseCoverage <= 100.0 && 0 <= m.flame <= m.demand <= m.observedValid <= m.eligible
          && |m.cycles| <= m.starts && 0 <= Length(m.cycles) <= m.flame
          && (m.runtimeRatio.Some? ==> 0.0 <= m.runtimeRatio.value <= 1.0)
          && (m.idleRatio.Some? ==> 0.0 <= m.idleRatio.value <= 1.0))
  }

  /** The ratios, once there is a minute of request in a well covered period. */
  ghost predicate RatiosOf(m: Metrics, minCoverage: real)
    requires m.Measured?
  {
    m.baseCoverage == (if m.eligible > 0 then Percent(m.observedValid, m.eligible) else 0.0)
    && var enough := m.demand >= 60 * SECOND && m.observedValid >= 60 * SECOND && m.baseCoverage >= minCoverage;
      m.runtimeRatio == (if enough then Some(Ratio(m.flame, m.demand)) else None)
      && m.idleRatio == (if enough then Some(Ratio(m.demand - m.flame, m.demand)) else None)
  }

  /** The metrics in terms of the pieces they were computed from. */
  ghost predicate MeasuresPieces(m: Metrics, valid: seq<Piece>, minCoverage: real) {
    m.Measured? && RatiosOf(m, minCoverage)
    && m.demand == Seconds(valid, Requested) && m.flame == Seconds(valid, Burning)
    && Counted(valid, m.starts, m.cycles)
  }

  /** What the metrics measure: each figure is a number of instants of the period, picked by the
      state in force, and the cycles are the stretches between a start and the next dark instant. */
  ghost predicate Measures(m: Metrics, line: Timeline, minCoverage: real) {
    m.Measured? && RatiosOf(m, minCoverage)
    && m.observedValid == |Instants(line, Any)|
    && m.eligible == |Cells(line.start, line.end) - Covered(line.exclusions)|
    && m.demand == |Instants(line, Requested)| && m.flame == |Instants(line, Burning)|
    && m.starts == |StartInstants(line)| && CyclesOf(line, m.cycles)
  }

  lemma InstantsMeasured(m: Metrics, valid: seq<Piece>, line: Timeline, minCoverage: real)
    requires Apart(SpansOf(valid)) && Positive(valid) && Agree(valid, line) && MeasuresPieces(m, valid, minCoverage)
    requires m.observedValid == Seconds(valid, Any)
    requires m.eligible == |Cells(line.start, line.end) - Covered(line.exclusions)|
    ensures Measures(m, line, minCoverage)
  {
    hide Apart, SpansOf, Positive, Agree, RatiosOf, StartInstants, CycleAt, Instants, Seconds, Cells, Covered;
    SecondsAreInstants(valid, line, Any);
    SecondsAreInstants(valid, line, Requested);
    SecondsAreInstants(valid, line, Burning);
    StartsAreInstants(valid, line);
    CyclesAreInstants(valid, line, m.starts, m.cycles);
  }

  /** The measured time is exactly the observed time outside the exclusions, and the eligible
      time exactly the period outside them. */
  method ObservedAndEligible(intervals: seq<Piece>, exclusions: seq<Span>, start: int, end: int)
    returns (valid: seq<Piece>, observedValid: int, eligible: int)
    requires start < end && Apart(SpansOf(intervals)) && Positive(intervals)
    requires forall i :: 0 <= i < |intervals| ==> start <= intervals[i].left && intervals[i].right <= end
    requires forall i :: 0 <= i < |exclusions| ==> exclusions[i].left <= exclusions[i].right
    ensures Leaves(intervals, exclusions, valid)
    ensures observedValid == Seconds(valid, Any) == |Covered(SpansOf(valid))|
    ensures eligible == |Cells(start, end) - Covered(exclusions)|
    ensures 0 <= observedValid <= eligible
  {
    hide *;
    valid := SplitStateIntervals(intervals, exclusions);
    LeftOver(intervals, exclusions, valid);
    observedValid := Seconds(valid, Any);
    SecondsIsLength(valid);
    LengthIsMeasure(SpansOf(valid));
    var excluded := UnionSeconds(start, end, exclusions);
    eligible := (end - start) - excluded;
    CellCount(start, end);
    InsidePeriod(intervals, start, end);
    Rest(Cells(start, end), Covered(exclusions));
    SubsetMeasure(Covered(SpansOf(intervals)) - Covered(exclusions), Cells(start, end) - Covered(exclusions));
  }

  lemma LeftOver(intervals: seq<Piece>, exclusions: seq<Span>, pieces: seq<Piece>)
    requires Leaves(intervals, exclusions, pieces)
    ensures Positive(pieces) && Apart(SpansOf(pieces))
    ensures Covered(SpansOf(pieces)) == Covered(SpansOf(intervals)) - Covered(exclusions)
  {
  }

  lemma Rest(all: set<int>, out: set<int>)
    ensures |all - out| == |all| - |out * all|
  {
    assert all == (all - out) + (out * all);
  }

  lemma {:induction false} InsidePeriod(intervals: seq<Piece>, start: int, end: int)
    requires forall i :: 0 <= i < |intervals| ==> start <= intervals[i].left && intervals[i].right <= end
    ensures Covered(SpansOf(intervals)) <= Cells(start, end)
  {
    forall t | t in Covered(SpansOf(intervals)) ensures t in Cells(start, end) {
      CoveredAt(SpansOf(intervals), t);
    }
  }

  /** evidence._operational_metrics: coverage, demand, flame time and cycles. */
  method OperationalMetrics(states: seq<StateSample>, exclusions: seq<Span>, start: int, end: int, minCoverage: real)
    returns (m: Metrics)
    requires start < end && Normalised(states)
    requires forall i :: 0 <= i < |exclusions| ==> exclusions[i].left <= exclusions[i].right
    ensures InBounds(m)
    ensures var all := Instants(Timeline(states, [], start, end), Any);
      m.coverage == Percent(|all|, end - start)
      && (m.Insufficient? <==> all == {} || m.coverage < minCoverage)
    ensures m.Measured? ==> Measures(m, Timeline(states, exclusions, start, end), minCoverage)
  {
    hide *;
    var found := StateIntervals(states, start, end);
    ghost var line := Timeline(states, [], start, end);
    InForcePositive(found, states, start, end);
    var observed := Seconds(found, Any);
    ObservedInPeriod(found, start, end);
    IntervalsAgree(found, states, start, end);
    SecondsAreInstants(found, line, Any);
    NothingInForce(found, line);
    var coverage := Percent(observed, end - start);
    PercentInRange(observed, end - start);
    if found == [] || coverage < minCoverage {
      m := Insufficient(coverage);
      InsufficientInBounds(m);
      return;
    }
    var valid, observedValid, eligible := ObservedAndEligible(found, exclusions, start, end);
    LeftOver(found, exclusions, valid);
    LeftoversAgree(found, line, exclusions, valid);
    m := ValidMetrics(valid, observedValid, eligible, coverage, minCoverage);
    InstantsMeasured(m, valid, Timeline(states, exclusions, start, end), minCoverage);
  }

  lemma {:induction false} NothingInForce(intervals: seq<Piece>, line: Timeline)
    requires Agree(intervals, line) && Positive(intervals)
    ensures intervals == [] <==> Instants(line, Any) == {}
  {
    if intervals != [] {
      var t := intervals[0].left;
      assert Holds(intervals[0], t) && Any(intervals[0].flags);
      assert PieceAt(intervals, t, Any);
      assert t in Instants(line, Any);
    } else {
      forall t ensures !At(line, t, Any) {
        assert !PieceAt(intervals, t, Any);
      }
    }
  }

  lemma InsufficientInBounds(m: Metrics)
    requires m.Insufficient? && 0.0 <= m.coverage <= 100.0
    ensures InBounds(m)
  {
  }

  /** The request and flame figures of the valid pieces. */
  method RequestSeconds(valid: seq<Piece>, observedValid: int) returns (demand: int, flame: int, demandFlame: int)
    requires Positive(valid) && observedValid == Seconds(valid, Any)
    ensures demand == Seconds(valid, Requested) && flame == demandFlame == Seconds(valid, Burning)
    ensures 0 <= flame <= demand <= observedValid
  {
    hide Positive, Seconds, Chosen;
    var demandPieces := Chosen(valid, Requested);
    demand, flame, demandFlame := Seconds(valid, Requested), Seconds(valid, Burning), Seconds(demandPieces, Lit);
    ChosenSeconds(valid, Requested, Lit, Burning);
    SecondsMonotone(valid, Burning, Requested);
    SecondsMonotone(valid, Requested, Any);
  }

  /** The part of the metrics that excludes windows: base coverage and the ratios. */
  method ValidMetrics(valid: seq<Piece>, observedValid: int, eligible: int, coverage: real, minCoverage: real)
    returns (m: Metrics)
    requires Positive(valid) && observedValid == Seconds(valid, Any) && 0 <= observedValid <= eligible
    requires 0.0 <= coverage <= 100.0
    ensures m.Measured? && InBounds(m) && MeasuresPieces(m, valid, minCoverage)
    ensures m.coverage == coverage && m.observedValid == observedValid && m.eligible == eligible
  {
    var minute := 60 * SECOND;
    assert minute > 0 && minute == 60 * SECOND;
    hide *;
    var demand, flame, demandFlame := RequestSeconds(valid, observedValid);
    var starts, cycles := FlameCycles(valid);
    var base := BaseCoverage(observedValid, eligible);
    var enough := demand >= minute && observedValid >= minute && base >= minCoverage;
    var runtime, idle := Ratios(demand, flame, demandFlame, enough);
    m := Measured(coverage, base, observedValid, eligible, demand, flame, starts, cycles, runtime, idle);
    MeasuredInBounds(m);
    MeasuresHold(m, valid, minCoverage, minute);
  }

  method BaseCoverage(observedValid: int, eligible: int) returns (base: real)
    requires 0 <= observedValid <= eligible
    ensures base == (if eligible > 0 then Percent(observedValid, eligible) else 0.0) && 0.0 <= base <= 100.0
  {
    base := 0.0;
    if eligible > 0 {
      PercentInRange(observedValid, eligible);
      base := Percent(observedValid, eligible);
    }
  }

  method Ratios(demand: int, flame: int, demandFlame: int, enough: bool)
    returns (runtime: Option<real>, idle: Option<real>)
    requires 0 <= flame == demandFlame <= demand && (enough ==> demand > 0)
    ensures runtime == (if enough then Some(Ratio(flame, demand)) else None)
    ensures idle == (if enough then Some(Ratio(demand - flame, demand)) else None)
    ensures (runtime.Some? ==> 0.0 <= runtime.value <= 1.0) && (idle.Some? ==> 0.0 <= idle.value <= 1.0)
  {
    runtime, idle := None, None;
    if enough {
      PercentInRange(flame, demand);
      PercentInRange(demand - demandFlame, demand);
      runtime, idle := Some(Ratio(flame, demand)), Some(Ratio(demand - demandFlame, demand));
    }
  }

  lemma MeasuresHold(m: Metrics, valid: seq<Piece>, minCoverage: real, minute: int)
    requires m.Measured? && minute == 60 * SECOND
    requires m.baseCoverage == if m.eligible > 0 then Percent(m.observedValid, m.eligible) else 0.0
    requires m.demand == Seconds(valid, Requested) && m.flame == Seconds(valid, Burning)
    requires Counted(valid, m.starts, m.cycles)
    requires var enough := m.demand >= minute && m.observedValid >= minute && m.baseCoverage >= minCoverage;
      minute > 0
      && m.runtimeRatio == (if enough then Some(Ratio(m.flame, m.demand)) else None)
      && m.idleRatio == (if enough then Some(Ratio(m.demand - m.flame, m.demand)) else None)
    ensures MeasuresPieces(m, valid, minCoverage)
  {
    hide Seconds, Percent, Ratio, Counted;
  }

  lemma MeasuredInBounds(m: Metrics)
    requires m.Measured? && 0.0 <= m.coverage <= 100.0 && 0.0 <= m.baseCoverage <= 100.0
    requires 0 <= m.flame <= m.demand <= m.observedValid <= m.eligible
    requires |m.cycles| <= m.starts && 0 <= Length(m.cycles) <= m.flame
    requires m.runtimeRatio.Some? ==> 0.0 <= m.runtimeRatio.value <= 1.0
    requires m.idleRatio.Some? ==> 0.0 <= m.idleRatio.value <= 1.0
    ensures InBounds(m)
  {
  }

  lemma InForcePositive(intervals: seq<Piece>, states: seq<StateSample>, start: int, end: int)
    requires forall i :: 0 <= i < |intervals| ==> InForce(intervals[i], states, start, end)
    ensures Positive(intervals)
      && forall i :: 0 <= i < |intervals| ==> start <= intervals[i].left && intervals[i].right <= end
  {
  }

  lemma {:induction false} ObservedInPeriod(intervals: seq<Piece>, start: int, end: int)
    requires start < end && Apart(SpansOf(intervals))
    requires forall i :: 0 <= i < |intervals| ==> start <= intervals[i].left && intervals[i].right <= end
    ensures 0 <= Seconds(intervals, Any) <= end - start && Seconds(intervals, Any) == |Covered(SpansOf(intervals))|
  {
    SecondsIsLength(intervals);
    LengthIsMeasure(SpansOf(intervals));
    InsidePeriod(intervals, start, end);
    SubsetMeasure(Covered(SpansOf(intervals)), Cells(start, end));
    CellCount(start, end);
  }
}
