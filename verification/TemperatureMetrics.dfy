/** Time in, above and below the target band: a sweep over temperature segments with a cursor
    over the target transitions, against a sum over single seconds with plain lookups. */
module TemperatureMetrics {
  import opened Options
  import opened RealArithmetic
  import opened Statistics
  import opened TargetTimeline

  /** A stretch of time with one measured temperature. Time is in whole seconds. */
  datatype Segment = Segment(left: int, right: int, value: real)

  ghost predicate Apart(segments: seq<Segment>) {
    (forall i :: 0 <= i < |segments| ==> segments[i].left < segments[i].right)
    && forall i, j :: 0 <= i < j < |segments| ==> segments[i].right <= segments[j].left
  }

  predicate Readings(samples: seq<Observation>) {
    forall i :: 0 <= i < |samples| ==> samples[i].value.Some?
  }

  /** The longest gap that two readings may bridge. */
  function MaximumGap(ordered: seq<Observation>): real
    requires |ordered| >= 2
  {
    var usual := Median(Gaps((o: Observation) => o.at, ordered)) * 2.5;
    if usual < 60.0 then 60.0 else usual
  }

  /** A reading holds until the next one, if that comes soon enough. */
  ghost predicate Holds(segment: Segment, ordered: seq<Observation>) {
    |ordered| >= 2
    && exists i :: 0 <= i < |ordered| - 1
         && segment.left == ordered[i].at && segment.right == ordered[i + 1].at
         && Some(segment.value) == ordered[i].value
         && 0.0 < (segment.right - segment.left) as real <= MaximumGap(ordered)
  }

  /** The next reading comes soon enough. */
  predicate Bridged(ordered: seq<Observation>, i: nat)
    requires i < |ordered| - 1
  {
    0.0 < (ordered[i + 1].at - ordered[i].at) as real <= MaximumGap(ordered)
  }

  function SegmentAt(ordered: seq<Observation>, i: nat): Segment
    requires i < |ordered| - 1
  {
    Segment(ordered[i].at, ordered[i + 1].at, if ordered[i].value.Some? then ordered[i].value.value else 0.0)
  }

  lemma BridgedMeans(ordered: seq<Observation>, i: nat)
    requires i < |ordered| - 1 && ordered[i].value.Some?
    ensures Bridged(ordered, i) <==> 0.0 < (ordered[i + 1].at - ordered[i].at) as real <= MaximumGap(ordered)
    ensures SegmentAt(ordered, i) == Segment(ordered[i].at, ordered[i + 1].at, ordered[i].value.value)
  {
    hide MaximumGap;
  }

  /** metrics._segments: every bridged gap between neighbouring readings, and nothing else. */
  method Segments(samples: seq<Observation>) returns (segments: seq<Segment>)
    requires Readings(samples)
    ensures Apart(segments)
    ensures forall i :: 0 <= i < |segments| ==> Holds(segments[i], ByTime(samples))
    ensures forall i :: 0 <= i < |ByTime(samples)| - 1 && Bridged(ByTime(samples), i) ==>
      SegmentAt(ByTime(samples), i) in segments
  {
    hide *;
    var ordered := ByTime(samples);
    ReadingsInOrder(samples, ordered);
    segments := [];
    NoSegments();
    if |ordered| < 2 {
      return;
    }
    var maximum := MaximumGap(ordered);
    for i := 0 to |ordered| - 1
      invariant Apart(segments) && forall k :: 0 <= k < |segments| ==> Holds(segments[k], ordered)
      invariant forall k :: 0 <= k < |segments| ==> segments[k].right <= ordered[i].at
      invariant forall k :: 0 <= k < i && Bridged(ordered, k) ==> SegmentAt(ordered, k) in segments
    {
      var gap := ordered[i + 1].at - ordered[i].at;
      BridgedMeans(ordered, i);
      if 0.0 < gap as real <= maximum {
        var segment := Segment(ordered[i].at, ordered[i + 1].at, ordered[i].value.value);
        HoldsHere(ordered, i, segment);
        NextSegment(segments, segment);
        segments := segments + [segment];
      }
    }
  }

  lemma ReadingsInOrder(samples: seq<Observation>, ordered: seq<Observation>)
    requires Readings(samples) && ordered == ByTime(samples)
    ensures forall i :: 0 <= i < |ordered| ==> ordered[i].value.Some?
    ensures forall i, j :: 0 <= i < j < |ordered| ==> ordered[i].at < ordered[j].at
  {
    hide ByTime;
    LatestByTime(samples, 0);
    ByTimeReadings(samples);
  }

  lemma NoSegments()
    ensures Apart([])
  {
  }

  lemma HoldsHere(ordered: seq<Observation>, i: nat, segment: Segment)
    requires |ordered| >= 2 && i < |ordered| - 1 && ordered[i].value.Some?
    requires segment == Segment(ordered[i].at, ordered[i + 1].at, ordered[i].value.value)
    requires 0.0 < (segment.right - segment.left) as real <= MaximumGap(ordered)
    ensures Holds(segment, ordered) && segment.left < segment.right
  {
    hide MaximumGap;
  }

  lemma NextSegment(segments: seq<Segment>, segment: Segment)
    requires Apart(segments) && segment.left < segment.right
      && forall k :: 0 <= k < |segments| ==> segments[k].right <= segment.left
    ensures Apart(segments + [segment])
  {
  }

  lemma {:induction false} ByTimeReadings(samples: seq<Observation>)
    requires Readings(samples)
    ensures Readings(ByTime(samples))
  {
    if samples != [] {
      var front, last := samples[..|samples| - 1], samples[|samples| - 1];
      ByTimeReadings(front);
      LatestByTime(front, 0);
      EnteredIncreasing(ByTime(front), last);
      var entered := Entered(ByTime(front), last);
      forall i | 0 <= i < |entered| ensures entered[i].value.Some? {
        assert entered[i] in entered;
      }
    }
  }

  // ---- The totals ---------------------------------------------------------------------------------

  datatype Totals = Totals(inBand: int, above: int, below: int, targeted: int, absolute: real, aboveHeat: real,
                           belowHeat: real)

  const NOTHING := Totals(0, 0, 0, 0, 0.0, 0.0, 0.0)

  function Plus(a: Totals, b: Totals): Totals {
    Totals(a.inBand + b.inBand, a.above + b.above, a.below + b.below, a.targeted + b.targeted,
           a.absolute + b.absolute, a.aboveHeat + b.aboveHeat, a.belowHeat + b.belowHeat)
  }

  function AtLeastZero(x: real): real {
    if x < 0.0 then 0.0 else x
  }

  /** What a stretch with one temperature and one target adds. */
  function Share(value: real, target: Option<real>, band: real, seconds: int): Totals {
    match target
    case None => NOTHING
    case Some(goal) =>
      var error := value - goal;
      Totals(if Abs(error) <= band then seconds else 0,
             if Abs(error) > band && error > band then seconds else 0,
             if Abs(error) > band && !(error > band) then seconds else 0,
             seconds,
             Abs(error) * seconds as real,
             AtLeastZero(error) * seconds as real / 3600.0,
             AtLeastZero(-error) * seconds as real / 3600.0)
  }

  /** The reference: second by second, each with the plain lookup of the target. */
  ghost function PerSecond(value: real, targets: seq<Observation>, fallback: Option<real>, band: real, from: int,
                           until: int): Totals
    decreases until - from
  {
    if until <= from then NOTHING
    else Plus(PerSecond(value, targets, fallback, band, from, until - 1),
              Share(value, TargetAt(targets, fallback, until - 1), band, 1))
  }

  ghost function Integral(segments: seq<Segment>, targets: seq<Observation>, fallback: Option<real>, band: real)
    : Totals
  {
    if segments == [] then NOTHING
    else
      var last := segments[|segments| - 1];
      Plus(Integral(segments[..|segments| - 1], targets, fallback, band),
           PerSecond(last.value, targets, fallback, band, last.left, last.right))
  }

  lemma ShareAdds(value: real, target: Option<real>, band: real, m: int, n: int)
    ensures Share(value, target, band, m + n) == Plus(Share(value, target, band, m), Share(value, target, band, n))
  {
    if target.Some? {
      var e := value - target.value;
      assert (m + n) as real == m as real + n as real;
      Spread(Abs(e), m as real, n as real);
      Spread(AtLeastZero(e), m as real, n as real);
      Spread(AtLeastZero(-e), m as real, n as real);
    }
  }

  lemma Spread(e: real, x: real, y: real)
    ensures e * (x + y) == e * x + e * y
    ensures e * (x + y) / 3600.0 == e * x / 3600.0 + e * y / 3600.0
  {
  }

  lemma PlusAssociates(a: Totals, b: Totals, c: Totals)
    ensures Plus(Plus(a, b), c) == Plus(a, Plus(b, c)) && Plus(a, NOTHING) == a
  {
  }

  /** A stretch without a transition is worth its seconds one by one. */
  lemma {:induction false} StretchIsSeconds(value: real, targets: seq<Observation>, fallback: Option<real>, band: real,
                                            from: int, mid: int, until: int)
    requires from <= mid <= until
    requires forall t :: mid <= t < until ==> TargetAt(targets, fallback, t) == TargetAt(targets, fallback, mid)
    ensures PerSecond(value, targets, fallback, band, from, until)
      == Plus(PerSecond(value, targets, fallback, band, from, mid),
              Share(value, TargetAt(targets, fallback, mid), band, until - mid))
    decreases until - mid
  {
    hide Share, Plus, TargetAt;
    var before := PerSecond(value, targets, fallback, band, from, mid);
    var goal := TargetAt(targets, fallback, mid);
    if mid == until {
      ShareOfNothing(value, goal, band);
      PlusAssociates(before, NOTHING, NOTHING);
    } else {
      StretchIsSeconds(value, targets, fallback, band, from, mid, until - 1);
      ShareAdds(value, goal, band, until - 1 - mid, 1);
      PlusAssociates(before, Share(value, goal, band, until - 1 - mid), Share(value, goal, band, 1));
      LastSecond(value, targets, fallback, band, from, until);
      hide PerSecond;
      assert TargetAt(targets, fallback, until - 1) == goal;
    }
  }

  lemma LastSecond(value: real, targets: seq<Observation>, fallback: Option<real>, band: real, from: int, until: int)
    requires from < until
    ensures PerSecond(value, targets, fallback, band, from, until)
      == Plus(PerSecond(value, targets, fallback, band, from, until - 1),
              Share(value, TargetAt(targets, fallback, until - 1), band, 1))
  {
    hide Share, Plus, TargetAt;
  }

  lemma ShareOfNothing(value: real, target: Option<real>, band: real)
    ensures Share(value, target, band, 0) == NOTHING
  {
  }

  // ---- The sweep ----------------------------------------------------------------------------------

  /** Boundaries of the parts of a segment: its ends and the transitions strictly inside. */
  ghost predicate PartsOf(bounds: seq<int>, list: seq<Observation>, left: int, right: int) {
    |bounds| >= 2 && bounds[0] == left && bounds[|bounds| - 1] == right
    && (forall i, j :: 0 <= i < j < |bounds| ==> bounds[i] < bounds[j])
    && forall i, k :: 0 <= i < |bounds| - 1 && 0 <= k < |list| ==> !(bounds[i] < list[k].at < bounds[i + 1])
  }

  /** The boundaries found among the first k transitions. */
  ghost predicate PartsSoFar(bounds: seq<int>, list: seq<Observation>, left: int, right: int, k: nat) {
    k <= |list| && |bounds| >= 1 && bounds[0] == left && bounds[|bounds| - 1] < right
    && (forall i, j :: 0 <= i < j < |bounds| ==> bounds[i] < bounds[j])
    && (bounds[|bounds| - 1] == left || (k > 0 && bounds[|bounds| - 1] <= list[k - 1].at))
    && (forall i, m :: 0 <= i < |bounds| - 1 && 0 <= m < |list| ==> !(bounds[i] < list[m].at < bounds[i + 1]))
    && forall m :: 0 <= m < k ==> !(bounds[|bounds| - 1] < list[m].at < right)
  }

  lemma PartFound(bounds: seq<int>, list: seq<Observation>, left: int, right: int, k: nat)
    requires PartsSoFar(bounds, list, left, right, k) && k < |list| && Increasing(list)
    ensures PartsSoFar(if left < list[k].at < right then bounds + [list[k].at] else bounds, list, left, right, k + 1)
  {
    if left < list[k].at < right {
      BoundaryFound(bounds, list, left, right, k);
    }
  }

  lemma BoundaryFound(bounds: seq<int>, list: seq<Observation>, left: int, right: int, k: nat)
    requires PartsSoFar(bounds, list, left, right, k) && k < |list| && Increasing(list) && left < list[k].at < right
    ensures PartsSoFar(bounds + [list[k].at], list, left, right, k + 1)
  {
    var more, last := bounds + [list[k].at], |bounds| - 1;
    assert bounds[last] < list[k].at;
    forall i, m | 0 <= i < |more| - 1 && 0 <= m < |list| ensures !(more[i] < list[m].at < more[i + 1]) {
      assert m < k || list[k].at <= list[m].at;
      assert i == last || more[i + 1] == bounds[i + 1];
    }
    forall i, j | 0 <= i < j < |more| ensures more[i] < more[j] {
      assert bounds[i] <= bounds[last];
    }
  }

  lemma PartsComplete(bounds: seq<int>, list: seq<Observation>, left: int, right: int)
    requires PartsSoFar(bounds, list, left, right, |list|)
    ensures PartsOf(bounds + [right], list, left, right)
  {
  }

  method Boundaries(list: seq<Observation>, left: int, right: int) returns (bounds: seq<int>)
    requires Increasing(list) && left < right
    ensures PartsOf(bounds, list, left, right)
  {
    bounds := [left];
    assert PartsSoFar(bounds, list, left, right, 0);
    hide PartsSoFar, PartsOf, Increasing;
    for k := 0 to |list|
      invariant PartsSoFar(bounds, list, left, right, k)
    {
      PartFound(bounds, list, left, right, k);
      if left < list[k].at < right {
        bounds := bounds + [list[k].at];
      }
    }
    PartsComplete(bounds, list, left, right);
    bounds := bounds + [right];
  }

  /** The loop of temperature_metrics over the parts of one segment. */
  method SweepSegment(segment: Segment, list: seq<Observation>, ghost targets: seq<Observation>,
                      ghost fallback: Option<real>,
                      band: real, totals: Totals, index: nat, current: Option<real>, ghost reached: int)
    returns (after: Totals, next: nat, now: Option<real>)
    requires list == Transitions(targets) && Increasing(list) && segment.left < segment.right && reached <= segment.left
    requires CursorAt(list, if targets == [] then fallback else None, index, current, reached)
    ensures after == Plus(totals, PerSecond(segment.value, targets, fallback, band, segment.left, segment.right))
    ensures CursorAt(list, if targets == [] then fallback else None, next, now, segment.right)
  {
    ghost var start := if targets == [] then fallback else None;
    hide *;
    var bounds := Boundaries(list, segment.left, segment.right);
    PartsAreOrdered(bounds, list, segment.left, segment.right);
    after, next, now := totals, index, current;
    NothingYet(totals, segment.value, targets, fallback, band, segment.left);
    CursorWaits(list, start, index, current, reached, segment.left);
    for i := 0 to |bounds| - 1
      invariant CursorAt(list, start, next, now, bounds[i])
      invariant after == Plus(totals, PerSecond(segment.value, targets, fallback, band, segment.left, bounds[i]))
    {
      next, now := MoveCursor(list, start, next, now, bounds[i]);
      CursorIsLookup(targets, fallback, next, now, bounds[i]);
      PartConstant(bounds, targets, fallback, segment.left, segment.right, i);
      StretchIsSeconds(segment.value, targets, fallback, band, segment.left, bounds[i], bounds[i + 1]);
      PlusAssociates(totals, PerSecond(segment.value, targets, fallback, band, segment.left, bounds[i]),
                     Share(segment.value, now, band, bounds[i + 1] - bounds[i]));
      after := AddPart(after, segment.value, now, band, bounds[i + 1] - bounds[i]);
      CursorWaits(list, start, next, now, bounds[i], bounds[i + 1]);
    }
  }

  lemma PartsAreOrdered(bounds: seq<int>, list: seq<Observation>, left: int, right: int)
    requires PartsOf(bounds, list, left, right)
    ensures |bounds| >= 2 && bounds[0] == left && bounds[|bounds| - 1] == right
    ensures forall i :: 0 <= i < |bounds| - 1 ==> left <= bounds[i] < bounds[i + 1]
  {
  }

  lemma NothingYet(totals: Totals, value: real, targets: seq<Observation>, fallback: Option<real>, band: real,
                   from: int)
    ensures totals == Plus(totals, PerSecond(value, targets, fallback, band, from, from))
  {
  }

  /** The body of the innermost loop. */
  method AddPart(totals: Totals, value: real, target: Option<real>, band: real, seconds: int) returns (after: Totals)
    ensures after == Plus(totals, Share(value, target, band, seconds))
  {
    after := totals;
    if target == None {
      return;
    }
    after := after.(targeted := after.targeted + seconds);
    var error := value - target.value;
    if Abs(error) <= band {
      after := after.(inBand := after.inBand + seconds);
    } else if error > band {
      after := after.(above := after.above + seconds);
    } else {
      after := after.(below := after.below + seconds);
    }
    after := after.(absolute := after.absolute + Abs(error) * seconds as real,
      aboveHeat := after.aboveHeat + AtLeastZero(error) * seconds as real / 3600.0,
      belowHeat := after.belowHeat + AtLeastZero(-error) * seconds as real / 3600.0);
  }

  lemma PartConstant(bounds: seq<int>, targets: seq<Observation>, fallback: Option<real>, left: int, right: int, i: nat)
    requires PartsOf(bounds, Transitions(targets), left, right) && i < |bounds| - 1
    ensures left <= bounds[i] < bounds[i + 1]
    ensures forall t :: bounds[i] <= t < bounds[i + 1] ==>
      TargetAt(targets, fallback, t) == TargetAt(targets, fallback, bounds[i])
  {
    hide Transitions, TargetAt;
    forall t | bounds[i] <= t < bounds[i + 1]
      ensures TargetAt(targets, fallback, t) == TargetAt(targets, fallback, bounds[i])
    {
      TargetConstant(targets, fallback, bounds[i], t);
    }
  }

  /** The double loop of temperature_metrics: the moving cursor gives the same totals as a
      lookup for every single second. */
  method TargetTotals(segments: seq<Segment>, targets: seq<Observation>, fallback: Option<real>, band: real)
    returns (totals: Totals)
    requires Apart(segments)
    ensures totals == Integral(segments, targets, fallback, band)
  {
    hide Transitions, TargetAt, PerSecond, CursorAt;
    var list := TargetTransitions(targets);
    TransitionsKeepValues(targets, 0);
    totals := NOTHING;
    var index := 0;
    var current := if list == [] then fallback else None;
    ghost var start := if targets == [] then fallback else None;
    for i := 0 to |segments|
      invariant totals == Integral(segments[..i], targets, fallback, band)
      invariant i == 0 ==> index == 0 && current == start
      invariant i > 0 ==> CursorAt(list, start, index, current, segments[i - 1].right)
    {
      assert segments[..i + 1][..i] == segments[..i];
      CursorStarts(list, start, segments[i].left);
      totals, index, current := SweepSegment(segments[i], list, targets, fallback, band, totals, index, current,
        if i == 0 then segments[i].left else segments[i - 1].right);
    }
    assert segments[..|segments|] == segments;
  }

  // ---- What the totals conserve -------------------------------------------------------------------

  ghost predicate Conserved(t: Totals) {
    t.inBand >= 0 && t.above >= 0 && t.below >= 0 && t.inBand + t.above + t.below == t.targeted
    && t.absolute == (t.aboveHeat + t.belowHeat) * 3600.0
  }

  lemma ShareConserved(value: real, target: Option<real>, band: real)
    ensures Conserved(Share(value, target, band, 1)) && Share(value, target, band, 1).targeted <= 1
  {
  }

  lemma PlusConserved(a: Totals, b: Totals)
    requires Conserved(a) && Conserved(b)
    ensures Conserved(Plus(a, b))
  {
  }

  lemma {:induction false} SecondsConserved(value: real, targets: seq<Observation>, fallback: Option<real>, band: real,
                                            from: int, until: int)
    ensures Conserved(PerSecond(value, targets, fallback, band, from, until))
    ensures from <= until ==> PerSecond(value, targets, fallback, band, from, until).targeted <= until - from
    decreases until - from
  {
    if from < until {
      hide Conserved, Share, TargetAt;
      SecondsConserved(value, targets, fallback, band, from, until - 1);
      ShareConserved(value, TargetAt(targets, fallback, until - 1), band);
      PlusConserved(PerSecond(value, targets, fallback, band, from, until - 1),
                    Share(value, TargetAt(targets, fallback, until - 1), band, 1));
    }
  }

  function TotalSeconds(segments: seq<Segment>): int {
    if segments == [] then 0
    else TotalSeconds(segments[..|segments| - 1]) + segments[|segments| - 1].right - segments[|segments| - 1].left
  }

  /** In band, above and below make up the targeted time, and the absolute error is what the
      degree hours on both sides add up to. */
  lemma {:induction false} IntegralConserved(segments: seq<Segment>, targets: seq<Observation>, fallback: Option<real>,
                                             band: real)
    requires Apart(segments)
    ensures Conserved(Integral(segments, targets, fallback, band))
    ensures 0 <= Integral(segments, targets, fallback, band).targeted <= TotalSeconds(segments)
  {
    if segments != [] {
      var front, last := segments[..|segments| - 1], segments[|segments| - 1];
      IntegralConserved(front, targets, fallback, band);
      SecondsConserved(last.value, targets, fallback, band, last.left, last.right);
      PlusConserved(Integral(front, targets, fallback, band),
                    PerSecond(last.value, targets, fallback, band, last.left, last.right));
    }
  }

  // ---- The totals as counts of seconds ------------------------------------------------------------

  // The sides of the band, by the error.

  ghost function AnyError(): real -> bool {
    (e: real) => true
  }

  ghost function Within(band: real): real -> bool {
    (e: real) => -band <= e <= band
  }

  ghost function Over(band: real): real -> bool {
    (e: real) => e > band
  }

  ghost function Under(band: real): real -> bool {
    (e: real) => e < -band && e <= band
  }

  /** At second t a target is in force, and the error of the value has the property. */
  ghost predicate ErrorAt(value: real, targets: seq<Observation>, fallback: Option<real>, p: real -> bool, t: int) {
    TargetAt(targets, fallback, t).Some? && p(value - TargetAt(targets, fallback, t).value)
  }

  ghost function SecondsIn(value: real, targets: seq<Observation>, fallback: Option<real>, p: real -> bool, from: int,
                           until: int): set<int>
  {
    set t: int | from <= t < until && ErrorAt(value, targets, fallback, p, t)
  }

  /** Second t lies in a segment that does not start in an ignored window, and so does the error. */
  ghost predicate MeasuredAt(segments: seq<Segment>, ignored: seq<(int, int)>, targets: seq<Observation>,
                             fallback: Option<real>, p: real -> bool, t: int)
  {
    exists i :: 0 <= i < |segments| && segments[i].left <= t < segments[i].right
      && !Ignored(segments[i].left, ignored) && ErrorAt(segments[i].value, targets, fallback, p, t)
  }

  /** The measured seconds at which the error has the property. */
  ghost function SecondsWith(segments: seq<Segment>, ignored: seq<(int, int)>, targets: seq<Observation>,
                             fallback: Option<real>, p: real -> bool): set<int>
  {
    if segments == [] then {}
    else
      set t: int | segments[0].left <= t < segments[|segments| - 1].right
        && MeasuredAt(segments, ignored, targets, fallback, p, t)
  }

  lemma OneMoreSecond(value: real, targets: seq<Observation>, fallback: Option<real>, p: real -> bool, from: int,
                      until: int)
    requires from < until
    ensures CountIn(value, targets, fallback, p, from, until)
      == CountIn(value, targets, fallback, p, from, until - 1)
         + if ErrorAt(value, targets, fallback, p, until - 1) then 1 else 0
  {
    hide ErrorAt;
    var before := SecondsIn(value, targets, fallback, p, from, until - 1);
    var last := if ErrorAt(value, targets, fallback, p, until - 1) then {until - 1} else {};
    assert SecondsIn(value, targets, fallback, p, from, until) == before + last;
  }

  /** What one second counts for. */
  lemma ShareOfSecond(value: real, targets: seq<Observation>, fallback: Option<real>, band: real, t: int)
    ensures var share := Share(value, TargetAt(targets, fallback, t), band, 1);
      share.targeted == (if ErrorAt(value, targets, fallback, AnyError(), t) then 1 else 0)
      && share.inBand == (if ErrorAt(value, targets, fallback, Within(band), t) then 1 else 0)
      && share.above == (if ErrorAt(value, targets, fallback, Over(band), t) then 1 else 0)
      && share.below == (if ErrorAt(value, targets, fallback, Under(band), t) then 1 else 0)
  {
    hide TargetAt;
  }

  /** The counts of the totals are numbers of seconds. */
  ghost predicate Counts(totals: Totals, any: nat, within: nat, over: nat, under: nat) {
    totals.targeted == any && totals.inBand == within && totals.above == over && totals.below == under
  }

  ghost function CountIn(value: real, targets: seq<Observation>, fallback: Option<real>, p: real -> bool, from: int,
                         until: int): nat
  {
    |SecondsIn(value, targets, fallback, p, from, until)|
  }

  ghost function CountWith(segments: seq<Segment>, ignored: seq<(int, int)>, targets: seq<Observation>,
                           fallback: Option<real>, p: real -> bool): nat
  {
    |SecondsWith(segments, ignored, targets, fallback, p)|
  }

  lemma {:induction false} PerSecondCounts(value: real, targets: seq<Observation>, fallback: Option<real>, band: real,
                                           from: int, until: int)
    requires from <= until
    ensures Counts(PerSecond(value, targets, fallback, band, from, until),
                   CountIn(value, targets, fallback, AnyError(), from, until),
                   CountIn(value, targets, fallback, Within(band), from, until),
                   CountIn(value, targets, fallback, Over(band), from, until),
                   CountIn(value, targets, fallback, Under(band), from, until))
    decreases until - from
  {
    hide TargetAt, ErrorAt, Share, AnyError, Within, Over, Under;
    if from < until {
      PerSecondCounts(value, targets, fallback, band, from, until - 1);
      LastSecond(value, targets, fallback, band, from, until);
      ShareOfSecond(value, targets, fallback, band, until - 1);
      OneMoreSecond(value, targets, fallback, AnyError(), from, until);
      OneMoreSecond(value, targets, fallback, Within(band), from, until);
      OneMoreSecond(value, targets, fallback, Over(band), from, until);
      OneMoreSecond(value, targets, fallback, Under(band), from, until);
      hide CountIn, PerSecond;
    }
  }

  lemma OneMoreSegment(segments: seq<Segment>, ignored: seq<(int, int)>, targets: seq<Observation>,
                       fallback: Option<real>, p: real -> bool)
    requires Apart(segments) && segments != []
    ensures var front, last := segments[..|segments| - 1], segments[|segments| - 1];
      CountWith(segments, ignored, targets, fallback, p)
      == CountWith(front, ignored, targets, fallback, p)
         + if Ignored(last.left, ignored) then 0
           else CountIn(last.value, targets, fallback, p, last.left, last.right)
  {
    SegmentsSplit(segments, ignored, targets, fallback, p);
    hide Apart, Ignored, SecondsWith, SecondsIn;
  }

  lemma SegmentsSplit(segments: seq<Segment>, ignored: seq<(int, int)>, targets: seq<Observation>,
                      fallback: Option<real>, p: real -> bool)
    requires Apart(segments) && segments != []
    ensures var front, last := segments[..|segments| - 1], segments[|segments| - 1];
      var before := SecondsWith(front, ignored, targets, fallback, p);
      var here := if Ignored(last.left, ignored) then {}
        else SecondsIn(last.value, targets, fallback, p, last.left, last.right);
      SecondsWith(segments, ignored, targets, fallback, p) == before + here && before !! here
  {
    hide ErrorAt, Ignored, Apart, MeasuredAt;
    FrontApart(segments);
    var front, last := segments[..|segments| - 1], segments[|segments| - 1];
    var before := SecondsWith(front, ignored, targets, fallback, p);
    var here := if Ignored(last.left, ignored) then {}
      else SecondsIn(last.value, targets, fallback, p, last.left, last.right);
    forall t ensures t in SecondsWith(segments, ignored, targets, fallback, p) <==> t in before + here {
      MeasuredInLast(segments, ignored, targets, fallback, p, t);
      MeasuredBetween(segments, ignored, targets, fallback, p, t);
      MeasuredBetween(front, ignored, targets, fallback, p, t);
    }
    forall t | t in before ensures t !in here {
      MeasuredBefore(segments, ignored, targets, fallback, p, t);
    }
  }

  lemma MeasuredInLast(segments: seq<Segment>, ignored: seq<(int, int)>, targets: seq<Observation>,
                       fallback: Option<real>, p: real -> bool, t: int)
    requires segments != []
    ensures var front, last := segments[..|segments| - 1], segments[|segments| - 1];
      MeasuredAt(segments, ignored, targets, fallback, p, t) <==>
      MeasuredAt(front, ignored, targets, fallback, p, t)
      || (last.left <= t < last.right && !Ignored(last.left, ignored)
          && ErrorAt(last.value, targets, fallback, p, t))
  {
    hide ErrorAt, Ignored;
    var front := segments[..|segments| - 1];
    if MeasuredAt(front, ignored, targets, fallback, p, t) {
      var i :| 0 <= i < |front| && front[i].left <= t < front[i].right
        && !Ignored(front[i].left, ignored) && ErrorAt(front[i].value, targets, fallback, p, t);
      assert segments[i] == front[i];
    }
    if MeasuredAt(segments, ignored, targets, fallback, p, t) {
      var i :| 0 <= i < |segments| && segments[i].left <= t < segments[i].right
        && !Ignored(segments[i].left, ignored) && ErrorAt(segments[i].value, targets, fallback, p, t);
      assert i < |front| ==> front[i] == segments[i];
    }
  }

  lemma MeasuredBetween(segments: seq<Segment>, ignored: seq<(int, int)>, targets: seq<Observation>,
                        fallback: Option<real>, p: real -> bool, t: int)
    requires Apart(segments)
    ensures MeasuredAt(segments, ignored, targets, fallback, p, t) ==>
      segments != [] && segments[0].left <= t < segments[|segments| - 1].right
  {
    hide ErrorAt, Ignored;
    if MeasuredAt(segments, ignored, targets, fallback, p, t) {
      var i :| 0 <= i < |segments| && segments[i].left <= t < segments[i].right
        && !Ignored(segments[i].left, ignored) && ErrorAt(segments[i].value, targets, fallback, p, t);
      var last := |segments| - 1;
      assert i == last || segments[i].right <= segments[last].left;
      assert i == 0 || segments[0].right <= segments[i].left;
    }
  }

  lemma MeasuredBefore(segments: seq<Segment>, ignored: seq<(int, int)>, targets: seq<Observation>,
                       fallback: Option<real>, p: real -> bool, t: int)
    requires Apart(segments) && segments != []
    requires t in SecondsWith(segments[..|segments| - 1], ignored, targets, fallback, p)
    ensures t < segments[|segments| - 1].left
  {
    hide ErrorAt, Ignored;
    var front := segments[..|segments| - 1];
    var i :| 0 <= i < |front| && front[i].left <= t < front[i].right
      && !Ignored(front[i].left, ignored) && ErrorAt(front[i].value, targets, fallback, p, t);
    assert segments[i].right <= segments[|segments| - 1].left;
  }

  /** The double loop counts seconds: those of the segments that are not ignored, by the side of
      the band on which their reading lies of the target looked up for each. */
  lemma {:induction false} IntegralCounts(segments: seq<Segment>, ignored: seq<(int, int)>, targets: seq<Observation>,
                                          fallback: Option<real>, band: real)
    requires Apart(segments)
    ensures Counts(Integral(Kept(segments, ignored), targets, fallback, band),
                   CountWith(segments, ignored, targets, fallback, AnyError()),
                   CountWith(segments, ignored, targets, fallback, Within(band)),
                   CountWith(segments, ignored, targets, fallback, Over(band)),
                   CountWith(segments, ignored, targets, fallback, Under(band)))
  {
    hide *;
    if segments == [] {
      NothingCounts(segments, ignored, targets, fallback, band);
    } else {
      FrontApart(segments);
      var front, last := segments[..|segments| - 1], segments[|segments| - 1];
      IntegralCounts(front, ignored, targets, fallback, band);
      KeptLast(segments, ignored, targets, fallback, band);
      OneMoreSegment(segments, ignored, targets, fallback, AnyError());
      OneMoreSegment(segments, ignored, targets, fallback, Within(band));
      OneMoreSegment(segments, ignored, targets, fallback, Over(band));
      OneMoreSegment(segments, ignored, targets, fallback, Under(band));
      if !Ignored(last.left, ignored) {
        PerSecondCounts(last.value, targets, fallback, band, last.left, last.right);
        CountsAdd(Integral(Kept(front, ignored), targets, fallback, band),
                  PerSecond(last.value, targets, fallback, band, last.left, last.right),
                  CountWith(front, ignored, targets, fallback, AnyError()),
                  CountWith(front, ignored, targets, fallback, Within(band)),
                  CountWith(front, ignored, targets, fallback, Over(band)),
                  CountWith(front, ignored, targets, fallback, Under(band)),
                  CountIn(last.value, targets, fallback, AnyError(), last.left, last.right),
                  CountIn(last.value, targets, fallback, Within(band), last.left, last.right),
                  CountIn(last.value, targets, fallback, Over(band), last.left, last.right),
                  CountIn(last.value, targets, fallback, Under(band), last.left, last.right));
      }
    }
  }

  lemma NothingCounts(segments: seq<Segment>, ignored: seq<(int, int)>, targets: seq<Observation>,
                      fallback: Option<real>, band: real)
    requires segments == []
    ensures Counts(Integral(Kept(segments, ignored), targets, fallback, band),
                   CountWith(segments, ignored, targets, fallback, AnyError()),
                   CountWith(segments, ignored, targets, fallback, Within(band)),
                   CountWith(segments, ignored, targets, fallback, Over(band)),
                   CountWith(segments, ignored, targets, fallback, Under(band)))
  {
  }

  lemma CountsAdd(a: Totals, b: Totals, any: nat, within: nat, over: nat, under: nat, moreAny: nat, moreWithin: nat,
                  moreOver: nat, moreUnder: nat)
    requires Counts(a, any, within, over, under) && Counts(b, moreAny, moreWithin, moreOver, moreUnder)
    ensures Counts(Plus(a, b), any + moreAny, within + moreWithin, over + moreOver, under + moreUnder)
  {
  }

  lemma KeptLast(segments: seq<Segment>, ignored: seq<(int, int)>, targets: seq<Observation>,
                 fallback: Option<real>, band: real)
    requires segments != []
    ensures var front, last := segments[..|segments| - 1], segments[|segments| - 1];
      var before := Integral(Kept(front, ignored), targets, fallback, band);
      Integral(Kept(segments, ignored), targets, fallback, band)
      == if Ignored(last.left, ignored) then before
        else Plus(before, PerSecond(last.value, targets, fallback, band, last.left, last.right))
  {
    hide Ignored, PerSecond, Plus;
    var front, last := segments[..|segments| - 1], segments[|segments| - 1];
    var kept := Kept(front, ignored);
    assert kept + [] == kept && (kept + [last])[..|kept|] == kept;
  }

  datatype Shares = Shares(evaluated: real, inBand: real, above: real, below: real, meanError: real)

  function PercentOf(part: nat, whole: nat): real
    requires whole > 0
  {
    part as real / whole as real * 100.0
  }

  /** The published percentages: the three band shares are percentages that add up to 100. */
  method BandShares(segments: seq<Segment>, ignored: seq<(int, int)>, targets: seq<Observation>,
                    fallback: Option<real>, band: real)
    returns (shares: Option<Shares>)
    requires Apart(segments)
    ensures shares == None <==> CountWith(segments, ignored, targets, fallback, AnyError()) == 0
    ensures shares.Some? ==>
      0.0 <= shares.value.evaluated <= 100.0 && 0.0 <= shares.value.inBand && 0.0 <= shares.value.above
      && 0.0 <= shares.value.below && shares.value.inBand + shares.value.above + shares.value.below == 100.0
    ensures shares.Some? ==>
      var all := TotalSeconds(segments);
      var n := CountWith(segments, ignored, targets, fallback, AnyError());
      0 < n <= all && shares.value.evaluated == PercentOf(n, all)
      && shares.value.inBand == PercentOf(CountWith(segments, ignored, targets, fallback, Within(band)), n)
      && shares.value.above == PercentOf(CountWith(segments, ignored, targets, fallback, Over(band)), n)
      && shares.value.below == PercentOf(CountWith(segments, ignored, targets, fallback, Under(band)), n)
      && shares.value.meanError == Integral(Kept(segments, ignored), targets, fallback, band).absolute / n as real
  {
    var kept := Kept(segments, ignored);
    KeptApart(segments, ignored);
    KeptSeconds(segments, ignored);
    var totals := TargetTotals(kept, targets, fallback, band);
    IntegralConserved(kept, targets, fallback, band);
    IntegralCounts(segments, ignored, targets, fallback, band);
    ConservedMeans(totals);
    CountsMean(totals, CountWith(segments, ignored, targets, fallback, AnyError()),
               CountWith(segments, ignored, targets, fallback, Within(band)),
               CountWith(segments, ignored, targets, fallback, Over(band)),
               CountWith(segments, ignored, targets, fallback, Under(band)));
    hide *;
    if totals.targeted == 0 {
      return None;
    }
    var all, n := TotalSeconds(segments), totals.targeted;
    FractionInRange(n, all);
    Thirds(totals.inBand, totals.above, totals.below, n);
    shares := Some(Shares(PercentOf(n, all), PercentOf(totals.inBand, n), PercentOf(totals.above, n),
      PercentOf(totals.below, n), totals.absolute / n as real));
  }

  lemma ConservedMeans(t: Totals)
    requires Conserved(t)
    ensures t.inBand >= 0 && t.above >= 0 && t.below >= 0 && t.inBand + t.above + t.below == t.targeted
  {
  }

  lemma CountsMean(t: Totals, any: nat, within: nat, over: nat, under: nat)
    requires Counts(t, any, within, over, under)
    ensures t.targeted == any && t.inBand == within && t.above == over && t.below == under
  {
  }


  function Kept(segments: seq<Segment>, ignored: seq<(int, int)>): seq<Segment> {
    if segments == [] then []
    else
      var last := segments[|segments| - 1];
      Kept(segments[..|segments| - 1], ignored) + if Ignored(last.left, ignored) then [] else [last]
  }

  lemma FrontApart(segments: seq<Segment>)
    requires Apart(segments) && segments != []
    ensures Apart(segments[..|segments| - 1]) && segments[|segments| - 1].left < segments[|segments| - 1].right
    ensures segments == segments[..|segments| - 1] + [segments[|segments| - 1]]
  {
  }

  lemma {:induction false} KeptApart(segments: seq<Segment>, ignored: seq<(int, int)>)
    requires Apart(segments)
    ensures Apart(Kept(segments, ignored))
    ensures forall s :: s in Kept(segments, ignored) ==> s in segments
  {
    hide Ignored, Apart;
    if segments != [] {
      var front, last := segments[..|segments| - 1], segments[|segments| - 1];
      FrontApart(segments);
      KeptApart(front, ignored);
      LastJoins(front, Kept(front, ignored), last);
      assert Kept(front, ignored) + [] == Kept(front, ignored);
    }
  }

  lemma {:induction false} KeptSeconds(segments: seq<Segment>, ignored: seq<(int, int)>)
    requires Apart(segments)
    ensures TotalSeconds(Kept(segments, ignored)) <= TotalSeconds(segments)
  {
    hide Ignored, Apart;
    if segments != [] {
      var front, last := segments[..|segments| - 1], segments[|segments| - 1];
      FrontApart(segments);
      KeptSeconds(front, ignored);
      var kept := Kept(front, ignored);
      assert kept + [] == kept && (kept + [last])[..|kept|] == kept;
    }
  }

  lemma LastJoins(front: seq<Segment>, kept: seq<Segment>, last: Segment)
    requires Apart(front + [last]) && Apart(kept) && forall s :: s in kept ==> s in front
    ensures Apart(kept + [last]) && last.left < last.right
  {
    var all := front + [last];
    assert all[|front|] == last;
    forall i | 0 <= i < |kept| ensures kept[i].right <= last.left {
      assert kept[i] in front;
      var j :| 0 <= j < |front| && front[j] == kept[i];
      assert all[j] == kept[i];
    }
  }

  lemma FractionInRange(p: nat, w: nat)
    requires p <= w && w > 0
    ensures 0.0 <= PercentOf(p, w) <= 100.0
  {
    var part, whole := p as real, w as real;
    assert part / whole * whole == part;
  }

  lemma Thirds(a: nat, b: nat, c: nat, n: nat)
    requires n > 0 && a + b + c == n
    ensures PercentOf(a, n) >= 0.0 && PercentOf(b, n) >= 0.0 && PercentOf(c, n) >= 0.0
    ensures PercentOf(a, n) + PercentOf(b, n) + PercentOf(c, n) == 100.0
  {
    var x, y, z, whole := a as real, b as real, c as real, n as real;
    assert x / whole + y / whole + z / whole == (x + y + z) / whole;
  }
}
