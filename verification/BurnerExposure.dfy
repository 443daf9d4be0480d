/** Burner exposure over a period: additive statistics whose parts conserve the total.
    Times are whole seconds; minutes are exact reals. */
module BurnerExposure {
  import opened Options
  import opened IntegerArithmetic
  import opened IntervalMeasure
  import opened LinearAlgebra
  import opened Sorting

  datatype StateSample = StateSample(
    timestamp: int, flame: Option<bool>, modulation: Option<real>, dhw: Option<bool>, heating: Option<bool>)

  datatype Purpose = Heating | Dhw | Ambiguous

  /** Minutes of flame per modulation bin, and with the modulation unknown. */
  datatype Tally = Tally(minutes: real, bins: Vec, unknown: real)

  datatype Exposure = Exposure(
    minutes: real, bins: Vec, unknown: real, observed: real, flame: real,
    heating: Tally, dhw: Tally, ambiguous: Tally)

  function Minutes(seconds: int): real {
    seconds as real / 60.0
  }

  // ----- Segments -----

  ghost predicate Chronological(points: seq<StateSample>) {
    forall i, j :: 0 <= i < j < |points| ==> points[i].timestamp <= points[j].timestamp
  }

  /** Where the state of point i stops holding: the next point, or the period's end. */
  function RawRight(points: seq<StateSample>, i: nat, end: int): int
    requires i < |points|
  {
    if i + 1 < |points| then points[i + 1].timestamp else end
  }

  /** gas._segments keeps point i: it covers part of the period and is not a telemetry gap. */
  predicate Kept(points: seq<StateSample>, i: nat, start: int, end: int, gap: real)
    requires i < |points|
  {
    var t := points[i].timestamp;
    var left, right := Later(start, t), Earlier(end, RawRight(points, i, end));
    right > left
    && Minutes(Later(0, start - t)) <= gap
    && Minutes(RawRight(points, i, end) - t) <= gap
  }

  /** The minutes point i contributes. */
  function Weight(points: seq<StateSample>, i: nat, start: int, end: int, gap: real): (w: real)
    requires i < |points|
    ensures w >= 0.0
  {
    if Kept(points, i, start, end, gap)
    then Minutes(Earlier(end, RawRight(points, i, end)) - Later(start, points[i].timestamp))
    else 0.0
  }

  // ----- Accumulation -----

  /** gas._bin for a known modulation: the first bin whose right edge lies above it. */
  function BinFrom(modulation: real, edges: Vec, i: nat): (b: nat)
    requires |edges| >= 2 && i <= |edges| - 2
    ensures b <= |edges| - 2
    decreases |edges| - i
  {
    if i == |edges| - 2 || modulation < edges[i + 1] then i else BinFrom(modulation, edges, i + 1)
  }

  function Bin(sample: StateSample, edges: Vec): (b: Option<nat>)
    requires |edges| >= 2
    ensures b.Some? ==> b.value < |edges| - 1
  {
    if sample.modulation.None? then None else Some(BinFrom(sample.modulation.value, edges, 0))
  }

  /** Attributed only when the flags name one exclusive mode. */
  function PurposeOf(sample: StateSample): Purpose {
    if sample.heating == Some(true) && sample.dhw == Some(false) then Heating
    else if sample.dhw == Some(true) && sample.heating == Some(false) then Dhw
    else Ambiguous
  }

  function AddBin(bins: Vec, index: nat, minutes: real): (r: Vec)
    requires index < |bins|
    ensures |r| == |bins|
  {
    bins[index := bins[index] + minutes]
  }

  function AddTally(t: Tally, bin: Option<nat>, minutes: real): (r: Tally)
    requires bin.Some? ==> bin.value < |t.bins|
    ensures |r.bins| == |t.bins|
  {
    match bin
    case None => t.(minutes := t.minutes + minutes, unknown := t.unknown + minutes)
    case Some(b) => t.(minutes := t.minutes + minutes, bins := AddBin(t.bins, b, minutes))
  }

  ghost predicate Shape(e: Exposure, bins: nat) {
    |e.bins| == |e.heating.bins| == |e.dhw.bins| == |e.ambiguous.bins| == bins
  }

  /** What one kept segment adds. */
  function Accumulate(e: Exposure, sample: StateSample, minutes: real, edges: Vec): (r: Exposure)
    requires |edges| >= 2 && Shape(e, |edges| - 1)
    ensures Shape(r, |edges| - 1) && r.minutes == e.minutes
  {
    if sample.flame == None then e
    else
      var seen := e.(observed := e.observed + minutes);
      if sample.flame != Some(true) then seen
      else
        var bin := Bin(sample, edges);
        var lit := if bin.Some? then seen.(flame := e.flame + minutes, bins := AddBin(e.bins, bin.value, minutes))
                   else seen.(flame := e.flame + minutes, unknown := e.unknown + minutes);
        match PurposeOf(sample)
        case Heating => lit.(heating := AddTally(e.heating, bin, minutes))
        case Dhw => lit.(dhw := AddTally(e.dhw, bin, minutes))
        case Ambiguous => lit.(ambiguous := AddTally(e.ambiguous, bin, minutes))
  }

  function Empty(minutes: real, bins: nat): (e: Exposure)
    ensures Shape(e, bins)
  {
    var none := Tally(0.0, Zeros(bins), 0.0);
    Exposure(minutes, Zeros(bins), 0.0, 0.0, 0.0, none, none, none)
  }

  /** The exposure of the first k points. */
  function ExposureTo(points: seq<StateSample>, start: int, end: int, gap: real, edges: Vec, k: nat): (e: Exposure)
    requires |edges| >= 2 && k <= |points|
    ensures Shape(e, |edges| - 1) && e.minutes == Minutes(end - start)
  {
    if k == 0 then Empty(Minutes(end - start), |edges| - 1)
    else
      var before := ExposureTo(points, start, end, gap, edges, k - 1);
      if Kept(points, k - 1, start, end, gap)
      then Accumulate(before, points[k - 1], Weight(points, k - 1, start, end, gap), edges)
      else before
  }

  function ByTime(samples: seq<StateSample>): (points: seq<StateSample>) {
    Sort((a: StateSample, b: StateSample) => a.timestamp <= b.timestamp, samples)
  }

  lemma ByTimeChronological(samples: seq<StateSample>)
    ensures Chronological(ByTime(samples))
  {
    SortSorted((a: StateSample, b: StateSample) => a.timestamp <= b.timestamp, samples);
  }

  /** The value integrate_exposure returns for a period of positive length. */
  function Integrated(samples: seq<StateSample>, start: int, end: int, gap: real, edges: Vec): (e: Exposure)
    requires |edges| >= 2
    ensures Shape(e, |edges| - 1) && e.minutes == Minutes(end - start)
  {
    var points := ByTime(samples);
    ExposureTo(points, start, end, gap, edges, |points|)
  }

  /** The attribution of a lit segment to one purpose. */
  method Attribute(total: real, bins: Vec, unknown: real, index: Option<nat>, minutes: real)
    returns (after: real, afterBins: Vec, afterUnknown: real)
    requires index.Some? ==> index.value < |bins|
    ensures Tally(after, afterBins, afterUnknown) == AddTally(Tally(total, bins, unknown), index, minutes)
  {
    after, afterBins, afterUnknown := total + minutes, bins, unknown;
    if index.Some? {
      afterBins := bins[index.value := bins[index.value] + minutes];
    } else {
      afterUnknown := unknown + minutes;
    }
  }

  lemma NothingExposed(points: seq<StateSample>, start: int, end: int, gap: real, edges: Vec)
    requires |edges| >= 2
    ensures ExposureTo(points, start, end, gap, edges, 0) == Empty(Minutes(end - start), |edges| - 1)
  {
  }

  lemma AllExposed(samples: seq<StateSample>, start: int, end: int, gap: real, edges: Vec)
    requires |edges| >= 2
    ensures Integrated(samples, start, end, gap, edges)
      == ExposureTo(ByTime(samples), start, end, gap, edges, |ByTime(samples)|)
  {
  }

  lemma OneMoreExposed(points: seq<StateSample>, start: int, end: int, gap: real, edges: Vec, k: nat)
    requires |edges| >= 2 && k < |points|
    ensures var before := ExposureTo(points, start, end, gap, edges, k);
      ExposureTo(points, start, end, gap, edges, k + 1)
      == if Kept(points, k, start, end, gap)
        then Accumulate(before, points[k], Weight(points, k, start, end, gap), edges) else before
  {
    hide Kept, Weight, Accumulate;
  }

  /** gas.integrate_exposure: the loop with its fourteen accumulators. */
  method IntegrateExposure(samples: seq<StateSample>, start: int, end: int, gap: real, edges: Vec)
    returns (e: Exposure)
    requires |edges| >= 2
    ensures end > start ==> e == Integrated(samples, start, end, gap, edges)
    ensures end > start && Increasing(edges) ==>
      CountsAll(e, ByTime(samples), start, end, gap, edges, |ByTime(samples)|)
    ensures end <= start ==> e.minutes == e.observed == e.flame == e.unknown == 0.0 && e.bins == Zeros(|edges| - 1)
  {
    var count := |edges| - 1;
    if end <= start {
      var none := Tally(0.0, [], 0.0);
      return Exposure(0.0, Zeros(count), 0.0, 0.0, 0.0, none, none, none);
    }
    var points := ByTime(samples);
    var bins, unknown, observed, flame := Zeros(count), 0.0, 0.0, 0.0;
    var heating, dhw, ambiguous := 0.0, 0.0, 0.0;
    var heatingBins, dhwBins, ambiguousBins := Zeros(count), Zeros(count), Zeros(count);
    var heatingUnknown, dhwUnknown, ambiguousUnknown := 0.0, 0.0, 0.0;
    NothingExposed(points, start, end, gap, edges);
    AllExposed(samples, start, end, gap, edges);
    hide Kept, Weight, Bin, PurposeOf, ByTime, Zeros, AddBin, AddTally, CountsAll, Increasing, Integrated, ExposureTo;
    for i := 0 to |points|
      invariant |bins| == |heatingBins| == |dhwBins| == |ambiguousBins| == count
      invariant Exposure(Minutes(end - start), bins, unknown, observed, flame,
                         Tally(heating, heatingBins, heatingUnknown), Tally(dhw, dhwBins, dhwUnknown),
                         Tally(ambiguous, ambiguousBins, ambiguousUnknown))
                == ExposureTo(points, start, end, gap, edges, i)
    {
      var point := points[i];
      OneMoreExposed(points, start, end, gap, edges, i);
      if !Kept(points, i, start, end, gap) || point.flame == None {
        continue;
      }
      var minutes := Weight(points, i, start, end, gap);
      observed := observed + minutes;
      if point.flame != Some(true) {
        continue;
      }
      flame := flame + minutes;
      var index := Bin(point, edges);
      if index == None {
        unknown := unknown + minutes;
      } else {
        bins := AddBin(bins, index.value, minutes);
      }
      match PurposeOf(point) {
        case Heating =>
          heating, heatingBins, heatingUnknown := Attribute(heating, heatingBins, heatingUnknown, index, minutes);
        case Dhw =>
          dhw, dhwBins, dhwUnknown := Attribute(dhw, dhwBins, dhwUnknown, index, minutes);
        case Ambiguous =>
          ambiguous, ambiguousBins, ambiguousUnknown :=
            Attribute(ambiguous, ambiguousBins, ambiguousUnknown, index, minutes);
      }
    }
    if Increasing(edges) {
      IntegratedCounts(samples, start, end, gap, edges);
    }
    return Exposure(Minutes(end - start), bins, unknown, observed, flame,
                    Tally(heating, heatingBins, heatingUnknown), Tally(dhw, dhwBins, dhwUnknown),
                    Tally(ambiguous, ambiguousBins, ambiguousUnknown));
  }

  // ----- Conservation -----

  /** Bins and unknown modulation make up the flame minutes; the purposes make up the total
      overall, in every bin, and in the unknown part; nothing is negative. */
  ghost predicate Conserved(e: Exposure) {
    Shape(e, |e.bins|)
    && Sum(e.bins) + e.unknown == e.flame <= e.observed
    && e.heating.minutes + e.dhw.minutes + e.ambiguous.minutes == e.flame
    && (forall b :: 0 <= b < |e.bins| ==>
          e.heating.bins[b] + e.dhw.bins[b] + e.ambiguous.bins[b] == e.bins[b])
    && e.heating.unknown + e.dhw.unknown + e.ambiguous.unknown == e.unknown
    && Whole(e.heating) && Whole(e.dhw) && Whole(e.ambiguous)
  }

  ghost predicate Whole(t: Tally) {
    Sum(t.bins) + t.unknown == t.minutes && t.unknown >= 0.0
    && forall b :: 0 <= b < |t.bins| ==> t.bins[b] >= 0.0
  }

  lemma {:induction false} SumToUpdate(v: Vec, i: nat, x: real, k: nat)
    requires i < |v| && k <= |v|
    ensures SumTo(v[i := x], k) == SumTo(v, k) + (if i < k then x - v[i] else 0.0)
  {
    if k > 0 {
      SumToUpdate(v, i, x, k - 1);
    }
  }

  lemma {:induction false} SumToZero(v: Vec, k: nat)
    requires k <= |v| && IsZero(v)
    ensures SumTo(v, k) == 0.0
  {
    if k > 0 {
      SumToZero(v, k - 1);
    }
  }

  lemma AddBinSum(bins: Vec, b: nat, minutes: real)
    requires b < |bins|
    ensures Sum(AddBin(bins, b, minutes)) == Sum(bins) + minutes
  {
    SumToUpdate(bins, b, bins[b] + minutes, |bins|);
  }

  lemma AddTallyWhole(t: Tally, bin: Option<nat>, minutes: real)
    requires Whole(t) && minutes >= 0.0 && (bin.Some? ==> bin.value < |t.bins|)
    ensures Whole(AddTally(t, bin, minutes))
  {
    hide Sum;
    if bin.Some? {
      AddBinSum(t.bins, bin.value, minutes);
    }
  }

  lemma AccumulateConserves(e: Exposure, sample: StateSample, minutes: real, edges: Vec)
    requires |edges| >= 2 && Shape(e, |edges| - 1) && Conserved(e) && minutes >= 0.0
    ensures Conserved(Accumulate(e, sample, minutes, edges))
  {
    hide Sum, Whole, BinFrom;
    var bin := Bin(sample, edges);
    if bin.Some? {
      AddBinSum(e.bins, bin.value, minutes);
    }
    match PurposeOf(sample) {
      case Heating => AddTallyWhole(e.heating, bin, minutes);
      case Dhw => AddTallyWhole(e.dhw, bin, minutes);
      case Ambiguous => AddTallyWhole(e.ambiguous, bin, minutes);
    }
  }

  lemma {:induction false} ExposureConserved(points: seq<StateSample>, start: int, end: int, gap: real, edges: Vec,
                                             k: nat)
    requires |edges| >= 2 && k <= |points|
    ensures Conserved(ExposureTo(points, start, end, gap, edges, k))
  {
    if k == 0 {
      SumToZero(Zeros(|edges| - 1), |edges| - 1);
    } else {
      ExposureConserved(points, start, end, gap, edges, k - 1);
      AccumulateConserves(ExposureTo(points, start, end, gap, edges, k - 1), points[k - 1],
                          Weight(points, k - 1, start, end, gap), edges);
    }
  }

  /** The observed minutes of the first k points end no later than the next point. */
  lemma {:induction false} ObservedBounded(points: seq<StateSample>, start: int, end: int, gap: real, edges: Vec,
                                           k: nat)
    requires |edges| >= 2 && k <= |points| && Chronological(points) && start <= end
    ensures ExposureTo(points, start, end, gap, edges, k).observed
      <= Minutes(Later(0, (if k < |points| then Earlier(end, points[k].timestamp) else end) - start))
  {
    if k > 0 {
      ObservedBounded(points, start, end, gap, edges, k - 1);
    }
  }

  /** Flame time is at most observed time, which is at most the period; the parts conserve. */
  lemma IntegratedConserves(samples: seq<StateSample>, start: int, end: int, gap: real, edges: Vec)
    requires |edges| >= 2 && start < end
    ensures Conserved(Integrated(samples, start, end, gap, edges))
    ensures Integrated(samples, start, end, gap, edges).observed <= Minutes(end - start)
  {
    var points := ByTime(samples);
    ExposureConserved(points, start, end, gap, edges, |points|);
    ByTimeChronological(samples);
    ObservedBounded(points, start, end, gap, edges, |points|);
  }

  // ----- What each figure counts -----

  /** At second t of the period point i is the latest, and it is neither stale nor before a gap. */
  ghost predicate Holds(points: seq<StateSample>, i: nat, start: int, end: int, gap: real, t: int)
    requires i < |points|
  {
    var since, until := points[i].timestamp, RawRight(points, i, end);
    start <= t < end && since <= t < until
    && Minutes(until - since) <= gap && (since < start ==> Minutes(start - since) <= gap)
  }

  ghost predicate HoldsOne(points: seq<StateSample>, start: int, end: int, gap: real, p: StateSample -> bool, k: nat,
                           t: int)
    requires k <= |points|
  {
    exists i :: 0 <= i < k && Holds(points, i, start, end, gap, t) && p(points[i])
  }

  /** The minutes of the period in which one of the first k points holds and has the property:
      its seconds are counted one by one. */
  ghost function MinutesWhere(points: seq<StateSample>, start: int, end: int, gap: real, p: StateSample -> bool, k: nat)
    : real
    requires k <= |points|
  {
    Minutes(|SecondsWhere(points, start, end, gap, p, k)|)
  }

  ghost function SecondsWhere(points: seq<StateSample>, start: int, end: int, gap: real, p: StateSample -> bool, k: nat)
    : set<int>
    requires k <= |points|
  {
    set t: int | start <= t < end && HoldsOne(points, start, end, gap, p, k, t)
  }

  /** The seconds at which point i holds. */
  ghost function Stretch(points: seq<StateSample>, i: nat, start: int, end: int, gap: real): (s: set<int>)
    requires i < |points|
    ensures Minutes(|s|) == Weight(points, i, start, end, gap)
    ensures forall t :: t in s <==> Holds(points, i, start, end, gap, t)
  {
    if Kept(points, i, start, end, gap) then
      var left, right := Later(start, points[i].timestamp), Earlier(end, RawRight(points, i, end));
      CellCount(left, right);
      Cells(left, right)
    else {}
  }

  lemma SecondsStep(points: seq<StateSample>, start: int, end: int, gap: real, p: StateSample -> bool, k: nat)
    requires 0 < k <= |points| && Chronological(points)
    ensures MinutesWhere(points, start, end, gap, p, k) == MinutesWhere(points, start, end, gap, p, k - 1)
      + (if p(points[k - 1]) then Weight(points, k - 1, start, end, gap) else 0.0)
  {
    var before, all := SecondsWhere(points, start, end, gap, p, k - 1), SecondsWhere(points, start, end, gap, p, k);
    var here := if p(points[k - 1]) then Stretch(points, k - 1, start, end, gap) else {};
    forall t ensures t in all <==> t in before + here {
      OneMorePoint(points, start, end, gap, p, k, t);
    }
    forall t | t in before ensures t !in here {
      EarlierPointsEnd(points, start, end, gap, p, k - 1, t);
    }
    hide SecondsWhere, Weight;
    assert all == before + here;
    assert |all| == |before| + |here|;
  }

  lemma OneMorePoint(points: seq<StateSample>, start: int, end: int, gap: real, p: StateSample -> bool, k: nat, t: int)
    requires 0 < k <= |points|
    ensures HoldsOne(points, start, end, gap, p, k, t) <==>
      HoldsOne(points, start, end, gap, p, k - 1, t)
      || (p(points[k - 1]) && Holds(points, k - 1, start, end, gap, t))
    ensures Holds(points, k - 1, start, end, gap, t) ==> start <= t < end
  {
    hide Minutes;
  }

  lemma EarlierPointsEnd(points: seq<StateSample>, start: int, end: int, gap: real, p: StateSample -> bool, k: nat,
                         t: int)
    requires k < |points| && Chronological(points) && HoldsOne(points, start, end, gap, p, k, t)
    ensures !Holds(points, k, start, end, gap, t)
  {
    hide Minutes;
    var i :| 0 <= i < k && Holds(points, i, start, end, gap, t) && p(points[i]);
    assert points[i + 1].timestamp <= points[k].timestamp;
  }

  ghost predicate Increasing(edges: Vec) {
    forall i, j :: 0 <= i < j < |edges| ==> edges[i] < edges[j]
  }

  /** Bin b runs from its left edge up to its right one; the outer bins take what lies beyond. */
  ghost predicate InBin(modulation: real, edges: Vec, b: nat)
    requires b < |edges| - 1
  {
    (b == 0 || edges[b] <= modulation) && (b == |edges| - 2 || modulation < edges[b + 1])
  }

  lemma {:induction false} BinFromIsIn(modulation: real, edges: Vec, i: nat)
    requires |edges| >= 2 && Increasing(edges) && i <= |edges| - 2 && (i == 0 || edges[i] <= modulation)
    ensures InBin(modulation, edges, BinFrom(modulation, edges, i))
    decreases |edges| - i
  {
    if i < |edges| - 2 && modulation >= edges[i + 1] {
      BinFromIsIn(modulation, edges, i + 1);
    }
  }

  lemma BinIsIn(sample: StateSample, edges: Vec, b: nat)
    requires |edges| >= 2 && Increasing(edges) && b < |edges| - 1 && sample.modulation.Some?
    ensures Bin(sample, edges) == Some(b) <==> InBin(sample.modulation.value, edges, b)
  {
    BinFromIsIn(sample.modulation.value, edges, 0);
  }

  // The properties of a sample that the figures are about, in terms of its flags.

  ghost predicate Seen(s: StateSample) {
    s.flame.Some?
  }

  ghost predicate Anything(s: StateSample) {
    true
  }

  ghost predicate OnlyHeating(s: StateSample) {
    s.heating == Some(true) && s.dhw == Some(false)
  }

  ghost predicate OnlyDhw(s: StateSample) {
    s.heating == Some(false) && s.dhw == Some(true)
  }

  ghost predicate Unclear(s: StateSample) {
    !OnlyHeating(s) && !OnlyDhw(s)
  }

  ghost function Lit(p: StateSample -> bool): StateSample -> bool {
    (s: StateSample) => s.flame == Some(true) && p(s)
  }

  ghost function LitUnread(p: StateSample -> bool): StateSample -> bool {
    (s: StateSample) => s.flame == Some(true) && s.modulation.None? && p(s)
  }

  ghost function LitIn(p: StateSample -> bool, edges: Vec, b: nat): StateSample -> bool
    requires b < |edges| - 1
  {
    (s: StateSample) => s.flame == Some(true) && s.modulation.Some? && InBin(s.modulation.value, edges, b) && p(s)
  }

  /** The tally counts the flame time of the points with the property, by their modulation. */
  ghost predicate Counts(t: Tally, points: seq<StateSample>, start: int, end: int, gap: real, edges: Vec,
                         p: StateSample -> bool, k: nat)
    requires |edges| >= 2 && k <= |points|
  {
    |t.bins| == |edges| - 1
    && t.minutes == MinutesWhere(points, start, end, gap, Lit(p), k)
    && t.unknown == MinutesWhere(points, start, end, gap, LitUnread(p), k)
    && forall b :: 0 <= b < |edges| - 1 ==>
         t.bins[b] == MinutesWhere(points, start, end, gap, LitIn(p, edges, b), k)
  }

  /** Observed time is that of a known flame state; each purpose counts its own flame time. */
  ghost predicate CountsAll(e: Exposure, points: seq<StateSample>, start: int, end: int, gap: real, edges: Vec, k: nat)
    requires |edges| >= 2 && k <= |points|
  {
    e.minutes == Minutes(end - start) && e.observed == MinutesWhere(points, start, end, gap, Seen, k)
    && Counts(Tally(e.flame, e.bins, e.unknown), points, start, end, gap, edges, Anything, k)
    && Counts(e.heating, points, start, end, gap, edges, OnlyHeating, k)
    && Counts(e.dhw, points, start, end, gap, edges, OnlyDhw, k)
    && Counts(e.ambiguous, points, start, end, gap, edges, Unclear, k)
  }

  lemma NothingWhere(points: seq<StateSample>, start: int, end: int, gap: real, p: StateSample -> bool)
    ensures MinutesWhere(points, start, end, gap, p, 0) == 0.0
  {
    assert SecondsWhere(points, start, end, gap, p, 0) == {};
  }

  lemma CountsNothing(points: seq<StateSample>, start: int, end: int, gap: real, edges: Vec, p: StateSample -> bool)
    requires |edges| >= 2
    ensures Counts(Tally(0.0, Zeros(|edges| - 1), 0.0), points, start, end, gap, edges, p, 0)
  {
    hide MinutesWhere;
    NothingWhere(points, start, end, gap, Lit(p));
    NothingWhere(points, start, end, gap, LitUnread(p));
    forall b | 0 <= b < |edges| - 1 ensures MinutesWhere(points, start, end, gap, LitIn(p, edges, b), 0) == 0.0 {
      NothingWhere(points, start, end, gap, LitIn(p, edges, b));
    }
  }

  /** A tally counts one more point by adding its minutes if it is lit and has the property. */
  lemma CountsStep(t: Tally, points: seq<StateSample>, start: int, end: int, gap: real, edges: Vec,
                   p: StateSample -> bool, k: nat)
    requires |edges| >= 2 && Increasing(edges) && 0 < k <= |points| && Chronological(points)
    requires Counts(t, points, start, end, gap, edges, p, k - 1)
    ensures var s := points[k - 1];
      Counts(if s.flame == Some(true) && p(s) then AddTally(t, Bin(s, edges), Weight(points, k - 1, start, end, gap))
             else t, points, start, end, gap, edges, p, k)
  {
    hide MinutesWhere, Weight, InBin, Bin, BinFrom, Increasing, Chronological;
    var s := points[k - 1];
    SecondsStep(points, start, end, gap, Lit(p), k);
    SecondsStep(points, start, end, gap, LitUnread(p), k);
    BinWhenKnown(s, edges);
    forall b | 0 <= b < |edges| - 1
      ensures MinutesWhere(points, start, end, gap, LitIn(p, edges, b), k)
        == MinutesWhere(points, start, end, gap, LitIn(p, edges, b), k - 1)
          + (if s.flame == Some(true) && p(s) && Bin(s, edges) == Some(b)
             then Weight(points, k - 1, start, end, gap) else 0.0)
    {
      SecondsStep(points, start, end, gap, LitIn(p, edges, b), k);
      if s.modulation.Some? {
        BinIsIn(s, edges, b);
      }
    }
  }

  lemma BinWhenKnown(s: StateSample, edges: Vec)
    requires |edges| >= 2
    ensures Bin(s, edges).Some? <==> s.modulation.Some?
  {
  }

  lemma CountsAllStep(e: Exposure, points: seq<StateSample>, start: int, end: int, gap: real, edges: Vec, k: nat)
    requires |edges| >= 2 && Increasing(edges) && 0 < k <= |points| && Chronological(points) && Shape(e, |edges| - 1)
    requires CountsAll(e, points, start, end, gap, edges, k - 1)
    ensures CountsAll(Accumulate(e, points[k - 1], Weight(points, k - 1, start, end, gap), edges),
                      points, start, end, gap, edges, k)
  {
    hide MinutesWhere, Weight, Bin, Increasing, Chronological, Counts, AddBin;
    CountsStep(Tally(e.flame, e.bins, e.unknown), points, start, end, gap, edges, Anything, k);
    CountsStep(e.heating, points, start, end, gap, edges, OnlyHeating, k);
    CountsStep(e.dhw, points, start, end, gap, edges, OnlyDhw, k);
    CountsStep(e.ambiguous, points, start, end, gap, edges, Unclear, k);
    SecondsStep(points, start, end, gap, Seen, k);
  }

  lemma {:induction false} ExposureCounts(points: seq<StateSample>, start: int, end: int, gap: real, edges: Vec, k: nat)
    requires |edges| >= 2 && Increasing(edges) && k <= |points| && Chronological(points)
    ensures CountsAll(ExposureTo(points, start, end, gap, edges, k), points, start, end, gap, edges, k)
  {
    hide MinutesWhere, Weight, Increasing, Chronological, Counts, Accumulate;
    if k == 0 {
      NothingWhere(points, start, end, gap, Seen);
      CountsNothing(points, start, end, gap, edges, Anything);
      CountsNothing(points, start, end, gap, edges, OnlyHeating);
      CountsNothing(points, start, end, gap, edges, OnlyDhw);
      CountsNothing(points, start, end, gap, edges, Unclear);
    } else {
      ExposureCounts(points, start, end, gap, edges, k - 1);
      CountsAllStep(ExposureTo(points, start, end, gap, edges, k - 1), points, start, end, gap, edges, k);
      StepIsWeight(points, start, end, gap, edges, k);
    }
  }

  /** Every figure of a period's exposure is a count of its seconds: those at which the sample
      in force is trusted and carries the flags the figure stands for. */
  lemma IntegratedCounts(samples: seq<StateSample>, start: int, end: int, gap: real, edges: Vec)
    requires |edges| >= 2 && Increasing(edges)
    ensures var points := ByTime(samples);
      Chronological(points) && multiset(points) == multiset(samples)
      && CountsAll(Integrated(samples, start, end, gap, edges), points, start, end, gap, edges, |points|)
  {
    ByTimeChronological(samples);
    ExposureCounts(ByTime(samples), start, end, gap, edges, |ByTime(samples)|);
  }

  lemma SamePlaces(points: seq<StateSample>, start: int, end: int, gap: real, p: StateSample -> bool,
                   q: StateSample -> bool)
    requires forall s :: s in points ==> (p(s) <==> q(s))
    ensures MinutesWhere(points, start, end, gap, p, |points|) == MinutesWhere(points, start, end, gap, q, |points|)
  {
    hide Holds;
    assert SecondsWhere(points, start, end, gap, p, |points|) == SecondsWhere(points, start, end, gap, q, |points|);
  }

  lemma NoPlaces(points: seq<StateSample>, start: int, end: int, gap: real, p: StateSample -> bool)
    requires forall s :: s in points ==> !p(s)
    ensures MinutesWhere(points, start, end, gap, p, |points|) == 0.0
  {
    hide Holds;
    assert SecondsWhere(points, start, end, gap, p, |points|) == {};
  }

  lemma MinutesCounted(e: Exposure, points: seq<StateSample>, start: int, end: int, gap: real, edges: Vec)
    requires |edges| >= 2 && CountsAll(e, points, start, end, gap, edges, |points|)
    ensures e.flame == MinutesWhere(points, start, end, gap, Lit(Anything), |points|)
    ensures e.heating.minutes == MinutesWhere(points, start, end, gap, Lit(OnlyHeating), |points|)
    ensures e.dhw.minutes == MinutesWhere(points, start, end, gap, Lit(OnlyDhw), |points|)
    ensures e.ambiguous.minutes == MinutesWhere(points, start, end, gap, Lit(Unclear), |points|)
  {
    hide MinutesWhere;
  }

  lemma LitMeans(s: StateSample)
    ensures Lit(Anything)(s) <==> s.flame == Some(true)
    ensures Lit(OnlyHeating)(s) <==> s.flame == Some(true) && OnlyHeating(s)
    ensures Lit(OnlyDhw)(s) <==> s.flame == Some(true) && OnlyDhw(s)
    ensures Lit(Unclear)(s) <==> s.flame == Some(true) && !OnlyHeating(s) && !OnlyDhw(s)
    ensures !(OnlyHeating(s) && OnlyDhw(s))
  {
    assert Anything(s) && (Unclear(s) <==> !OnlyHeating(s) && !OnlyDhw(s));
  }

  /** Where every lit sample is exclusively heating, all flame time is heating time; and so for
      hot water. */
  lemma OnePurpose(samples: seq<StateSample>, start: int, end: int, gap: real, edges: Vec)
    requires |edges| >= 2 && Increasing(edges)
    ensures var e := Integrated(samples, start, end, gap, edges);
      ((forall s :: s in samples && s.flame == Some(true) ==> OnlyHeating(s)) ==>
         e.heating.minutes == e.flame && e.dhw.minutes == e.ambiguous.minutes == 0.0)
      && ((forall s :: s in samples && s.flame == Some(true) ==> OnlyDhw(s)) ==>
            e.dhw.minutes == e.flame && e.heating.minutes == e.ambiguous.minutes == 0.0)
  {
    hide *;
    var points, e := ByTime(samples), Integrated(samples, start, end, gap, edges);
    IntegratedCounts(samples, start, end, gap, edges);
    MinutesCounted(e, points, start, end, gap, edges);
    forall s | s in points ensures s in samples {
      assert s in multiset(points);
    }
    forall s { LitMeans(s); }
    if forall s :: s in samples && s.flame == Some(true) ==> OnlyHeating(s) {
      SamePlaces(points, start, end, gap, Lit(OnlyHeating), Lit(Anything));
      NoPlaces(points, start, end, gap, Lit(OnlyDhw));
      NoPlaces(points, start, end, gap, Lit(Unclear));
    }
    if forall s :: s in samples && s.flame == Some(true) ==> OnlyDhw(s) {
      SamePlaces(points, start, end, gap, Lit(OnlyDhw), Lit(Anything));
      NoPlaces(points, start, end, gap, Lit(OnlyHeating));
      NoPlaces(points, start, end, gap, Lit(Unclear));
    }
  }

  // ----- Additivity -----

  function VecSum(a: Vec, b: Vec): (r: Vec)
    requires |a| == |b|
    ensures |r| == |a| && forall i :: 0 <= i < |a| ==> r[i] == a[i] + b[i]
  {
    seq(|a|, i requires 0 <= i < |a| => a[i] + b[i])
  }

  function TallySum(a: Tally, b: Tally): Tally
    requires |a.bins| == |b.bins|
  {
    Tally(a.minutes + b.minutes, VecSum(a.bins, b.bins), a.unknown + b.unknown)
  }

  /** Componentwise sum. */
  function Plus(a: Exposure, b: Exposure): (e: Exposure)
    requires Shape(a, |a.bins|) && Shape(b, |a.bins|)
    ensures Shape(e, |a.bins|)
  {
    Exposure(a.minutes + b.minutes, VecSum(a.bins, b.bins), a.unknown + b.unknown,
             a.observed + b.observed, a.flame + b.flame,
             TallySum(a.heating, b.heating), TallySum(a.dhw, b.dhw), TallySum(a.ambiguous, b.ambiguous))
  }

  lemma {:induction false} SumToPlus(a: Vec, b: Vec, k: nat)
    requires |a| == |b| && k <= |a|
    ensures SumTo(VecSum(a, b), k) == SumTo(a, k) + SumTo(b, k)
  {
    if k > 0 {
      SumToPlus(a, b, k - 1);
    }
  }

  /** A sum of conserved exposures is conserved. */
  lemma PlusConserves(a: Exposure, b: Exposure)
    requires Conserved(a) && Conserved(b) && |a.bins| == |b.bins|
    ensures Conserved(Plus(a, b))
  {
    hide SumTo;
    SumToPlus(a.bins, b.bins, |a.bins|);
    SumToPlus(a.heating.bins, b.heating.bins, |a.bins|);
    SumToPlus(a.dhw.bins, b.dhw.bins, |a.bins|);
    SumToPlus(a.ambiguous.bins, b.ambiguous.bins, |a.bins|);
  }

  lemma AddBinPlus(a: Vec, b: Vec, i: nat, x: real, y: real)
    requires |a| == |b| && i < |a|
    ensures AddBin(VecSum(a, b), i, x + y) == VecSum(AddBin(a, i, x), AddBin(b, i, y))
  {
  }

  lemma AddTallyPlus(a: Tally, b: Tally, bin: Option<nat>, x: real, y: real)
    requires |a.bins| == |b.bins| && (bin.Some? ==> bin.value < |a.bins|)
    ensures AddTally(TallySum(a, b), bin, x + y) == TallySum(AddTally(a, bin, x), AddTally(b, bin, y))
  {
    if bin.Some? {
      AddBinPlus(a.bins, b.bins, bin.value, x, y);
    }
  }

  lemma AccumulatePlus(a: Exposure, b: Exposure, sample: StateSample, x: real, y: real, edges: Vec)
    requires |edges| >= 2 && Shape(a, |edges| - 1) && Shape(b, |edges| - 1)
    ensures Accumulate(Plus(a, b), sample, x + y, edges)
      == Plus(Accumulate(a, sample, x, edges), Accumulate(b, sample, y, edges))
  {
    var bin := Bin(sample, edges);
    if bin.Some? {
      AddBinPlus(a.bins, b.bins, bin.value, x, y);
    }
    AddTallyPlus(a.heating, b.heating, bin, x, y);
    AddTallyPlus(a.dhw, b.dhw, bin, x, y);
    AddTallyPlus(a.ambiguous, b.ambiguous, bin, x, y);
  }

  lemma AccumulateNothing(e: Exposure, sample: StateSample, edges: Vec)
    requires |edges| >= 2 && Shape(e, |edges| - 1)
    ensures Accumulate(e, sample, 0.0, edges) == e
  {
  }

  /** A skipped point adds its zero weight. */
  lemma StepIsWeight(points: seq<StateSample>, start: int, end: int, gap: real, edges: Vec, k: nat)
    requires |edges| >= 2 && 0 < k <= |points|
    ensures ExposureTo(points, start, end, gap, edges, k)
      == Accumulate(ExposureTo(points, start, end, gap, edges, k - 1), points[k - 1],
                    Weight(points, k - 1, start, end, gap), edges)
  {
    AccumulateNothing(ExposureTo(points, start, end, gap, edges, k - 1), points[k - 1], edges);
  }

  /** The last sample is trusted up to the split but not up to the end of the whole period. */
  predicate LastGoesStale(points: seq<StateSample>, split: int, end: int, gap: real) {
    points != [] && points[|points| - 1].timestamp < split
    && Minutes(split - points[|points| - 1].timestamp) <= gap < Minutes(end - points[|points| - 1].timestamp)
  }

  /** A point's minutes add up over a split, unless it is the last and goes stale in between. */
  lemma WeightSplits(points: seq<StateSample>, i: nat, start: int, split: int, end: int, gap: real)
    requires i < |points| && Chronological(points) && start < split < end
    requires i + 1 < |points| || !LastGoesStale(points, split, end, gap)
    ensures Weight(points, i, start, end, gap)
      == Weight(points, i, start, split, gap) + Weight(points, i, split, end, gap)
  {
  }

  lemma StaleWeightDiffers(points: seq<StateSample>, start: int, split: int, end: int, gap: real)
    requires Chronological(points) && start < split < end && LastGoesStale(points, split, end, gap)
    ensures Weight(points, |points| - 1, start, end, gap) == Weight(points, |points| - 1, split, end, gap) == 0.0
    ensures Weight(points, |points| - 1, start, split, gap) > 0.0
  {
  }

  lemma {:induction false} ExposureSplitsTo(points: seq<StateSample>, start: int, split: int, end: int, gap: real,
                                            edges: Vec, k: nat)
    requires |edges| >= 2 && k <= |points| && Chronological(points) && start < split < end
    requires k < |points| || !LastGoesStale(points, split, end, gap)
    ensures ExposureTo(points, start, end, gap, edges, k)
      == Plus(ExposureTo(points, start, split, gap, edges, k), ExposureTo(points, split, end, gap, edges, k))
  {
    hide ExposureTo, Accumulate, Weight, Plus, Kept, LastGoesStale, Chronological, Minutes;
    if k == 0 {
      NothingSplits(points, start, split, end, gap, edges);
    } else {
      ExposureSplitsTo(points, start, split, end, gap, edges, k - 1);
      WeightSplits(points, k - 1, start, split, end, gap);
      StepIsWeight(points, start, end, gap, edges, k);
      StepIsWeight(points, start, split, gap, edges, k);
      StepIsWeight(points, split, end, gap, edges, k);
      var a := ExposureTo(points, start, split, gap, edges, k - 1);
      var b := ExposureTo(points, split, end, gap, edges, k - 1);
      var x, y := Weight(points, k - 1, start, split, gap), Weight(points, k - 1, split, end, gap);
      AccumulatePlus(a, b, points[k - 1], x, y, edges);
      assert ExposureTo(points, start, end, gap, edges, k - 1) == Plus(a, b);
      assert ExposureTo(points, start, end, gap, edges, k) == Accumulate(Plus(a, b), points[k - 1], x + y, edges);
    }
  }

  lemma NothingSplits(points: seq<StateSample>, start: int, split: int, end: int, gap: real, edges: Vec)
    requires |edges| >= 2
    ensures ExposureTo(points, start, end, gap, edges, 0)
      == Plus(ExposureTo(points, start, split, gap, edges, 0), ExposureTo(points, split, end, gap, edges, 0))
  {
    assert VecSum(Zeros(|edges| - 1), Zeros(|edges| - 1)) == Zeros(|edges| - 1);
    assert Minutes(end - start) == Minutes(split - start) + Minutes(end - split);
  }

  /** When the last sample goes stale its known flame state is counted before the split only. */
  lemma StaleBreaksAdditivity(points: seq<StateSample>, start: int, split: int, end: int, gap: real, edges: Vec)
    requires |edges| >= 2 && start < split < end && Chronological(points) && LastGoesStale(points, split, end, gap)
    ensures (ExposureTo(points, start, end, gap, edges, |points|)
        == Plus(ExposureTo(points, start, split, gap, edges, |points|),
                ExposureTo(points, split, end, gap, edges, |points|)))
      <==> points[|points| - 1].flame.None?
  {
    var k, last := |points|, points[|points| - 1];
    ExposureSplitsTo(points, start, split, end, gap, edges, k - 1);
    StaleWeightDiffers(points, start, split, end, gap);
    StepIsWeight(points, start, end, gap, edges, k);
    StepIsWeight(points, start, split, gap, edges, k);
    StepIsWeight(points, split, end, gap, edges, k);
    hide ExposureTo, Weight, Chronological, LastGoesStale, Minutes;
    var a, b := ExposureTo(points, start, split, gap, edges, k - 1), ExposureTo(points, split, end, gap, edges, k - 1);
    AccumulateNothing(b, last, edges);
    AccumulateNothing(Plus(a, b), last, edges);
    AccumulateObserved(a, last, Weight(points, k - 1, start, split, gap), edges);
  }

  lemma AccumulateObserved(e: Exposure, sample: StateSample, minutes: real, edges: Vec)
    requires |edges| >= 2 && Shape(e, |edges| - 1)
    ensures sample.flame.None? ==> Accumulate(e, sample, minutes, edges) == e
    ensures sample.flame.Some? ==> Accumulate(e, sample, minutes, edges).observed == e.observed + minutes
  {
  }

  /** Exactly when a period's exposure is the sum over a split: unless the last sample has a
      known flame state, is fresh at the split and stale at the end. */
  lemma ExposureAdditive(samples: seq<StateSample>, start: int, split: int, end: int, gap: real, edges: Vec)
    requires |edges| >= 2 && start < split < end
    ensures var points := ByTime(samples);
      Integrated(samples, start, end, gap, edges)
        == Plus(Integrated(samples, start, split, gap, edges), Integrated(samples, split, end, gap, edges))
      <==> !(LastGoesStale(points, split, end, gap) && points[|points| - 1].flame.Some?)
  {
    var points := ByTime(samples);
    ByTimeChronological(samples);
    if LastGoesStale(points, split, end, gap) {
      StaleBreaksAdditivity(points, start, split, end, gap, edges);
    } else {
      ExposureSplitsTo(points, start, split, end, gap, edges, |points|);
    }
  }

  /** Such periods exist: one lit reading that is fresh at the split and stale at the end. The
      first part counts a minute of it and the whole period nothing. */
  lemma StaleExample(edges: Vec)
    requires |edges| >= 2
    ensures var samples := [StateSample(0, Some(true), None, None, None)];
      Integrated(samples, 0, 10000, 15.0, edges)
      != Plus(Integrated(samples, 0, 60, 15.0, edges), Integrated(samples, 60, 10000, 15.0, edges))
  {
    var samples := [StateSample(0, Some(true), None, None, None)];
    OnlySample(samples[0]);
    assert Minutes(60) == 1.0 && Minutes(10000) > 15.0;
    hide Integrated, Plus, ByTime;
    ExposureAdditive(samples, 0, 60, 10000, 15.0, edges);
  }

  lemma OnlySample(sample: StateSample)
    ensures ByTime([sample]) == [sample]
  {
    SortMembers((a: StateSample, b: StateSample) => a.timestamp <= b.timestamp, [sample]);
  }

  /** In particular a sample at or after the end makes every split additive. */
  lemma AdditiveWithLaterSample(samples: seq<StateSample>, late: StateSample, start: int, split: int, end: int,
                                gap: real, edges: Vec)
    requires |edges| >= 2 && start < split < end && late in samples && late.timestamp >= end
    ensures Integrated(samples, start, end, gap, edges)
      == Plus(Integrated(samples, start, split, gap, edges), Integrated(samples, split, end, gap, edges))
  {
    var points := ByTime(samples);
    ByTimeChronological(samples);
    SortMembers((a: StateSample, b: StateSample) => a.timestamp <= b.timestamp, samples);
    assert late in points;
    var i :| 0 <= i < |points| && points[i] == late;
    assert points[|points| - 1].timestamp >= end;
    ExposureAdditive(samples, start, split, end, gap, edges);
  }
}
