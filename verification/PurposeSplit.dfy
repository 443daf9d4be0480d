/** The volume estimate of a period's exposure and its allocation to heating, hot water and
    unknown purpose: the allocation conserves the modelled volume. */
module PurposeSplit {
  import opened Options
  import opened RealArithmetic
  import opened LinearAlgebra
  import opened RidgeFit
  import opened GasFit
  import opened BurnerExposure

  const MIN_ESTIMATE_COVERAGE := 0.8

  datatype Estimate = Estimate(
    volume: Option<real>, bounds: Option<(real, real)>, coverage: real,
    observedVolume: Option<real>, gapVolume: Option<real>)

  datatype Component = Component(volume: real, lower: real, upper: real)

  datatype Split = Split(
    total: Option<real>, allotted: Option<real>, unallocated: Option<real>,
    heating: Option<Component>, dhw: Option<Component>, unknownPurpose: Option<Component>)

  function Scale(v: Vec, f: real): (r: Vec)
    ensures |r| == |v|
  {
    seq(|v|, i requires 0 <= i < |v| => v[i] * f)
  }

  /** Bounds are carried for every rate or for none, as the strict pairing in the source demands. */
  ghost predicate WellShaped(m: GasModel) {
    (m.lowers == [] || |m.lowers| == |m.rates|) && (m.uppers == [] || |m.uppers| == |m.rates|)
  }

  /** Lower and upper rates, with the source's fallback when the model carries none. */
  function LowerRates(m: GasModel): (r: Vec)
    requires WellShaped(m)
    ensures |r| == |m.rates|
  {
    if m.lowers != [] then m.lowers else Scale(m.rates, 0.7)
  }

  function UpperRates(m: GasModel): (r: Vec)
    requires WellShaped(m)
    ensures |r| == |m.rates|
  {
    if m.uppers != [] then m.uppers else Scale(m.rates, 1.3)
  }

  function Clip(x: real): real {
    Max(0.0, Min(1.0, x))
  }

  /** Lower and upper mean rate around the model's mean. */
  function MeanRange(m: GasModel, mean: real): (real, real) {
    var spread := Max(0.3, m.boundaryRelative);
    var lower := Max(0.0, mean * (1.0 - spread));
    var upper := mean * (1.0 + spread);
    (if m.low.Some? then Max(m.low.value, lower) else lower,
     if m.high.Some? then Min(m.high.value, upper) else upper)
  }

  function UnknownEstimate(coverage: real, observed: Option<real>): Estimate {
    Estimate(None, None, coverage, observed, None)
  }

  function Coverage(e: Exposure): real {
    if e.minutes > 0.0 then Clip(e.observed / e.minutes) else 0.0
  }

  /** Flame minutes without a modulation value, older caches included. */
  function UnknownModulation(e: Exposure): real {
    var flame := Max(0.0, e.flame);
    var unknown := Max(0.0, e.unknown);
    unknown + Max(0.0, flame - (Sum(e.bins) + unknown))
  }

  function ObservedVolume(e: Exposure, m: GasModel): real
    requires m.mean.Some? && |m.rates| == |e.bins|
  {
    Dot(e.bins, m.rates) + Times(UnknownModulation(e), m.mean.value)
  }

  /** The accumulated widening of the bounds by caller, boundary, age and meter-scope terms. */
  function Widened(volume: real, bounds: (real, real), m: GasModel, ageDays: Option<real>, uncertainty: real)
    : (real, real)
  {
    var caller := if uncertainty > 0.0 then uncertainty else 0.0;
    var boundary := if m.boundaryRelative > 0.0 then volume * m.boundaryRelative else 0.0;
    var age := if ageDays.Some? && ageDays.value > 30.0
      then volume * Min(0.75, (ageDays.value - 30.0) / 365.0 * 0.35) else 0.0;
    var scope := match m.gasStove
      case Some(true) => (volume * 0.35, volume * 0.20)
      case None => (volume * 0.15, volume * 0.15)
      case _ => (0.0, 0.0);
    (bounds.0 - caller - boundary - age - scope.0, bounds.1 + caller + boundary + age + scope.1)
  }

  /** gas.estimate_exposure. */
  function EstimateExposure(e: Exposure, m: GasModel, ageDays: Option<real>, uncertainty: real): Estimate
    requires WellShaped(m)
  {
    var coverage := Coverage(e);
    var flame := Max(0.0, e.flame);
    if e.minutes <= 0.0 || |e.bins| != m.bins then UnknownEstimate(coverage, None)
    else if m.mean.None? || |m.rates| != |e.bins| then UnknownEstimate(coverage, None)
    else
      var observed := ObservedVolume(e, m);
      if coverage < MIN_ESTIMATE_COVERAGE then UnknownEstimate(coverage, Some(observed))
      else if flame <= 0.0 && coverage < 0.95 then UnknownEstimate(coverage, Some(observed))
      else
        var mean := m.mean.value;
        var unknown := UnknownModulation(e);
        var range := if m.usable == 0 && m.low.Some? && m.high.Some? then (m.low.value, m.high.value)
                     else MeanRange(m, mean);
        var low := Dot(e.bins, LowerRates(m)) + Times(unknown, Min(range.0, mean));
        var high := Dot(e.bins, UpperRates(m)) + Times(unknown, Max(range.1, mean));
        var volume := if coverage < 1.0 then observed / coverage else observed;
        var raw := if coverage < 1.0 then (low, high / coverage * (1.0 + 0.5 * (1.0 - coverage))) else (low, high);
        var wide := Widened(volume, raw, m, ageDays, uncertainty);
        var bounds := (Max(0.0, Min(wide.0, volume)), Max(volume, wide.1));
        Estimate(Some(volume), Some(bounds), coverage, Some(observed), Some(volume - observed))
  }

  /** One purpose's share; unknown when its bins do not match the model. */
  function PurposeShare(t: Tally, m: GasModel): Option<Component>
    requires m.mean.Some? && |m.rates| == m.bins && WellShaped(m)
  {
    if |t.bins| != m.bins then None
    else
      var mean, range := m.mean.value, MeanRange(m, m.mean.value);
      var volume := Dot(t.bins, m.rates) + Times(t.unknown, mean);
      var low := Dot(t.bins, LowerRates(m)) + Times(t.unknown, range.0);
      var high := Dot(t.bins, UpperRates(m)) + Times(t.unknown, range.1);
      Some(Component(volume, Max(0.0, Min(low, volume)), Max(volume, high)))
  }

  /** gas.estimate_gas_purpose_split. */
  function SplitPurpose(e: Exposure, m: GasModel, estimate: Estimate): Split
    requires WellShaped(m)
  {
    if m.mean.None? || |m.rates| != m.bins then
      Split(estimate.volume, None, estimate.gapVolume, None, None, None)
    else
      var h, d, u := PurposeShare(e.heating, m), PurposeShare(e.dhw, m), PurposeShare(e.ambiguous, m);
      var allotted := if h.Some? && d.Some? && u.Some?
        then Some(h.value.volume + d.value.volume + u.value.volume) else None;
      Split(estimate.volume, allotted, estimate.gapVolume, h, d, u)
  }

  // ----- The estimate -----

  /** Enough of the period was observed, flame or a nearly complete record, by a model that fits. */
  ghost predicate Estimable(e: Exposure, m: GasModel) {
    e.minutes > 0.0 && m.mean.Some? && |m.rates| == |e.bins| == m.bins
    && e.observed >= MIN_ESTIMATE_COVERAGE * e.minutes && (e.flame > 0.0 || e.observed >= 0.95 * e.minutes)
  }

  /** The estimate takes the observed volume to the whole period at the observed pace: volume to
      observed volume is as period to observed time. */
  ghost predicate Extrapolates(s: Estimate, e: Exposure, m: GasModel) {
    (s.volume.Some? <==> Estimable(e, m))
    && (s.volume.Some? ==>
          s.observedVolume == Some(Dot(e.bins, m.rates) + Times(e.unknown, m.mean.value))
          && Times(s.volume.value, e.observed) == Times(s.observedVolume.value, e.minutes)
          && s.gapVolume == Some(s.volume.value - s.observedVolume.value))
  }

  lemma EstimateExtrapolates(e: Exposure, m: GasModel, ageDays: Option<real>, uncertainty: real)
    requires Conserved(e) && e.observed <= e.minutes && WellShaped(m)
    ensures Extrapolates(EstimateExposure(e, m, ageDays, uncertainty), e, m)
  {
    UnknownModulationIsExplicit(e);
    FlameNonNegative(e);
    hide Dot, Times, Widened, MeanRange, UnknownModulation, LowerRates, UpperRates, Whole, Sum;
    if e.minutes > 0.0 {
      CoverageIs(e);
      CoverageBelow(e, 0.8);
      CoverageBelow(e, 0.95);
      if m.mean.Some? && |m.rates| == |e.bins| && Coverage(e) > 0.0 {
        Extrapolation(ObservedVolume(e, m), e.observed, e.minutes, Coverage(e));
      }
    }
    hide Coverage;
  }

  lemma FlameNonNegative(e: Exposure)
    requires Conserved(e)
    ensures 0.0 <= e.flame <= e.observed
  {
    hide SumTo;
    SumNonNegative(e.heating.bins, |e.bins|);
    SumNonNegative(e.dhw.bins, |e.bins|);
    SumNonNegative(e.ambiguous.bins, |e.bins|);
  }

  lemma CoverageIs(e: Exposure)
    requires e.minutes > 0.0 && 0.0 <= e.observed <= e.minutes
    ensures Coverage(e) * e.minutes == e.observed && 0.0 <= Coverage(e) <= 1.0
  {
    var ratio := e.observed / e.minutes;
    QuotientTimes(e.observed, e.minutes);
    QuotientNonNegative(e.observed, e.minutes);
    if ratio > 1.0 {
      ProductStrict(1.0, ratio, e.minutes);
    }
  }

  lemma CoverageBelow(e: Exposure, part: real)
    requires e.minutes > 0.0 && 0.0 <= e.observed <= e.minutes
    ensures Coverage(e) < part <==> e.observed < part * e.minutes
  {
    CoverageIs(e);
    hide Coverage;
    if Coverage(e) < part {
      ProductStrict(Coverage(e), part, e.minutes);
    } else {
      ProductMonotone(part, Coverage(e), e.minutes);
    }
  }

  lemma Extrapolation(volume: real, observed: real, minutes: real, coverage: real)
    requires coverage > 0.0 && coverage * minutes == observed
    ensures coverage == 1.0 ==> Times(volume, observed) == Times(volume, minutes)
    ensures Times(volume / coverage, observed) == Times(volume, minutes)
  {
    QuotientTimes(volume, coverage);
    var whole := volume / coverage;
    assert whole * (coverage * minutes) == (whole * coverage) * minutes;
  }

  // ----- Conservation -----

  lemma {:induction false} DotToPlus(a: Vec, b: Vec, c: Vec, r: Vec, k: nat)
    requires k <= |a| && k <= |b| && k <= |c| && k <= |r|
    requires forall i :: 0 <= i < k ==> c[i] == a[i] + b[i]
    ensures DotTo(c, r, k) == DotTo(a, r, k) + DotTo(b, r, k)
  {
    hide Times;
    if k > 0 {
      DotToPlus(a, b, c, r, k - 1);
      TimesLaws(r[k - 1], a[k - 1], b[k - 1]);
      TimesLaws(a[k - 1], r[k - 1], 0.0);
      TimesLaws(b[k - 1], r[k - 1], 0.0);
      TimesLaws(c[k - 1], r[k - 1], 0.0);
    }
  }

  lemma PurposeVolumesAddUp(e: Exposure, rates: Vec, mean: real)
    requires Conserved(e) && |rates| == |e.bins|
    ensures Dot(e.heating.bins, rates) + Times(e.heating.unknown, mean)
      + (Dot(e.dhw.bins, rates) + Times(e.dhw.unknown, mean))
      + (Dot(e.ambiguous.bins, rates) + Times(e.ambiguous.unknown, mean))
      == Dot(e.bins, rates) + Times(e.unknown, mean)
  {
    hide DotTo, Times, Whole, Sum;
    var two := VecSum(e.heating.bins, e.dhw.bins);
    DotToPlus(e.heating.bins, e.dhw.bins, two, rates, |rates|);
    DotToPlus(two, e.ambiguous.bins, e.bins, rates, |rates|);
    var h, d, a := e.heating.unknown, e.dhw.unknown, e.ambiguous.unknown;
    TimesLaws(mean, h, d);
    TimesLaws(mean, h + d, a);
    TimesLaws(h, mean, 0.0);
    TimesLaws(d, mean, 0.0);
    TimesLaws(a, mean, 0.0);
    TimesLaws(e.unknown, mean, 0.0);
  }

  lemma {:induction false} DotToNonNegative(a: Vec, b: Vec, k: nat)
    requires k <= |a| && k <= |b|
    requires forall i :: 0 <= i < k ==> a[i] >= 0.0 && b[i] >= 0.0
    ensures DotTo(a, b, k) >= 0.0
  {
    if k > 0 {
      DotToNonNegative(a, b, k - 1);
      ProductNonNegative(a[k - 1], b[k - 1]);
    }
  }

  /** A conserved exposure has no hidden unknown-modulation time. */
  lemma UnknownModulationIsExplicit(e: Exposure)
    requires Conserved(e)
    ensures UnknownModulation(e) == e.unknown
  {
    hide SumTo;
    SumNonNegative(e.heating.bins, |e.bins|);
    SumNonNegative(e.dhw.bins, |e.bins|);
    SumNonNegative(e.ambiguous.bins, |e.bins|);
  }

  lemma {:induction false} SumNonNegative(v: Vec, k: nat)
    requires k <= |v| && forall i :: 0 <= i < |v| ==> v[i] >= 0.0
    ensures SumTo(v, k) >= 0.0
  {
    if k > 0 {
      SumNonNegative(v, k - 1);
    }
  }

  /** The purposes partition the observed volume, and with the unallocated telemetry gap
      they make up the modelled total. */
  lemma SplitConserves(e: Exposure, m: GasModel, ageDays: Option<real>, uncertainty: real)
    requires Conserved(e) && WellShaped(m)
    ensures var estimate := EstimateExposure(e, m, ageDays, uncertainty);
      var split := SplitPurpose(e, m, estimate);
      && (estimate.observedVolume.Some? && split.allotted.Some? ==> split.allotted == estimate.observedVolume)
      && (estimate.volume.Some? ==>
            split.allotted.Some? && split.unallocated.Some?
            && split.allotted.value + split.unallocated.value == estimate.volume.value
            && split.total == estimate.volume)
  {
    hide DotTo, Times, Widened, MeanRange, UnknownModulation, LowerRates, UpperRates, Coverage, Whole, Sum;
    UnknownModulationIsExplicit(e);
    if m.mean.Some? && |m.rates| == |e.bins| {
      PurposeVolumesAddUp(e, m.rates, m.mean.value);
    }
  }

  /** Non-negative rates, as the fitter produces them. */
  ghost predicate SoundModel(m: GasModel) {
    m.mean.Some? && m.mean.value >= 0.0 && |m.rates| == m.bins
    && forall i :: 0 <= i < |m.rates| ==> m.rates[i] >= 0.0
  }

  lemma FittedModelIsSound(m: GasModel)
    requires BoundedRates(m, m.bins)
    ensures SoundModel(m) && WellShaped(m)
  {
    assert forall i :: 0 <= i < |m.rates| ==> m.lowers[i] >= 0.0;
  }

  ghost predicate Ordered(c: Option<Component>) {
    c.Some? ==> 0.0 <= c.value.lower <= c.value.volume <= c.value.upper
  }

  /** Every component, and the estimate itself, lies within its own bounds. */
  lemma BoundsEnclose(e: Exposure, m: GasModel, ageDays: Option<real>, uncertainty: real)
    requires Conserved(e) && SoundModel(m) && WellShaped(m)
    ensures var estimate := EstimateExposure(e, m, ageDays, uncertainty);
      var split := SplitPurpose(e, m, estimate);
      && Ordered(split.heating) && Ordered(split.dhw) && Ordered(split.unknownPurpose)
      && (estimate.volume.Some? ==>
            estimate.bounds.Some? && 0.0 <= estimate.bounds.value.0 <= estimate.volume.value <= estimate.bounds.value.1)
  {
    ShareNonNegative(e.heating, m);
    ShareNonNegative(e.dhw, m);
    ShareNonNegative(e.ambiguous, m);
    hide DotTo, Times, Widened, MeanRange, UnknownModulation, LowerRates, UpperRates, Whole, Sum;
    UnknownModulationIsExplicit(e);
    if |m.rates| == |e.bins| {
      PurposeVolumesAddUp(e, m.rates, m.mean.value);
      var observed, coverage := ObservedVolume(e, m), Coverage(e);
      if coverage > 0.0 {
        QuotientNonNegative(observed, coverage);
      }
    }
  }

  lemma ShareNonNegative(t: Tally, m: GasModel)
    requires Whole(t) && SoundModel(m)
    ensures |t.bins| == m.bins ==> Dot(t.bins, m.rates) + Times(t.unknown, m.mean.value) >= 0.0
  {
    if |t.bins| == m.bins {
      DotToNonNegative(t.bins, m.rates, |t.bins|);
      ProductNonNegative(t.unknown, m.mean.value);
    }
  }

  /** For a period's own exposure the split conserves the volume. */
  lemma PeriodSplitConserves(samples: seq<StateSample>, start: int, end: int, gap: real, edges: Vec,
                             m: GasModel, ageDays: Option<real>, uncertainty: real)
    requires |edges| >= 2 && start < end && WellShaped(m)
    ensures var e := Integrated(samples, start, end, gap, edges);
      var estimate := EstimateExposure(e, m, ageDays, uncertainty);
      var split := SplitPurpose(e, m, estimate);
      estimate.volume.Some? ==>
        split.allotted.Some? && split.unallocated.Some?
        && split.allotted == estimate.observedVolume
        && split.allotted.value + split.unallocated.value == estimate.volume.value
  {
    var e := Integrated(samples, start, end, gap, edges);
    IntegratedConserves(samples, start, end, gap, edges);
    SplitConserves(e, m, ageDays, uncertainty);
    hide Integrated, Conserved, ObservedVolume, Widened, Coverage, DotTo;
    var estimate := EstimateExposure(e, m, ageDays, uncertainty);
    assert estimate.volume.Some? ==> estimate.observedVolume.Some?;
  }

  /** What fit_intervals promises of every model it returns. */
  ghost predicate FitterModel(m: GasModel) {
    |m.rates| == m.bins && (m.mean.Some? ==> BoundedRates(m, m.bins)) && (m.mean.None? ==> m.lowers == m.uppers == [])
  }

  /** The purposes of the estimate conserve the modelled volume, and everything lies within its
      own bounds. */
  ghost predicate SoundSplit(estimate: Estimate, split: Split) {
    Ordered(split.heating) && Ordered(split.dhw) && Ordered(split.unknownPurpose)
    && (estimate.volume.Some? ==>
          split.allotted.Some? && split.unallocated.Some? && split.allotted == estimate.observedVolume
          && split.allotted.value + split.unallocated.value == estimate.volume.value
          && estimate.bounds.Some?
          && 0.0 <= estimate.bounds.value.0 <= estimate.volume.value <= estimate.bounds.value.1)
  }

  /** For every exposure whose parts add up: a period's own, and any sum of such. */
  lemma ConservedSplit(e: Exposure, m: GasModel, ageDays: Option<real>, uncertainty: real)
    requires Conserved(e) && FitterModel(m)
    ensures WellShaped(m)
    ensures var estimate := EstimateExposure(e, m, ageDays, uncertainty);
      SoundSplit(estimate, SplitPurpose(e, m, estimate))
  {
    SplitConserves(e, m, ageDays, uncertainty);
    if m.mean.Some? {
      FittedModelIsSound(m);
      BoundsEnclose(e, m, ageDays, uncertainty);
    }
    hide Conserved, ObservedVolume, Widened, Coverage, DotTo, BoundedRates;
  }

  lemma FittedSplit(samples: seq<StateSample>, start: int, end: int, gap: real, edges: Vec, m: GasModel,
                    ageDays: Option<real>, uncertainty: real)
    requires |edges| >= 2 && start < end && FitterModel(m)
    ensures WellShaped(m)
    ensures var e := Integrated(samples, start, end, gap, edges);
      var estimate := EstimateExposure(e, m, ageDays, uncertainty);
      SoundSplit(estimate, SplitPurpose(e, m, estimate))
  {
    IntegratedConserves(samples, start, end, gap, edges);
    ConservedSplit(Integrated(samples, start, end, gap, edges), m, ageDays, uncertainty);
  }

  /** The component is the gas of its own minutes, at the rates of the model. */
  ghost predicate Priced(c: Option<Component>, t: Tally, m: GasModel) {
    (c.Some? <==> m.mean.Some?)
    && (c.Some? ==>
          |t.bins| == |m.rates| && c.value.volume == Dot(t.bins, m.rates) + Times(t.unknown, m.mean.value))
  }

  ghost predicate AllPriced(split: Split, e: Exposure, m: GasModel) {
    Priced(split.heating, e.heating, m) && Priced(split.dhw, e.dhw, m) && Priced(split.unknownPurpose, e.ambiguous, m)
  }

  lemma SplitPriced(e: Exposure, m: GasModel, estimate: Estimate)
    requires FitterModel(m) && WellShaped(m) && Shape(e, m.bins)
    ensures AllPriced(SplitPurpose(e, m, estimate), e, m)
  {
    hide Dot, Times, MeanRange, BoundedRates, LowerRates, UpperRates;
  }

  /** From the meter intervals and the burner samples to the split of a period's volume: with
      whatever model the fitter returns, each component prices the flame time of its own
      purpose, the estimate extrapolates, and the split conserves the volume within its bounds. */
  method SplitOfPeriod(intervals: seq<Interval>, edges: Vec, maxBins: int, minimum: Limit, maximum: Limit,
                       gasStove: Option<bool>, sampling: nat -> real, samples: seq<StateSample>, start: int, end: int,
                       gap: real, ageDays: Option<real>, uncertainty: real)
    returns (estimate: Estimate, split: Split, ghost exposure: Exposure, ghost m: GasModel)
    requires |edges| >= 2 && start < end
    ensures SoundSplit(estimate, split)
    ensures Increasing(edges) ==>
      CountsAll(exposure, ByTime(samples), start, end, gap, edges, |ByTime(samples)|)
    ensures AllPriced(split, exposure, m) && Extrapolates(estimate, exposure, m)
    ensures (m.low, m.high) == PassportBounds(minimum, maximum)
    ensures m.usable > 0 <==> exists x :: x in intervals && Usable(x, |edges| - 1)
    ensures m.usable > 0 ==> FittedToUsable(m, intervals, maxBins, sampling)
  {
    var model := FitIntervals(intervals, |edges| - 1, maxBins, minimum, maximum, gasStove, sampling);
    m := model;
    hide *;
    FitterPromises(model);
    FittedSplit(samples, start, end, gap, edges, model, ageDays, uncertainty);
    var integrated := IntegrateExposure(samples, start, end, gap, edges);
    exposure := integrated;
    IntegratedConserves(samples, start, end, gap, edges);
    estimate := EstimateExposure(integrated, model, ageDays, uncertainty);
    EstimateExtrapolates(integrated, model, ageDays, uncertainty);
    SplitPriced(integrated, model, estimate);
    split := SplitPurpose(integrated, model, estimate);
  }

  lemma FitterPromises(m: GasModel)
    requires m.mean.Some? ==> BoundedRates(m, m.bins)
    requires m.mean.None? ==> |m.rates| == m.bins && m.lowers == m.uppers == []
    ensures FitterModel(m)
  {
  }
}
