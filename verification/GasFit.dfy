/** The gas model fitter: grouping, the leave-one-out selection of the group count, and the
    final fit. Its assertion that the final fit exists never fires, and every reported rate
    lies between its reported bounds, inside the passport box. */
module GasFit {
  import opened Options
  import opened RealArithmetic
  import opened LinearAlgebra
  import opened ColumnSets
  import opened MatrixRank
  import opened RidgeFit
  import opened Sorting

  datatype Interval = Interval(
    start: int, end: int, volume: real, features: Vec, flame: real, observed: real,
    coverage: real, unknownModulation: real, boundaryUncertainty: real)

  datatype Candidate = Candidate(rates: Vec, mean: real)

  datatype GasModel = GasModel(
    bins: nat, rates: Vec, mean: Option<real>, lowers: Vec, uppers: Vec, groups: seq<seq<nat>>,
    low: Limit, high: Limit, usable: nat, boundaryRelative: real, gasStove: Option<bool>,
    diversity: nat, identifiable: bool)

  const MIN_CALIBRATION_COVERAGE := 0.8

  // ----- Groups -----

  /** The group of a bin: bins are spread evenly over the groups, in order. */
  function GroupOf(bin: nat, parameters: nat, bins: nat): nat
    requires bins > 0
  {
    bin * parameters / bins
  }

  /** The bins below k that fall into the group. */
  function GroupTo(bins: nat, parameters: nat, group: nat, k: nat): (g: seq<nat>)
    requires k <= bins && bins > 0
    ensures forall i :: 0 <= i < |g| ==> g[i] < k && GroupOf(g[i], parameters, bins) == group
  {
    if k == 0 then []
    else if GroupOf(k - 1, parameters, bins) == group then GroupTo(bins, parameters, group, k - 1) + [k - 1]
    else GroupTo(bins, parameters, group, k - 1)
  }

  /** gas._groups. */
  function Groups(bins: nat, parameters: nat): (g: seq<seq<nat>>)
    requires bins > 0
    ensures |g| == parameters
    ensures forall i :: 0 <= i < parameters ==> g[i] == GroupTo(bins, parameters, i, bins)
  {
    seq(parameters, i requires 0 <= i < parameters => GroupTo(bins, parameters, i, bins))
  }

  function SizesTo(groups: seq<seq<nat>>, k: nat): nat
    requires k <= |groups|
  {
    if k == 0 then 0 else SizesTo(groups, k - 1) + |groups[k - 1]|
  }

  /** How many of the bins below k fall into the first m groups. */
  ghost function CoveredTo(bins: nat, parameters: nat, m: nat, k: nat): nat
    requires k <= bins && bins > 0
  {
    if m == 0 then 0 else CoveredTo(bins, parameters, m - 1, k) + |GroupTo(bins, parameters, m - 1, k)|
  }

  lemma {:induction false} CoveredStep(bins: nat, parameters: nat, m: nat, k: nat)
    requires 0 < k <= bins
    ensures CoveredTo(bins, parameters, m, k)
      == CoveredTo(bins, parameters, m, k - 1) + (if GroupOf(k - 1, parameters, bins) < m then 1 else 0)
  {
    hide GroupOf;
    if m > 0 {
      CoveredStep(bins, parameters, m - 1, k);
    }
  }

  lemma {:induction false} CoveredAll(bins: nat, parameters: nat, k: nat)
    requires k <= bins && bins > 0 && parameters > 0
    ensures CoveredTo(bins, parameters, parameters, k) == k
    decreases k
  {
    if k == 0 {
      CoveredNone(bins, parameters, parameters);
    } else {
      CoveredAll(bins, parameters, k - 1);
      CoveredStep(bins, parameters, parameters, k);
      GroupInRange(k - 1, parameters, bins);
    }
  }

  lemma {:induction false} CoveredNone(bins: nat, parameters: nat, m: nat)
    requires bins > 0
    ensures CoveredTo(bins, parameters, m, 0) == 0
  {
    if m > 0 {
      CoveredNone(bins, parameters, m - 1);
    }
  }

  lemma NatProductMonotone(a: nat, b: nat, c: nat)
    requires a <= b
    ensures a * c <= b * c
  {
  }

  lemma QuotientBelow(a: nat, b: nat, c: nat)
    requires b > 0 && a < c * b
    ensures a / b < c
  {
    if a / b >= c {
      NatProductMonotone(c, a / b, b);
    }
  }

  lemma GroupInRange(i: nat, parameters: nat, bins: nat)
    requires i < bins && parameters > 0
    ensures GroupOf(i, parameters, bins) < parameters
  {
    assert i * parameters < parameters * bins;
    QuotientBelow(i * parameters, bins, parameters);
  }

  lemma {:induction false} SizesAreCovered(bins: nat, parameters: nat, m: nat)
    requires bins > 0 && m <= parameters
    ensures SizesTo(Groups(bins, parameters), m) == CoveredTo(bins, parameters, m, bins)
  {
    if m > 0 {
      SizesAreCovered(bins, parameters, m - 1);
    }
  }

  /** The groups hold each bin once in all: they share no bin and their sizes add up. */
  ghost predicate WellGrouped(groups: seq<seq<nat>>, bins: nat) {
    |groups| >= 1 && SizesTo(groups, |groups|) == bins
    && (forall g, i :: 0 <= g < |groups| && 0 <= i < |groups[g]| ==> groups[g][i] < bins)
    && forall g, i, h, j :: 0 <= g < h < |groups| && 0 <= i < |groups[g]| && 0 <= j < |groups[h]| ==>
         groups[g][i] != groups[h][j]
  }

  lemma GroupsWellGrouped(bins: nat, parameters: nat)
    requires bins > 0 && parameters > 0
    ensures WellGrouped(Groups(bins, parameters), bins)
  {
    SizesAreCovered(bins, parameters, parameters);
    CoveredAll(bins, parameters, bins);
    var g := Groups(bins, parameters);
    assert forall k, i :: 0 <= k < |g| && 0 <= i < |g[k]| ==> GroupOf(g[k][i], parameters, bins) == k;
  }

  // ----- One candidate -----

  ghost predicate Shaped(rows: seq<Interval>, bins: nat) {
    forall r :: 0 <= r < |rows| ==> |rows[r].features| == bins
  }

  function GroupSumTo(features: Vec, group: seq<nat>, k: nat): real
    requires k <= |group| && forall i :: 0 <= i < |group| ==> group[i] < |features|
  {
    if k == 0 then 0.0 else GroupSumTo(features, group, k - 1) + features[group[k - 1]]
  }

  function GroupRow(row: Interval, groups: seq<seq<nat>>): (r: Vec)
    requires WellGrouped(groups, |row.features|)
    ensures |r| == |groups|
  {
    seq(|groups|, g requires 0 <= g < |groups| => GroupSumTo(row.features, groups[g], |groups[g]|))
  }

  function GroupMatrix(rows: seq<Interval>, groups: seq<seq<nat>>, bins: nat): (m: Matrix)
    requires Shaped(rows, bins) && WellGrouped(groups, bins)
    ensures |m| == |rows| && Rectangular(m, |groups|)
    ensures forall r :: 0 <= r < |rows| ==> m[r] == GroupRow(rows[r], groups)
  {
    seq(|rows|, r requires 0 <= r < |rows| => GroupRow(rows[r], groups))
  }

  function FlameTo(rows: seq<Interval>, k: nat): real
    requires k <= |rows|
  {
    if k == 0 then 0.0 else FlameTo(rows, k - 1) + rows[k - 1].flame
  }

  function VolumeTo(rows: seq<Interval>, k: nat): real
    requires k <= |rows|
  {
    if k == 0 then 0.0 else VolumeTo(rows, k - 1) + rows[k - 1].volume
  }

  function UnknownMinutes(row: Interval): real {
    Max(Max(row.unknownModulation, row.flame - Sum(row.features)), 0.0)
  }

  function UnknownGas(row: Interval, mean: real): real {
    UnknownMinutes(row) * mean
  }

  /** When a candidate form can be fitted: some flame, and for more than one group,
      independent group totals. */
  ghost predicate Fittable(rows: seq<Interval>, groups: seq<seq<nat>>, bins: nat)
    requires Shaped(rows, bins) && WellGrouped(groups, bins)
  {
    FlameTo(rows, |rows|) > 0.0
    && (|groups| == 1 || (rows != [] && IndependentColumns(GroupMatrix(rows, groups, bins), |groups|)))
  }

  /** The overall rate per flame minute, clamped to the passport. */
  function MeanRate(rows: seq<Interval>, low: Limit, high: Limit): (mean: real)
    requires FlameTo(rows, |rows|) > 0.0 && ValidBox(low, high)
    ensures InBox(mean, low, high)
  {
    Clamp(VolumeTo(rows, |rows|) / FlameTo(rows, |rows|), low, high)
  }

  /** Metered volume left after the unknown-modulation minutes at the mean rate. */
  function Targets(rows: seq<Interval>, mean: real): (t: Vec)
    ensures |t| == |rows|
    ensures forall r :: 0 <= r < |t| ==> t[r] == Max(0.0, rows[r].volume - UnknownGas(rows[r], mean))
  {
    seq(|rows|, r requires 0 <= r < |rows| => Max(0.0, rows[r].volume - UnknownGas(rows[r], mean)))
  }

  function Repeated(rate: real, n: nat): (v: Vec)
    ensures |v| == n && forall i :: 0 <= i < n ==> v[i] == rate
  {
    seq(n, _ => rate)
  }

  /** Every bin carries its group's rate. */
  ghost predicate Carries(groups: seq<seq<nat>>, bins: nat, rates: Vec, groupRates: Vec)
    requires WellGrouped(groups, bins) && |rates| == bins && |groupRates| == |groups|
  {
    forall g, i :: 0 <= g < |groups| && 0 <= i < |groups[g]| ==> rates[groups[g][i]] == groupRates[g]
  }

  /** The regression of the group totals, pulled toward one mean rate for all. */
  function GroupProblem(rows: seq<Interval>, groups: seq<seq<nat>>, bins: nat, mean: real, low: Limit, high: Limit)
    : (p: Problem)
    requires Shaped(rows, bins) && WellGrouped(groups, bins)
    ensures |p.prior| == |groups|
  {
    ProblemOf(GroupMatrix(rows, groups, bins), Targets(rows, mean), Repeated(mean, |groups|), low, high)
  }

  /** The group rates fit the group totals strictly better than one mean rate for all, or that
      mean rate is the minimum over the box; the last of them is the best given the others. */
  ghost predicate GroupFit(rows: seq<Interval>, groups: seq<seq<nat>>, bins: nat, low: Limit, high: Limit,
                           fit: Candidate, groupRates: Vec)
    requires Shaped(rows, bins) && WellGrouped(groups, bins) && ValidBox(low, high) && |fit.rates| == bins
  {
    var p := GroupProblem(rows, groups, bins, fit.mean, low, high);
    groupRates == RidgeRates(p.rows, p.y, p.prior, low, high)
    && Carries(groups, bins, fit.rates, groupRates) && Posed(p)
    && (Value(p, groupRates) < Value(p, p.prior) || (groupRates == p.prior && Minimal(p, p.prior)))
    && forall u :: InBox(u, low, high) ==> Value(p, groupRates) <= Value(p, groupRates[|groups| - 1 := u])
  }

  /** A fit of the form on the rows: the clamped mean rate, and either that rate in every bin or
      group rates that fit no worse. */
  ghost predicate IsFit(rows: seq<Interval>, groups: seq<seq<nat>>, bins: nat, low: Limit, high: Limit, fit: Candidate)
    requires Shaped(rows, bins) && WellGrouped(groups, bins) && ValidBox(low, high)
  {
    FlameTo(rows, |rows|) > 0.0 && fit.mean == MeanRate(rows, low, high)
    && |fit.rates| == bins && AllInBox(fit.rates, low, high)
    && if |groups| == 1 then fit.rates == Repeated(fit.mean, bins)
       else exists groupRates :: GroupFit(rows, groups, bins, low, high, fit, groupRates)
  }

  /** The loops that write each group's rate into its bins. */
  method Expand(groups: seq<seq<nat>>, groupRates: Vec, mean: real, ghost bins: nat, ghost low: Limit,
                ghost high: Limit)
    returns (expanded: Vec)
    requires WellGrouped(groups, bins) && |groupRates| == |groups|
    requires InBox(mean, low, high) && AllInBox(groupRates, low, high)
    ensures |expanded| == bins && AllInBox(expanded, low, high)
    ensures Carries(groups, bins, expanded, groupRates)
  {
    expanded := Repeated(mean, SizesTo(groups, |groups|));
    for g := 0 to |groups|
      invariant |expanded| == bins && AllInBox(expanded, low, high)
      invariant forall h, i :: 0 <= h < g && 0 <= i < |groups[h]| ==> expanded[groups[h][i]] == groupRates[h]
    {
      for k := 0 to |groups[g]|
        invariant |expanded| == bins && AllInBox(expanded, low, high)
        invariant forall h, i :: 0 <= h < g && 0 <= i < |groups[h]| ==> expanded[groups[h][i]] == groupRates[h]
        invariant forall i :: 0 <= i < k ==> expanded[groups[g][i]] == groupRates[g]
      {
        expanded := expanded[groups[g][k] := groupRates[g]];
      }
    }
  }

  /** gas._fit_candidate: no fit exactly when the form cannot be fitted. */
  method FitCandidate(rows: seq<Interval>, groups: seq<seq<nat>>, ghost bins: nat, low: Limit, high: Limit)
    returns (fit: Option<Candidate>)
    requires Shaped(rows, bins) && WellGrouped(groups, bins) && ValidBox(low, high)
    ensures fit.Some? <==> Fittable(rows, groups, bins)
    ensures fit.Some? ==> IsFit(rows, groups, bins, low, high, fit.value)
  {
    hide *;
    var totalFlame := FlameTo(rows, |rows|);
    if totalFlame <= 0.0 {
      NoFlame(rows, groups, bins);
      return None;
    }
    var mean := Clamp(VolumeTo(rows, |rows|) / totalFlame, low, high);
    var size := SizesTo(groups, |groups|);
    MeanFits(rows, groups, bins, low, high);
    if |groups| == 1 {
      return Some(Candidate(Repeated(mean, size), mean));
    }
    var matrix := GroupMatrix(rows, groups, size);
    var rank := Rank(matrix, |groups|);
    RankDecides(rows, groups, bins, rank);
    if rank < |groups| {
      return None;
    }
    var prior := Repeated(mean, |groups|);
    var rates := BoundedRidge(matrix, Targets(rows, mean), prior, low, high);
    var expanded := Expand(groups, rates, mean, bins, low, high);
    fit := Some(Candidate(expanded, mean));
    ProblemIs(rows, groups, bins, mean, low, high);
    RidgeFits(rows, groups, bins, low, high, fit.value, rates);
  }

  lemma ProblemIs(rows: seq<Interval>, groups: seq<seq<nat>>, bins: nat, mean: real, low: Limit, high: Limit)
    requires Shaped(rows, bins) && WellGrouped(groups, bins)
    ensures var matrix, p := GroupMatrix(rows, groups, bins), GroupProblem(rows, groups, bins, mean, low, high);
      p == ProblemOf(matrix, Targets(rows, mean), Repeated(mean, |groups|), low, high) && p.rows == matrix
      && p.y == Targets(rows, mean) && p.prior == Repeated(mean, |groups|)
  {
    hide Ridge, WellGrouped, Shaped;
  }

  lemma NoFlame(rows: seq<Interval>, groups: seq<seq<nat>>, bins: nat)
    requires Shaped(rows, bins) && WellGrouped(groups, bins) && FlameTo(rows, |rows|) <= 0.0
    ensures !Fittable(rows, groups, bins)
  {
  }

  lemma MeanFits(rows: seq<Interval>, groups: seq<seq<nat>>, bins: nat, low: Limit, high: Limit)
    requires Shaped(rows, bins) && WellGrouped(groups, bins) && ValidBox(low, high) && FlameTo(rows, |rows|) > 0.0
    ensures SizesTo(groups, |groups|) == bins && |groups| >= 1
    ensures MeanRate(rows, low, high) == Clamp(VolumeTo(rows, |rows|) / FlameTo(rows, |rows|), low, high)
    ensures |groups| == 1 ==>
      var mean := MeanRate(rows, low, high);
      Fittable(rows, groups, bins) && IsFit(rows, groups, bins, low, high, Candidate(Repeated(mean, bins), mean))
  {
    hide GroupFit, InBox;
  }

  lemma RankDecides(rows: seq<Interval>, groups: seq<seq<nat>>, bins: nat, rank: nat)
    requires Shaped(rows, bins) && WellGrouped(groups, bins) && FlameTo(rows, |rows|) > 0.0 && |groups| > 1
    requires rank <= |groups|
      && (rank == |groups| <==> IndependentColumns(GroupMatrix(rows, groups, bins), |groups|))
    ensures rank == |groups| <==> Fittable(rows, groups, bins)
  {
    hide WellGrouped, IndependentColumns;
  }

  lemma RidgeFits(rows: seq<Interval>, groups: seq<seq<nat>>, bins: nat, low: Limit, high: Limit, fit: Candidate,
                  groupRates: Vec)
    requires Shaped(rows, bins) && WellGrouped(groups, bins) && ValidBox(low, high) && |groups| > 1
    requires FlameTo(rows, |rows|) > 0.0 && fit.mean == MeanRate(rows, low, high)
    requires |fit.rates| == bins && AllInBox(fit.rates, low, high) && |groupRates| == |groups|
    requires Carries(groups, bins, fit.rates, groupRates)
    requires var p := GroupProblem(rows, groups, bins, fit.mean, low, high);
      var start := ClampAll(p.prior, low, high);
      groupRates == RidgeRates(p.rows, p.y, p.prior, low, high) && Posed(p)
      && (Value(p, groupRates) < Value(p, start) || (groupRates == start && Minimal(p, start)))
      && forall u :: p.prior != [] && InBox(u, low, high) ==>
           Value(p, groupRates) <= Value(p, groupRates[|groups| - 1 := u])
    ensures IsFit(rows, groups, bins, low, high, fit)
  {
    hide WellGrouped, Carries, Value, Minimal, InBox, AllInBox, Posed, ValidBox, MeanRate, RidgeRates, Shaped;
    hide FlameTo, ClampAll, GroupProblem, Repeated;
    ProblemIs(rows, groups, bins, fit.mean, low, high);
    PriorInBox(fit.mean, |groups|, low, high);
    assert GroupFit(rows, groups, bins, low, high, fit, groupRates);
  }

  lemma PriorInBox(mean: real, n: nat, low: Limit, high: Limit)
    requires ValidBox(low, high) && InBox(mean, low, high)
    ensures ClampAll(Repeated(mean, n), low, high) == Repeated(mean, n)
  {
  }

  function Predict(row: Interval, rates: Vec, mean: real): real
    requires |row.features| == |rates|
  {
    Dot(row.features, rates) + UnknownGas(row, mean)
  }

  // -- What the regression fits is what the model predicts --

  /** The gas of the bins below k in the first m groups, each bin at its group's rate. */
  ghost function GroupGas(features: Vec, groupRates: Vec, bins: nat, m: nat, k: nat): real
    requires k <= bins == |features| && bins > 0 && m <= |groupRates|
  {
    if m == 0 then 0.0
    else
      var group := GroupTo(bins, |groupRates|, m - 1, k);
      GroupGas(features, groupRates, bins, m - 1, k) + Times(GroupSumTo(features, group, |group|), groupRates[m - 1])
  }

  lemma {:induction false} GroupSumGrows(features: Vec, group: seq<nat>, bin: nat, k: nat)
    requires bin < |features| && k <= |group| && forall i :: 0 <= i < |group| ==> group[i] < |features|
    ensures GroupSumTo(features, group + [bin], k) == GroupSumTo(features, group, k)
  {
    if k > 0 {
      GroupSumGrows(features, group, bin, k - 1);
    }
  }

  /** One more bin adds its minutes at the rate of its group. */
  lemma {:induction false} OneMoreBin(features: Vec, groupRates: Vec, bins: nat, m: nat, k: nat)
    requires 0 < k <= bins == |features| && m <= |groupRates|
    ensures var g := GroupOf(k - 1, |groupRates|, bins);
      GroupGas(features, groupRates, bins, m, k) == GroupGas(features, groupRates, bins, m, k - 1)
        + (if g < m then Times(features[k - 1], groupRates[g]) else 0.0)
  {
    hide *;
    if m == 0 {
      GasOfNone(features, groupRates, bins, k);
    } else {
      OneMoreBin(features, groupRates, bins, m - 1, k);
      GasOfGroup(features, groupRates, bins, m, k);
      GasOfGroup(features, groupRates, bins, m, k - 1);
      OneMoreMember(features, groupRates[m - 1], bins, |groupRates|, m - 1, k);
    }
  }

  lemma GasOfNone(features: Vec, groupRates: Vec, bins: nat, k: nat)
    requires 0 < k <= bins == |features|
    ensures GroupGas(features, groupRates, bins, 0, k) == GroupGas(features, groupRates, bins, 0, k - 1) == 0.0
  {
  }

  function GroupMinutes(features: Vec, bins: nat, parameters: nat, group: nat, k: nat): real
    requires k <= bins == |features| && bins > 0
  {
    var members := GroupTo(bins, parameters, group, k);
    GroupSumTo(features, members, |members|)
  }

  lemma GasOfGroup(features: Vec, groupRates: Vec, bins: nat, m: nat, k: nat)
    requires k <= bins == |features| && bins > 0 && 0 < m <= |groupRates|
    ensures GroupGas(features, groupRates, bins, m, k)
      == GroupGas(features, groupRates, bins, m - 1, k)
         + Times(GroupMinutes(features, bins, |groupRates|, m - 1, k), groupRates[m - 1])
  {
    hide Times, GroupTo, GroupSumTo;
  }

  lemma OneMoreMember(features: Vec, rate: real, bins: nat, parameters: nat, group: nat, k: nat)
    requires 0 < k <= bins == |features|
    ensures Times(GroupMinutes(features, bins, parameters, group, k), rate)
      == Times(GroupMinutes(features, bins, parameters, group, k - 1), rate)
         + (if GroupOf(k - 1, parameters, bins) == group then Times(features[k - 1], rate) else 0.0)
  {
    hide GroupOf;
    var members := GroupTo(bins, parameters, group, k - 1);
    GroupSumGrows(features, members, k - 1, |members|);
    var sum, more := GroupMinutes(features, bins, parameters, group, k - 1), features[k - 1];
    hide Times, GroupSumTo, GroupMinutes;
    SumTimes(sum, more, rate);
    assert GroupOf(k - 1, parameters, bins) == group ==>
      GroupTo(bins, parameters, group, k) == members + [k - 1];
  }

  lemma SumTimes(a: real, b: real, c: real)
    ensures Times(a + b, c) == Times(a, c) + Times(b, c)
  {
  }

  lemma {:induction false} NoBins(features: Vec, groupRates: Vec, bins: nat, m: nat)
    requires bins == |features| && bins > 0 && m <= |groupRates|
    ensures GroupGas(features, groupRates, bins, m, 0) == 0.0
  {
    if m > 0 {
      NoBins(features, groupRates, bins, m - 1);
    }
  }

  lemma {:induction false} GasOfBins(features: Vec, rates: Vec, groupRates: Vec, bins: nat, k: nat)
    requires k <= bins == |features| == |rates| && bins > 0 && groupRates != []
    requires forall i :: 0 <= i < bins ==>
      GroupOf(i, |groupRates|, bins) < |groupRates| && rates[i] == groupRates[GroupOf(i, |groupRates|, bins)]
    ensures DotTo(features, rates, k) == GroupGas(features, groupRates, bins, |groupRates|, k)
  {
    hide GroupOf, Times;
    if k == 0 {
      NoBins(features, groupRates, bins, |groupRates|);
    } else {
      GasOfBins(features, rates, groupRates, bins, k - 1);
      OneMoreBin(features, groupRates, bins, |groupRates|, k);
    }
  }

  lemma {:induction false} GasOfGroups(row: Interval, groupRates: Vec, m: nat)
    requires row.features != [] && groupRates != [] && m <= |groupRates|
    requires WellGrouped(Groups(|row.features|, |groupRates|), |row.features|)
    ensures DotTo(GroupRow(row, Groups(|row.features|, |groupRates|)), groupRates, m)
      == GroupGas(row.features, groupRates, |row.features|, m, |row.features|)
  {
    hide GroupOf, Times, WellGrouped;
    if m > 0 {
      GasOfGroups(row, groupRates, m - 1);
    }
  }

  lemma {:induction false} InItsGroup(bins: nat, parameters: nat, i: nat, k: nat)
    requires i < k <= bins
    ensures i in GroupTo(bins, parameters, GroupOf(i, parameters, bins), k)
  {
    hide GroupOf;
    if i < k - 1 {
      InItsGroup(bins, parameters, i, k - 1);
    }
  }

  lemma BinCarries(bins: nat, rates: Vec, groupRates: Vec, i: nat)
    requires i < bins == |rates| && groupRates != []
    requires WellGrouped(Groups(bins, |groupRates|), bins)
    requires Carries(Groups(bins, |groupRates|), bins, rates, groupRates)
    ensures GroupOf(i, |groupRates|, bins) < |groupRates| && rates[i] == groupRates[GroupOf(i, |groupRates|, bins)]
  {
    GroupInRange(i, |groupRates|, bins);
    hide GroupOf, WellGrouped;
    InItsGroup(bins, |groupRates|, i, bins);
  }

  /** The row of group totals times the group rates is the model's gas at known modulation, so
      where the target is not cut off at zero the regression's residual is the model's error. */
  lemma ResidualIsError(rows: seq<Interval>, bins: nat, fit: Candidate, groupRates: Vec, r: nat)
    requires bins > 0 && Shaped(rows, bins) && r < |rows| && groupRates != [] && |fit.rates| == bins
    requires WellGrouped(Groups(bins, |groupRates|), bins)
    requires Carries(Groups(bins, |groupRates|), bins, fit.rates, groupRates)
    ensures var row, total := rows[r], Dot(GroupMatrix(rows, Groups(bins, |groupRates|), bins)[r], groupRates);
      Predict(row, fit.rates, fit.mean) == total + UnknownGas(row, fit.mean)
      && (row.volume >= UnknownGas(row, fit.mean) ==>
            Targets(rows, fit.mean)[r] - total == row.volume - Predict(row, fit.rates, fit.mean))
  {
    hide *;
    RowFits(rows, bins, r);
    GroupedDot(rows[r], fit.rates, groupRates);
    PredictIs(rows[r], fit.rates, fit.mean);
    TargetIs(rows, fit.mean, r);
  }

  lemma RowFits(rows: seq<Interval>, bins: nat, r: nat)
    requires Shaped(rows, bins) && r < |rows|
    ensures |rows[r].features| == bins
  {
  }

  lemma PredictIs(row: Interval, rates: Vec, mean: real)
    requires |row.features| == |rates|
    ensures Predict(row, rates, mean) == Dot(row.features, rates) + UnknownGas(row, mean)
  {
    hide UnknownGas, Dot;
  }

  lemma TargetIs(rows: seq<Interval>, mean: real, r: nat)
    requires r < |rows|
    ensures rows[r].volume >= UnknownGas(rows[r], mean) ==>
      Targets(rows, mean)[r] == rows[r].volume - UnknownGas(rows[r], mean)
  {
    hide UnknownGas;
  }

  lemma GroupedDot(row: Interval, rates: Vec, groupRates: Vec)
    requires row.features != [] && groupRates != [] && |rates| == |row.features|
    requires WellGrouped(Groups(|rates|, |groupRates|), |rates|)
    requires Carries(Groups(|rates|, |groupRates|), |rates|, rates, groupRates)
    ensures Dot(row.features, rates) == Dot(GroupRow(row, Groups(|rates|, |groupRates|)), groupRates)
  {
    hide GroupOf, WellGrouped, Carries, Times, DotTo, Groups, GroupRow;
    var bins := |rates|;
    forall i | 0 <= i < bins
      ensures GroupOf(i, |groupRates|, bins) < |groupRates|
        && rates[i] == groupRates[GroupOf(i, |groupRates|, bins)]
    {
      BinCarries(bins, rates, groupRates, i);
    }
    GasOfBins(row.features, rates, groupRates, bins, bins);
    GasOfGroups(row, groupRates, |groupRates|);
  }

  function Without(rows: seq<Interval>, i: nat): (r: seq<Interval>)
    requires i < |rows|
    ensures forall x :: x in r ==> x in rows
  {
    rows[..i] + rows[i + 1..]
  }

  /** The absolute errors of predicting each row by the fit of the others. */
  function HeldOutTo(rows: seq<Interval>, fits: seq<Candidate>, k: nat): (total: real)
    requires k <= |rows| && k <= |fits| && forall i :: 0 <= i < k ==> |rows[i].features| == |fits[i].rates|
    ensures total >= 0.0
  {
    if k == 0 then 0.0
    else
      var row, fit := rows[k - 1], fits[k - 1];
      HeldOutTo(rows, fits, k - 1) + Abs(row.volume - Predict(row, fit.rates, fit.mean))
  }

  /** Fits of the form on all rows but one, for the first k rows in turn, and their errors. */
  ghost predicate Folded(rows: seq<Interval>, groups: seq<seq<nat>>, bins: nat, low: Limit, high: Limit,
                         fits: seq<Candidate>,
                         k: nat, total: real)
    requires Shaped(rows, bins) && WellGrouped(groups, bins) && ValidBox(low, high) && k <= |rows|
  {
    |fits| == k && (forall i :: 0 <= i < k ==> IsFit(Without(rows, i), groups, bins, low, high, fits[i]))
    && total == HeldOutTo(rows, fits, k)
  }

  /** The form's leave-one-out error: there is one exactly when there are enough rows and every
      fold can be fitted, and it is the mean error of predicting each row by the fit of the others. */
  ghost predicate HeldOutError(rows: seq<Interval>, groups: seq<seq<nat>>, bins: nat, low: Limit, high: Limit,
                               error: Option<real>)
    requires Shaped(rows, bins) && WellGrouped(groups, bins) && ValidBox(low, high)
  {
    (error.Some? <==>
     |rows| >= |groups| + 2 && forall i :: 0 <= i < |rows| ==> Fittable(Without(rows, i), groups, bins))
    && (error.Some? ==> exists fits, total ::
          Folded(rows, groups, bins, low, high, fits, |rows|, total) && error.value == total / |rows| as real)
  }

  lemma NothingFolded(rows: seq<Interval>, groups: seq<seq<nat>>, bins: nat, low: Limit, high: Limit)
    requires Shaped(rows, bins) && WellGrouped(groups, bins) && ValidBox(low, high)
    ensures Folded(rows, groups, bins, low, high, [], 0, 0.0)
  {
  }

  lemma OneMoreFold(rows: seq<Interval>, groups: seq<seq<nat>>, bins: nat, low: Limit, high: Limit,
                    fits: seq<Candidate>,
                    k: nat, total: real, fit: Candidate)
    requires Shaped(rows, bins) && WellGrouped(groups, bins) && ValidBox(low, high) && k < |rows|
    requires Folded(rows, groups, bins, low, high, fits, k, total)
      && IsFit(Without(rows, k), groups, bins, low, high, fit)
    ensures |rows[k].features| == |fit.rates|
    ensures total + Abs(rows[k].volume - Predict(rows[k], fit.rates, fit.mean)) >= 0.0
    ensures Folded(rows, groups, bins, low, high, fits + [fit], k + 1,
                   total + Abs(rows[k].volume - Predict(rows[k], fit.rates, fit.mean)))
  {
    hide GroupFit, MeanRate, FlameTo, Without, Predict;
    HeldOutAgrees(rows, fits, fits + [fit], k);
  }

  /** gas._loo_error. */
  method LeaveOneOutError(rows: seq<Interval>, groups: seq<seq<nat>>, ghost bins: nat, low: Limit, high: Limit)
    returns (error: Option<real>)
    requires Shaped(rows, bins) && WellGrouped(groups, bins) && ValidBox(low, high)
    ensures HeldOutError(rows, groups, bins, low, high, error)
    ensures error.Some? ==> error.value >= 0.0
  {
    hide *;
    if |rows| < (if |groups| + 2 > 2 then |groups| + 2 else 2) {
      NoError(rows, groups, bins, low, high);
      return None;
    }
    var total := 0.0;
    ghost var fits: seq<Candidate> := [];
    NothingFolded(rows, groups, bins, low, high);
    for heldout := 0 to |rows|
      invariant Folded(rows, groups, bins, low, high, fits, heldout, total) && total >= 0.0
      invariant forall i :: 0 <= i < heldout ==>
        Shaped(Without(rows, i), bins) && Fittable(Without(rows, i), groups, bins)
    {
      FoldShaped(rows, bins, heldout);
      var fitted := FitCandidate(Without(rows, heldout), groups, bins, low, high);
      if fitted == None {
        NoError(rows, groups, bins, low, high);
        return None;
      }
      OneMoreFold(rows, groups, bins, low, high, fits, heldout, total, fitted.value);
      fits := fits + [fitted.value];
      total := total + Abs(rows[heldout].volume - Predict(rows[heldout], fitted.value.rates, fitted.value.mean));
    }
    QuotientNonNegative(total, |rows| as real);
    ErrorFound(rows, groups, bins, low, high, fits, total);
    return Some(total / |rows| as real);
  }

  lemma FoldShaped(rows: seq<Interval>, bins: nat, i: nat)
    requires Shaped(rows, bins) && i < |rows|
    ensures Shaped(Without(rows, i), bins)
  {
  }

  lemma NoError(rows: seq<Interval>, groups: seq<seq<nat>>, bins: nat, low: Limit, high: Limit)
    requires Shaped(rows, bins) && WellGrouped(groups, bins) && ValidBox(low, high)
    requires |rows| < |groups| + 2
      || exists i :: 0 <= i < |rows| && Shaped(Without(rows, i), bins) && !Fittable(Without(rows, i), groups, bins)
    ensures HeldOutError(rows, groups, bins, low, high, None)
  {
    hide Fittable, WellGrouped, Folded;
  }

  lemma ErrorFound(rows: seq<Interval>, groups: seq<seq<nat>>, bins: nat, low: Limit, high: Limit,
                   fits: seq<Candidate>, total: real)
    requires Shaped(rows, bins) && WellGrouped(groups, bins) && ValidBox(low, high) && |rows| >= |groups| + 2
      && rows != []
    requires forall i :: 0 <= i < |rows| ==> Shaped(Without(rows, i), bins) && Fittable(Without(rows, i), groups, bins)
    requires Folded(rows, groups, bins, low, high, fits, |rows|, total)
    ensures HeldOutError(rows, groups, bins, low, high, Some(total / |rows| as real))
  {
    hide Fittable, WellGrouped, Folded;
  }

  lemma {:induction false} HeldOutAgrees(rows: seq<Interval>, fits: seq<Candidate>, more: seq<Candidate>, k: nat)
    requires k <= |rows| && k <= |fits| && k <= |more|
      && forall i :: 0 <= i < k ==> |rows[i].features| == |fits[i].rates|
    requires forall i :: 0 <= i < k ==> more[i] == fits[i]
    ensures HeldOutTo(rows, more, k) == HeldOutTo(rows, fits, k)
  {
    if k > 0 {
      HeldOutAgrees(rows, fits, more, k - 1);
    }
  }

  /** A form whose folds could all be fitted can be fitted on any rows that include them. */
  lemma AcceptedFormStaysFittable(fold: seq<Interval>, all: seq<Interval>, groups: seq<seq<nat>>, bins: nat)
    requires Shaped(fold, bins) && Shaped(all, bins) && WellGrouped(groups, bins)
    requires Fittable(fold, groups, bins) && forall x :: x in fold ==> x in all
    requires all != [] && forall r :: 0 <= r < |all| ==> all[r].flame > 0.0
    ensures Fittable(all, groups, bins)
  {
    FlamePositive(all, |all|);
    if |groups| > 1 {
      var few, many := GroupMatrix(fold, groups, bins), GroupMatrix(all, groups, bins);
      forall v | v in few ensures v in many {
        var i :| 0 <= i < |few| && few[i] == v;
        assert fold[i] in all;
        var j :| 0 <= j < |all| && all[j] == fold[i];
        assert many[j] == v;
      }
      IndependenceSurvivesMoreRows(few, many, |groups|);
    }
  }

  lemma {:induction false} FlamePositive(rows: seq<Interval>, k: nat)
    requires k <= |rows| && forall r :: 0 <= r < |rows| ==> rows[r].flame > 0.0
    ensures FlameTo(rows, k) >= 0.0 && (k > 0 ==> FlameTo(rows, k) > 0.0)
  {
    if k > 0 {
      FlamePositive(rows, k - 1);
    }
  }

  // ----- The whole fit -----

  /** gas._passport_bounds, per minute; an impossible pair is dropped. */
  function PassportBounds(minimum: Limit, maximum: Limit): (box: (Limit, Limit))
    ensures ValidBox(box.0, box.1)
  {
    var low := if minimum.None? then None else Some(minimum.value / 60.0);
    var high := if maximum.None? then None else Some(maximum.value / 60.0);
    if (low.Some? && low.value < 0.0) || (high.Some? && high.value <= 0.0)
       || (low.Some? && high.Some? && low.value > high.value)
    then (None, None)
    else (low, high)
  }

  predicate Usable(row: Interval, bins: nat) {
    row.volume >= 0.0 && row.end > row.start
    && |row.features| == bins && (forall i :: 0 <= i < |row.features| ==> row.features[i] >= 0.0)
    && row.coverage >= MIN_CALIBRATION_COVERAGE && row.observed > 0.0
    && row.flame > 0.0
  }

  function UsableRows(ordered: seq<Interval>, bins: nat): (rows: seq<Interval>)
    ensures forall x :: x in rows <==> x in ordered && Usable(x, bins)
  {
    if ordered == [] then []
    else
      var last := ordered[|ordered| - 1];
      assert ordered == ordered[..|ordered| - 1] + [last];
      UsableRows(ordered[..|ordered| - 1], bins) + if Usable(last, bins) then [last] else []
  }

  method KeepUsable(ordered: seq<Interval>, bins: nat) returns (usable: seq<Interval>)
    ensures usable == UsableRows(ordered, bins)
  {
    usable := [];
    for i := 0 to |ordered|
      invariant usable == UsableRows(ordered[..i], bins)
    {
      if Usable(ordered[i], bins) {
        usable := usable + [ordered[i]];
      }
      assert ordered[..i + 1][..i] == ordered[..i];
    }
    assert ordered[..|ordered|] == ordered;
  }

  /** The form is safe to fit on rows that include the development rows. */
  ghost predicate SafeForm(development: seq<Interval>, groups: seq<seq<nat>>, bins: nat)
    requires Shaped(development, bins)
  {
    WellGrouped(groups, bins)
    && (|groups| == 1
        || (|development| > 0 && Fittable(Without(development, 0), groups, bins)))
  }

  /** A hundredth of the mean metered volume. */
  function Margin(development: seq<Interval>): real {
    if development == [] then 0.0
    else 0.01 * Max(0.000000001, VolumeTo(development, |development|) / |development| as real)
  }

  /** The gain in held-out error that admits a larger form. */
  predicate Beats(larger: Option<real>, smaller: Option<real>, margin: real) {
    larger.Some? && (smaller.None? || larger.value + margin < smaller.value * 0.9)
  }

  /** No larger form beats form p, which beats the winner among the smaller forms. */
  ghost predicate Wins(errors: seq<Option<real>>, margin: real, p: nat) {
    p < |errors| && (forall k :: p < k < |errors| ==> !Beats(errors[k], errors[p], margin))
    && (p == 0 || exists q: nat :: q < p && Wins(errors[..p], margin, q) && Beats(errors[p], errors[q], margin))
  }

  lemma WinnerStays(errors: seq<Option<real>>, margin: real, p: nat, error: Option<real>)
    requires Wins(errors, margin, p)
    ensures p < |errors|
    ensures Wins(errors + [error], margin, if Beats(error, errors[p], margin) then |errors| else p)
  {
    var more := errors + [error];
    assert more[..|errors|] == errors && more[..p] == errors[..p];
    hide Beats;
  }

  /** Of two forms the larger cannot win as well. */
  lemma {:induction false} OneWinner(errors: seq<Option<real>>, margin: real, p: nat, q: nat)
    requires Wins(errors, margin, p) && Wins(errors, margin, q)
    ensures p == q
    decreases |errors|, p + q
  {
    hide Beats;
    if p < q {
      var r: nat :| r < q && Wins(errors[..q], margin, r) && Beats(errors[q], errors[r], margin);
      assert errors[..q][..p] == errors[..p];
      assert Wins(errors[..q], margin, p);
      OneWinner(errors[..q], margin, p, r);
    } else if q < p {
      var r: nat :| r < p && Wins(errors[..p], margin, r) && Beats(errors[p], errors[r], margin);
      assert errors[..p][..q] == errors[..q];
      assert Wins(errors[..p], margin, q);
      OneWinner(errors[..p], margin, r, q);
    }
  }

  /** Form p, with p + 1 groups, is the winner among the forms of 1 to `last` groups, by their
      leave-one-out errors on the development rows. */
  ghost predicate Chosen(development: seq<Interval>, bins: nat, last: nat, low: Limit, high: Limit,
                         errors: seq<Option<real>>,
                         p: nat)
    requires bins > 0 && Shaped(development, bins) && ValidBox(low, high)
  {
    |errors| == last && Wins(errors, Margin(development), p)
    && forall k: nat :: k < last ==> Tried(development, bins, low, high, k, errors[k])
  }

  /** Form k, with k + 1 groups, has this leave-one-out error. */
  ghost predicate Tried(development: seq<Interval>, bins: nat, low: Limit, high: Limit, k: nat, error: Option<real>)
    requires bins > 0 && Shaped(development, bins) && ValidBox(low, high)
  {
    WellGrouped(Groups(bins, k + 1), bins) && HeldOutError(development, Groups(bins, k + 1), bins, low, high, error)
  }

  function Largest(maxBins: int, bins: nat): (last: nat)
    ensures last >= 1
  {
    var limit: int := if maxBins < bins then maxBins else bins;
    if limit < 1 then 1 else limit
  }

  lemma ChosenIsSafe(development: seq<Interval>, bins: nat, last: nat, low: Limit, high: Limit,
                     errors: seq<Option<real>>, p: nat)
    requires bins > 0 && Shaped(development, bins) && ValidBox(low, high)
    requires Chosen(development, bins, last, low, high, errors, p)
    ensures SafeForm(development, Groups(bins, p + 1), bins)
  {
    hide Fittable, WellGrouped, Folded, Wins, Margin;
    WinnerHasError(errors, Margin(development), p);
  }

  lemma WinnerHasError(errors: seq<Option<real>>, margin: real, p: nat)
    requires Wins(errors, margin, p)
    ensures p < |errors| && (p > 0 ==> errors[p].Some?)
  {
  }

  lemma FormTried(development: seq<Interval>, bins: nat, low: Limit, high: Limit, k: nat, error: Option<real>)
    requires bins > 0 && Shaped(development, bins) && ValidBox(low, high) && WellGrouped(Groups(bins, k + 1), bins)
    requires HeldOutError(development, Groups(bins, k + 1), bins, low, high, error)
    ensures Tried(development, bins, low, high, k, error)
  {
    hide HeldOutError, WellGrouped, Groups;
  }

  lemma FirstForm(development: seq<Interval>, bins: nat, low: Limit, high: Limit, error: Option<real>)
    requires bins > 0 && Shaped(development, bins) && ValidBox(low, high) && WellGrouped(Groups(bins, 1), bins)
    requires HeldOutError(development, Groups(bins, 1), bins, low, high, error)
    ensures Chosen(development, bins, 1, low, high, [error], 0)
  {
    hide HeldOutError, WellGrouped, Groups;
  }

  lemma NextForm(development: seq<Interval>, bins: nat, last: nat, low: Limit, high: Limit, errors: seq<Option<real>>,
                 p: nat,
                 error: Option<real>)
    requires bins > 0 && Shaped(development, bins) && ValidBox(low, high) && WellGrouped(Groups(bins, last + 1), bins)
    requires Chosen(development, bins, last, low, high, errors, p)
    requires HeldOutError(development, Groups(bins, last + 1), bins, low, high, error)
    ensures p < |errors| == last
    ensures Chosen(development, bins, last + 1, low, high, errors + [error],
                   if Beats(error, errors[p], Margin(development)) then last else p)
  {
    hide HeldOutError, WellGrouped, Groups, Wins, Beats, Shaped, Margin;
    WinnerStays(errors, Margin(development), p, error);
    FormTried(development, bins, low, high, last, error);
    hide Tried;
  }

  /** The loop that admits a larger group count only for a clear gain in held-out error. */
  method SelectGroups(development: seq<Interval>, bins: nat, maxBins: int, low: Limit, high: Limit)
    returns (selected: seq<seq<nat>>, ghost errors: seq<Option<real>>, ghost p: nat)
    requires bins > 0 && Shaped(development, bins) && ValidBox(low, high)
    ensures Chosen(development, bins, Largest(maxBins, bins), low, high, errors, p)
    ensures selected == Groups(bins, p + 1) && SafeForm(development, selected, bins)
  {
    hide *;
    GroupsWellGrouped(bins, 1);
    selected := Groups(bins, 1);
    var selectedError := LeaveOneOutError(development, selected, bins, low, high);
    errors, p := [selectedError], 0;
    FirstForm(development, bins, low, high, selectedError);
    var last := Largest(maxBins, bins);
    var parameters := 2;
    while parameters <= last
      invariant 2 <= parameters <= last + 1 && Chosen(development, bins, parameters - 1, low, high, errors, p)
      invariant selected == Groups(bins, p + 1) && p < |errors| && selectedError == errors[p]
      decreases last + 1 - parameters
    {
      GroupsWellGrouped(bins, parameters);
      var candidate := Groups(bins, parameters);
      var error := LeaveOneOutError(development, candidate, bins, low, high);
      NextForm(development, bins, parameters - 1, low, high, errors, p, error);
      BeatsIs(development, error, selectedError);
      errors := errors + [error];
      if error.Some? {
        EnoughRows(development, candidate, bins, low, high, error);
        var meanTarget := VolumeTo(development, |development|) / |development| as real;
        var margin := 0.01 * Max(0.000000001, meanTarget);
        if selectedError.None? || error.value + margin < selectedError.value * 0.9 {
          selected, selectedError, p := candidate, error, parameters - 1;
        }
      }
      parameters := parameters + 1;
    }
    ChosenIsSafe(development, bins, last, low, high, errors, p);
  }

  lemma BeatsIs(development: seq<Interval>, larger: Option<real>, smaller: Option<real>)
    ensures Beats(larger, smaller, Margin(development)) ==> larger.Some?
    ensures development != [] ==>
      (Beats(larger, smaller, Margin(development)) <==>
       larger.Some? && (smaller.None?
         || larger.value + 0.01 * Max(0.000000001, VolumeTo(development, |development|) / |development| as real)
            < smaller.value * 0.9))
  {
    hide VolumeTo, Max;
  }

  lemma EnoughRows(rows: seq<Interval>, groups: seq<seq<nat>>, bins: nat, low: Limit, high: Limit, error: Option<real>)
    requires Shaped(rows, bins) && WellGrouped(groups, bins) && ValidBox(low, high)
    requires HeldOutError(rows, groups, bins, low, high, error) && error.Some?
    ensures rows != []
  {
  }

  /** The absolute errors of predicting the first k rows by one fit. */
  function ErrorTo(rows: seq<Interval>, fit: Candidate, k: nat): (total: real)
    requires k <= |rows| && forall i :: 0 <= i < k ==> |rows[i].features| == |fit.rates|
    ensures total >= 0.0
  {
    if k == 0 then 0.0
      else ErrorTo(rows, fit, k - 1) + Abs(rows[k - 1].volume - Predict(rows[k - 1], fit.rates, fit.mean))
  }

  /** The held-out relative error, when there is a fit and a positive measured volume. */
  method ValidationRelative(validation: seq<Interval>, fit: Option<Candidate>, ghost bins: nat)
    returns (relative: Option<real>)
    requires Shaped(validation, bins) && (fit.Some? ==> |fit.value.rates| == bins)
    ensures relative.Some? <==> validation != [] && fit.Some? && VolumeTo(validation, |validation|) > 0.0
    ensures relative.Some? ==>
      relative.value == ErrorTo(validation, fit.value, |validation|) / VolumeTo(validation, |validation|)
    ensures relative.Some? ==> relative.value >= 0.0
  {
    if validation == [] || fit == None {
      return None;
    }
    hide Predict;
    var total := 0.0;
    for i := 0 to |validation|
      invariant total == ErrorTo(validation, fit.value, i)
    {
      total := total + Abs(validation[i].volume - Predict(validation[i], fit.value.rates, fit.value.mean));
    }
    var measured := VolumeTo(validation, |validation|);
    if measured > 0.0 {
      QuotientNonNegative(total, measured);
      return Some(total / measured);
    }
    return None;
  }

  function SupportTo(rows: seq<Interval>, bin: nat, k: nat): (s: (real, nat))
    requires k <= |rows| && forall r :: 0 <= r < |rows| ==> bin < |rows[r].features|
  {
    if k == 0 then (0.0, 0)
    else
      var before, minutes := SupportTo(rows, bin, k - 1), rows[k - 1].features[bin];
      (before.0 + minutes, if minutes > 0.0 then before.1 + 1 else before.1)
  }

  /** The reported bounds of one rate. */
  function RateRange(rate: real, spread: real, low: Limit, high: Limit): (r: (real, real))
    requires InBox(rate, low, high) && spread >= 0.0
    ensures 0.0 <= r.0 <= rate <= r.1
    ensures InBox(r.0, low, high) && InBox(r.1, low, high)
  {
    ProductNonNegative(rate, spread);
    assert rate * (1.0 + spread) == rate + rate * spread;
    var lower := Max(0.0, rate * (1.0 - spread));
    var upper := rate * (1.0 + spread);
    var lower' := if low.Some? then Max(low.value, lower) else lower;
    var upper' := if high.Some? then Min(high.value, upper) else upper;
    (Min(lower', rate), Max(upper', rate))
  }

  /** gas._unknown_model: the middle of a complete passport range, otherwise zeros. */
  function UnknownModel(bins: nat, low: Limit, high: Limit, gasStove: Option<bool>): (m: GasModel)
    requires ValidBox(low, high)
    ensures m.low == low && m.high == high && |m.rates| == m.bins == bins && m.usable == 0
    ensures m.mean.None? ==> m.lowers == m.uppers == []
    ensures m.boundaryRelative >= 0.0 && (m.mean.Some? <==> low.Some? && high.Some?)
    ensures m.gasStove == gasStove && (low.Some? && high.Some? ==> BoundedRates(m, bins))
  {
    if low.Some? && high.Some? then
      var mean := (low.value + high.value) / 2.0;
      GasModel(bins, Repeated(mean, bins), Some(mean), Repeated(low.value, bins), Repeated(high.value, bins), [],
               low, high, 0, 0.0, gasStove, 0, false)
    else
      GasModel(bins, Zeros(bins), None, [], [], [], low, high, 0, 0.0, gasStove, 0, false)
  }

  /** passport low <= lower <= rate <= upper <= passport high, in every bin. */
  ghost predicate BoundedRates(m: GasModel, bins: nat) {
    |m.rates| == |m.lowers| == |m.uppers| == m.bins == bins
    && m.mean.Some? && InBox(m.mean.value, m.low, m.high)
    && forall i :: 0 <= i < bins ==>
         InBox(m.lowers[i], m.low, m.high) && InBox(m.uppers[i], m.low, m.high)
         && m.lowers[i] <= m.rates[i] <= m.uppers[i]
  }

  /** The final fit on all usable intervals. The source asserts that it exists: it does,
      because the chosen form was fitted on a fold of the development rows. */
  method FinalFit(usable: seq<Interval>, development: seq<Interval>, groups: seq<seq<nat>>, ghost bins: nat,
                  low: Limit, high: Limit)
    returns (fit: Candidate)
    requires usable != [] && (forall x :: x in usable ==> Usable(x, bins)) && ValidBox(low, high)
    requires (forall x :: x in development ==> x in usable) && Shaped(development, bins)
    requires SafeForm(development, groups, bins)
    ensures Shaped(usable, bins) && IsFit(usable, groups, bins, low, high, fit)
  {
    assert forall r :: 0 <= r < |usable| ==> usable[r] in usable;
    FlamePositive(usable, |usable|);
    if |groups| > 1 {
      AcceptedFormStaysFittable(Without(development, 0), usable, groups, bins);
    }
    var fitted := FitCandidate(usable, groups, bins, low, high);
    assert fitted != None;
    fit := fitted.value;
  }

  function BoundaryTo(rows: seq<Interval>, k: nat): (b: real)
    requires k <= |rows|
    ensures b >= 0.0
  {
    if k == 0 then 0.0 else BoundaryTo(rows, k - 1) + Max(0.0, rows[k - 1].boundaryUncertainty)
  }

  function CoverageTo(rows: seq<Interval>, k: nat): real
    requires k <= |rows|
  {
    if k == 0 then 0.0 else CoverageTo(rows, k - 1) + rows[k - 1].coverage
  }

  function BoundaryRelative(usable: seq<Interval>): (b: real)
    ensures b >= 0.0
  {
    QuotientNonNegative(BoundaryTo(usable, |usable|), Max(VolumeTo(usable, |usable|), 0.000000001));
    BoundaryTo(usable, |usable|) / Max(VolumeTo(usable, |usable|), 0.000000001)
  }

  function AverageCoverage(usable: seq<Interval>): real
    requires usable != []
  {
    CoverageTo(usable, |usable|) / |usable| as real
  }

  /** Everything that makes a rate uncertain, as fractions of it. */
  function Doubts(usable: seq<Interval>, relative: Option<real>, sampling: real): set<real>
    requires usable != []
  {
    {0.08, BoundaryRelative(usable), (1.0 - AverageCoverage(usable)) * 0.75, sampling}
    + if relative.Some? then {relative.value} else {0.30}
  }

  /** The relative uncertainty that every rate carries, the greatest of all doubts, and the part
      of it that comes from the meter's boundaries. */
  method Uncertainty(usable: seq<Interval>, relative: Option<real>, sampling: nat -> real)
    returns (base: real, boundary: real)
    requires usable != []
    ensures boundary == BoundaryRelative(usable)
    ensures GreatestDoubt(usable, relative, sampling(|usable|), base)
  {
    boundary := BoundaryRelative(usable);
    var average := AverageCoverage(usable);
    hide BoundaryRelative, AverageCoverage;
    var coverage, sample := (1.0 - average) * 0.75, sampling(|usable|);
    base := Max(Max(Max(0.08, if relative.Some? then relative.value else 0.0), boundary), Max(coverage, sample));
    if relative == None {
      base := Max(base, 0.30);
    }
  }

  /** A rate and its range: a bin that no row used takes the mean rate and a wide range. */
  function RateEntry(usable: seq<Interval>, fitted: Candidate, base: real, bin: nat, low: Limit, high: Limit)
    : (e: (real, real, real))
    requires (forall r :: 0 <= r < |usable| ==> bin < |usable[r].features|) && bin < |fitted.rates| && base >= 0.0
    requires ValidBox(low, high) && AllInBox(fitted.rates, low, high) && InBox(fitted.mean, low, high)
    ensures e.1 <= e.0 <= e.2 && InBox(e.1, low, high) && InBox(e.2, low, high)
  {
    var support := SupportTo(usable, bin, |usable|);
    var rate := if support.0 <= 0.0 then fitted.mean else fitted.rates[bin];
    var bounds := RateRange(rate, Max(base, if support.0 <= 0.0 then 0.50 else if support.1 < 2 then 0.30 else 0.0),
                            low, high);
    (rate, bounds.0, bounds.1)
  }

  /** The loop of fit_intervals over the bins. */
  method RateTable(usable: seq<Interval>, fitted: Candidate, base: real, bins: nat, low: Limit, high: Limit)
    returns (rates: Vec, lowers: Vec, uppers: Vec)
    requires Shaped(usable, bins) && |fitted.rates| == bins && base >= 0.0 && ValidBox(low, high)
    requires AllInBox(fitted.rates, low, high) && InBox(fitted.mean, low, high)
    ensures |rates| == |lowers| == |uppers| == bins
    ensures forall j :: 0 <= j < bins ==>
      (rates[j], lowers[j], uppers[j]) == RateEntry(usable, fitted, base, j, low, high)
  {
    rates, lowers, uppers := [], [], [];
    hide RateEntry;
    for i := 0 to bins
      invariant |rates| == |lowers| == |uppers| == i
      invariant forall j :: 0 <= j < i ==>
        (rates[j], lowers[j], uppers[j]) == RateEntry(usable, fitted, base, j, low, high)
    {
      var entry := RateEntry(usable, fitted, base, i, low, high);
      rates, lowers, uppers := rates + [entry.0], lowers + [entry.1], uppers + [entry.2];
    }
  }

  function FeatureMatrix(rows: seq<Interval>): (m: Matrix)
    ensures |m| == |rows| && forall r :: 0 <= r < |rows| ==> m[r] == rows[r].features
  {
    seq(|rows|, r requires 0 <= r < |rows| => rows[r].features)
  }

  /** The newest fifth, rounded up, is held out once there are three rows. */
  function HeldOut(n: nat): (h: nat)
    ensures h <= n
  {
    if n >= 3 then (n + 4) / 5 else 0
  }

  /** Every bin is used by at least two rows. */
  predicate WellSupported(rows: seq<Interval>, bins: nat)
    requires Shaped(rows, bins)
  {
    forall j :: 0 <= j < bins ==> SupportTo(rows, j, |rows|).1 >= 2
  }

  lemma {:induction false} SupportCounts(rows: seq<Interval>, bin: nat, k: nat)
    requires k <= |rows| && forall r :: 0 <= r < |rows| ==> bin < |rows[r].features| && rows[r].features[bin] >= 0.0
    ensures SupportTo(rows, bin, k).0 >= 0.0 && (SupportTo(rows, bin, k).0 > 0.0 <==> SupportTo(rows, bin, k).1 > 0)
  {
    if k > 0 {
      SupportCounts(rows, bin, k - 1);
    }
  }

  /** The bin is not used by exactly one row. */
  predicate NotSparse(rows: seq<Interval>, bin: nat)
    requires forall r :: 0 <= r < |rows| ==> bin < |rows[r].features|
  {
    SupportTo(rows, bin, |rows|).1 > 0 ==> SupportTo(rows, bin, |rows|).1 >= 2
  }

  /** The bin is not extrapolated. */
  predicate Reached(rows: seq<Interval>, bin: nat)
    requires forall r :: 0 <= r < |rows| ==> bin < |rows[r].features|
  {
    SupportTo(rows, bin, |rows|).0 > 0.0
  }

  lemma UsableCounts(rows: seq<Interval>, bins: nat)
    requires Shaped(rows, bins) && forall x :: x in rows ==> Usable(x, bins)
    ensures WellSupported(rows, bins)
      <==> (forall j :: 0 <= j < bins ==> NotSparse(rows, j)) && forall j :: 0 <= j < bins ==> Reached(rows, j)
  {
    hide SupportTo;
    forall j | 0 <= j < bins ensures SupportTo(rows, j, |rows|).1 >= 2 <==> NotSparse(rows, j) && Reached(rows, j) {
      forall r | 0 <= r < |rows| ensures rows[r].features[j] >= 0.0 {
        assert rows[r] in rows && Usable(rows[r], bins);
      }
      SupportCounts(rows, j, |rows|);
    }
  }

  /** The held-out relative error of the form: how far a fit on the older rows is off on the
      newest, when there are such rows, such a fit and a positive measured volume. */
  ghost predicate Validated(rows: seq<Interval>, groups: seq<seq<nat>>, bins: nat, low: Limit, high: Limit,
                            fit: Option<Candidate>, relative: Option<real>)
    requires WellGrouped(groups, bins) && ValidBox(low, high)
  {
    var n := |rows| - HeldOut(|rows|);
    var development, validation := rows[..n], rows[n..];
    Shaped(development, bins) && Shaped(validation, bins)
    && (fit.Some? <==> Fittable(development, groups, bins))
    && (fit.Some? ==> IsFit(development, groups, bins, low, high, fit.value))
    && (relative.Some? <==> validation != [] && fit.Some? && VolumeTo(validation, |validation|) > 0.0)
    && (relative.Some? ==>
          relative.value == ErrorTo(validation, fit.value, |validation|) / VolumeTo(validation, |validation|))
  }

  /** The relative uncertainty is the greatest of the doubts about the rows and the form. */
  ghost predicate SpreadIs(rows: seq<Interval>, groups: seq<seq<nat>>, bins: nat, low: Limit, high: Limit,
                           sampling: real, base: real)
    requires WellGrouped(groups, bins) && ValidBox(low, high) && rows != []
  {
    exists fit, relative :: Validated(rows, groups, bins, low, high, fit, relative)
                       && GreatestDoubt(rows, relative, sampling, base)
  }

  ghost predicate GreatestDoubt(rows: seq<Interval>, relative: Option<real>, sampling: real, base: real)
    requires rows != []
  {
    base in Doubts(rows, relative, sampling) && forall d :: d in Doubts(rows, relative, sampling) ==> d <= base
  }

  /** What a model is that was fitted to the rows: its form won the comparison on the older rows,
      its rates are a fit of that form on all rows, and it reports the rank of their features. */
  ghost predicate FittedTo(m: GasModel, rows: seq<Interval>, maxBins: int, sampling: real, errors: seq<Option<real>>,
                           p: nat, fit: Candidate, base: real)
    requires m.bins > 0 && Shaped(rows, m.bins) && ValidBox(m.low, m.high)
  {
    m.usable == |rows| > 0 && m.mean == Some(fit.mean) && m.boundaryRelative == BoundaryRelative(rows) && base >= 0.08
    && Chosen(rows[..|rows| - HeldOut(|rows|)], m.bins, Largest(maxBins, m.bins), m.low, m.high, errors, p)
    && m.groups == Groups(m.bins, p + 1) && WellGrouped(m.groups, m.bins)
    && SpreadIs(rows, m.groups, m.bins, m.low, m.high, sampling, base)
    && IsFit(rows, m.groups, m.bins, m.low, m.high, fit) && InBox(fit.mean, m.low, m.high)
    && |m.rates| == |m.lowers| == |m.uppers| == m.bins
    && (forall j :: 0 <= j < m.bins ==>
          (m.rates[j], m.lowers[j], m.uppers[j]) == RateEntry(rows, fit, base, j, m.low, m.high))
    && LargestIndependent(FeatureMatrix(rows), m.bins, m.diversity)
    && (m.identifiable <==>
        |m.groups| > 1 && m.diversity >= |m.groups| && |rows| >= |m.groups| + 2 && WellSupported(rows, m.bins))
  }

  lemma FittedIsBounded(m: GasModel, rows: seq<Interval>, maxBins: int, sampling: real, errors: seq<Option<real>>,
                        p: nat, fit: Candidate, base: real)
    requires m.bins > 0 && Shaped(rows, m.bins) && ValidBox(m.low, m.high)
    requires FittedTo(m, rows, maxBins, sampling, errors, p, fit, base)
    ensures BoundedRates(m, m.bins) && m.boundaryRelative >= 0.0
  {
    hide IsFit, Chosen, WellGrouped, Groups, LargestIndependent, WellSupported, BoundaryRelative, SpreadIs, Largest;
    forall i | 0 <= i < m.bins
      ensures InBox(m.lowers[i], m.low, m.high) && InBox(m.uppers[i], m.low, m.high)
        && m.lowers[i] <= m.rates[i] <= m.uppers[i]
    {
      FitShape(rows, m.groups, m.bins, m.low, m.high, fit);
      assert (m.rates[i], m.lowers[i], m.uppers[i]) == RateEntry(rows, fit, base, i, m.low, m.high);
    }
  }

  lemma FitShape(rows: seq<Interval>, groups: seq<seq<nat>>, bins: nat, low: Limit, high: Limit, fit: Candidate)
    requires Shaped(rows, bins) && WellGrouped(groups, bins) && ValidBox(low, high)
    requires IsFit(rows, groups, bins, low, high, fit)
    ensures |fit.rates| == bins && AllInBox(fit.rates, low, high) && InBox(fit.mean, low, high)
  {
  }

  lemma UsableShaped(rows: seq<Interval>, bins: nat, n: nat)
    requires n <= |rows| && forall x :: x in rows ==> Usable(x, bins)
    ensures Shaped(rows, bins) && Shaped(rows[..n], bins) && Shaped(rows[n..], bins)
    ensures Rectangular(FeatureMatrix(rows), bins)
    ensures forall x :: x in rows[..n] ==> x in rows
  {
    assert forall r :: 0 <= r < |rows| ==> rows[r] in rows;
  }

  /** The part of fit_intervals that fits the usable rows. `sampling` stands for the 0.25 / sqrt(n)
      term of the spread. */
  method FitRows(usable: seq<Interval>, bins: nat, maxBins: int, low: Limit, high: Limit, gasStove: Option<bool>,
                 sampling: nat -> real)
    returns (model: GasModel, ghost errors: seq<Option<real>>, ghost p: nat, ghost fitted: Candidate, ghost base: real)
    requires bins > 0 && usable != [] && (forall x :: x in usable ==> Usable(x, bins)) && ValidBox(low, high)
    ensures model.bins == bins && model.low == low && model.high == high && model.gasStove == gasStove
    ensures Shaped(usable, bins) && FittedTo(model, usable, maxBins, sampling(|usable|), errors, p, fitted, base)
  {
    hide *;
    var heldout := HeldOut(|usable|);
    UsableShaped(usable, bins, |usable| - heldout);
    var development, validation := usable[..|usable| - heldout], usable[|usable| - heldout..];
    var diversity := Rank(FeatureMatrix(usable), bins);
    var groups;
    groups, errors, p := SelectGroups(development, bins, maxBins, low, high);
    SafeIsGrouped(development, groups, bins);
    var developmentFit := FitCandidate(development, groups, bins, low, high);
    if developmentFit.Some? {
      FitShape(development, groups, bins, low, high, developmentFit.value);
    }
    var relative := ValidationRelative(validation, developmentFit, bins);
    var fit := FinalFit(usable, development, groups, bins, low, high);
    FitShape(usable, groups, bins, low, high, fit);
    var spread, boundary := Uncertainty(usable, relative, sampling);
    DoubtsInclude(usable, relative, sampling(|usable|), spread);
    SpreadFound(usable, groups, bins, low, high, developmentFit, relative, sampling(|usable|), spread);
    var rates, lowers, uppers := RateTable(usable, fit, spread, bins, low, high);
    UsableCounts(usable, bins);
    var identifiable := |groups| > 1 && diversity >= |groups| && |usable| >= |groups| + 2
      && (forall j :: 0 <= j < bins ==> NotSparse(usable, j)) && forall j :: 0 <= j < bins ==> Reached(usable, j);
    model := GasModel(bins, rates, Some(fit.mean), lowers, uppers, groups, low, high, |usable|, boundary, gasStove,
                      diversity, identifiable);
    fitted, base := fit, spread;
    IsFittedTo(model, usable, maxBins, sampling(|usable|), errors, p, fitted, base);
  }

  lemma SafeIsGrouped(development: seq<Interval>, groups: seq<seq<nat>>, bins: nat)
    requires Shaped(development, bins) && SafeForm(development, groups, bins)
    ensures WellGrouped(groups, bins)
  {
  }

  lemma DoubtsInclude(usable: seq<Interval>, relative: Option<real>, sampling: real, base: real)
    requires usable != [] && GreatestDoubt(usable, relative, sampling, base)
    ensures base >= 0.08
  {
    assert 0.08 in Doubts(usable, relative, sampling);
  }

  lemma SpreadFound(rows: seq<Interval>, groups: seq<seq<nat>>, bins: nat, low: Limit, high: Limit,
                    fit: Option<Candidate>, relative: Option<real>, sampling: real, base: real)
    requires WellGrouped(groups, bins) && ValidBox(low, high) && rows != []
    requires Shaped(rows[..|rows| - HeldOut(|rows|)], bins) && Shaped(rows[|rows| - HeldOut(|rows|)..], bins)
    requires fit.Some? <==> Fittable(rows[..|rows| - HeldOut(|rows|)], groups, bins)
    requires fit.Some? ==> IsFit(rows[..|rows| - HeldOut(|rows|)], groups, bins, low, high, fit.value)
    requires fit.Some? ==> |fit.value.rates| == bins
    requires var validation := rows[|rows| - HeldOut(|rows|)..];
      (relative.Some? <==> validation != [] && fit.Some? && VolumeTo(validation, |validation|) > 0.0)
      && (relative.Some? ==>
            relative.value == ErrorTo(validation, fit.value, |validation|) / VolumeTo(validation, |validation|))
    requires GreatestDoubt(rows, relative, sampling, base)
    ensures SpreadIs(rows, groups, bins, low, high, sampling, base)
  {
    hide Fittable, WellGrouped, IsFit, GreatestDoubt, VolumeTo, ErrorTo, HeldOut;
    assert Validated(rows, groups, bins, low, high, fit, relative);
  }

  lemma IsFittedTo(m: GasModel, rows: seq<Interval>, maxBins: int, sampling: real, errors: seq<Option<real>>, p: nat,
                   fit: Candidate, base: real)
    requires m.bins > 0 && Shaped(rows, m.bins) && ValidBox(m.low, m.high)
    requires m.usable == |rows| > 0 && m.mean == Some(fit.mean) && m.boundaryRelative == BoundaryRelative(rows)
    requires base >= 0.08
    requires Chosen(rows[..|rows| - HeldOut(|rows|)], m.bins, Largest(maxBins, m.bins), m.low, m.high, errors, p)
    requires m.groups == Groups(m.bins, p + 1) && WellGrouped(m.groups, m.bins)
    requires SpreadIs(rows, m.groups, m.bins, m.low, m.high, sampling, base)
    requires |fit.rates| == m.bins && AllInBox(fit.rates, m.low, m.high)
    requires IsFit(rows, m.groups, m.bins, m.low, m.high, fit) && InBox(fit.mean, m.low, m.high)
    requires |m.rates| == |m.lowers| == |m.uppers| == m.bins
    requires forall j :: 0 <= j < m.bins ==>
      (m.rates[j], m.lowers[j], m.uppers[j]) == RateEntry(rows, fit, base, j, m.low, m.high)
    requires LargestIndependent(FeatureMatrix(rows), m.bins, m.diversity)
    requires m.identifiable <==>
      |m.groups| > 1 && m.diversity >= |m.groups| && |rows| >= |m.groups| + 2 && WellSupported(rows, m.bins)
    ensures FittedTo(m, rows, maxBins, sampling, errors, p, fit, base)
  {
    hide IsFit, Chosen, WellGrouped, Groups, LargestIndependent, WellSupported, BoundaryRelative, SpreadIs, Largest;
    hide RateEntry, InBox, AllInBox;
    FitShape(rows, m.groups, m.bins, m.low, m.high, fit);
  }

  function ByEnd(): (Interval, Interval) -> bool {
    (a: Interval, b: Interval) => a.end <= b.end
  }

  /** The model is the fit of the usable intervals, in the order of their ends. */
  ghost predicate FittedToUsable(m: GasModel, intervals: seq<Interval>, maxBins: int, sampling: nat -> real) {
    var rows := UsableRows(Sort(ByEnd(), intervals), m.bins);
    m.bins > 0 && Shaped(rows, m.bins) && ValidBox(m.low, m.high)
    && exists errors, p, fit, base :: FittedTo(m, rows, maxBins, sampling(|rows|), errors, p, fit, base)
  }

  /** gas.fit_intervals. */
  method FitIntervals(intervals: seq<Interval>, bins: nat, maxBins: int, minimum: Limit, maximum: Limit,
                      gasStove: Option<bool>, sampling: nat -> real)
    returns (model: GasModel)
    requires bins > 0
    ensures model.bins == bins && model.boundaryRelative >= 0.0 && model.gasStove == gasStove
    ensures (model.low, model.high) == PassportBounds(minimum, maximum)
    ensures model.usable > 0 <==> exists x :: x in intervals && Usable(x, bins)
    ensures model.usable > 0 || (model.low.Some? && model.high.Some?) ==> BoundedRates(model, bins)
    ensures model.mean.Some? <==> model.usable > 0 || (model.low.Some? && model.high.Some?)
    ensures model.mean.None? ==> |model.rates| == bins && model.lowers == model.uppers == []
    ensures model.usable > 0 ==> FittedToUsable(model, intervals, maxBins, sampling)
  {
    var box := PassportBounds(minimum, maximum);
    var low, high := box.0, box.1;
    SortMembers(ByEnd(), intervals);
    var usable := KeepUsable(Sort(ByEnd(), intervals), bins);
    hide *;
    if usable == [] {
      NoneUsable(intervals, bins);
      model := UnknownModel(bins, low, high, gasStove);
      return;
    }
    assert usable[0] in usable;
    ghost var errors, p, fit, base;
    model, errors, p, fit, base := FitRows(usable, bins, maxBins, low, high, gasStove, sampling);
    FittedIsBounded(model, usable, maxBins, sampling(|usable|), errors, p, fit, base);
    FittedNames(model, usable, maxBins, sampling(|usable|), errors, p, fit, base);
    UsableFitted(model, intervals, maxBins, sampling, errors, p, fit, base);
  }

  lemma UsableFitted(m: GasModel, intervals: seq<Interval>, maxBins: int, sampling: nat -> real,
                     errors: seq<Option<real>>, p: nat, fit: Candidate, base: real)
    requires var rows := UsableRows(Sort(ByEnd(), intervals), m.bins);
      m.bins > 0 && Shaped(rows, m.bins) && ValidBox(m.low, m.high)
      && FittedTo(m, rows, maxBins, sampling(|rows|), errors, p, fit, base)
    ensures FittedToUsable(m, intervals, maxBins, sampling)
  {
    hide FittedTo, Shaped, ValidBox, UsableRows;
  }

  lemma NoneUsable(intervals: seq<Interval>, bins: nat)
    requires UsableRows(Sort(ByEnd(), intervals), bins) == []
    ensures !exists x :: x in intervals && Usable(x, bins)
  {
    SortMembers(ByEnd(), intervals);
    hide Usable;
  }

  lemma FittedNames(m: GasModel, rows: seq<Interval>, maxBins: int, sampling: real, errors: seq<Option<real>>, p: nat,
                    fit: Candidate, base: real)
    requires m.bins > 0 && Shaped(rows, m.bins) && ValidBox(m.low, m.high)
    requires FittedTo(m, rows, maxBins, sampling, errors, p, fit, base)
    ensures m.usable == |rows| > 0 && m.mean.Some?
  {
    hide IsFit, Chosen, WellGrouped, Groups, LargestIndependent, WellSupported, SpreadIs;
  }
}
