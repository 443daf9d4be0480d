/** Detection of stretches during which the temperature stays out of the band around the
    setpoint: one pass over the readings with an open event, its peak and a target cursor. */
module TemperatureEvents {
  import opened Options
  import opened RealArithmetic
  import opened Sorting
  import opened Statistics
  import opened TargetTimeline

  datatype Reading = Reading(at: int, value: real)
  datatype Kind = Above | Below
  datatype Event = Event(kind: Kind, start: int, end: int, warning: bool, peak: real)

  predicate ReadingLe(a: Reading, b: Reading) {
    a.at < b.at || (a.at == b.at && a.value <= b.value)
  }

  /** events._maximum_continuous_gap, in seconds. */
  function MaximumContinuousGap(s: seq<Reading>): real {
    var positive := Positive(Gaps((r: Reading) => r.at, s));
    if positive == [] then 60.0
    else
      var expected := Min(Median(positive), (Minimum(positive) * 3) as real);
      if expected * 2.5 < 60.0 then 60.0 else expected * 2.5
  }

  /** Everything that decides about the readings, the readings being in time order. */
  datatype Input = Input(s: seq<Reading>, targets: seq<Observation>, fallback: Option<real>, band: real,
                         ignored: seq<(int, int)>)

  /** The side of the band on which a temperature lies. */
  function SideOf(value: real, goal: real, band: real): Option<Kind> {
    if value - goal > band then Some(Above) else if value - goal < -band then Some(Below) else None
  }

  /** The side on which the i-th reading lies, of the target in force at that instant; none for
      ignored readings and where no target is known. */
  function Side(d: Input, i: nat): Option<Kind>
    requires i < |d.s|
  {
    match TargetAt(d.targets, d.fallback, d.s[i].at)
    case None => None
    case Some(goal) => if Ignored(d.s[i].at, d.ignored) then None else SideOf(d.s[i].value, goal, d.band)
  }

  function Error(d: Input, i: nat): real
    requires i < |d.s|
  {
    match TargetAt(d.targets, d.fallback, d.s[i].at)
    case None => 0.0
    case Some(goal) => Abs(d.s[i].value - goal)
  }

  predicate Bridged(d: Input, i: nat)
    requires i + 1 < |d.s|
  {
    (d.s[i + 1].at - d.s[i].at) as real <= MaximumContinuousGap(d.s)
  }

  /** No setpoint transition lies strictly between the two instants. */
  predicate Unchanged(d: Input, left: int, right: int) {
    forall k :: 0 <= k < |Transitions(d.targets)| ==> !(left < Transitions(d.targets)[k].at < right)
  }

  /** Nor with the later one. */
  predicate Settled(d: Input, left: int, right: int) {
    forall k :: 0 <= k < |Transitions(d.targets)| ==> !(left < Transitions(d.targets)[k].at <= right)
  }

  /** The readings lo..hi are all on one side, bridged, and `peak` is their greatest error. */
  ghost predicate Stretch(d: Input, kind: Kind, lo: nat, hi: nat, peak: real) {
    lo <= hi < |d.s|
    && (forall i :: lo <= i <= hi ==> Side(d, i) == Some(kind) && Error(d, i) <= peak)
    && (exists i :: lo <= i <= hi && Error(d, i) == peak)
    && forall i :: lo <= i < hi ==> Bridged(d, i)
  }

  /** Why an event ends after reading hi: the data end, the next reading is too far away, the
      setpoint changes before or with it, or it is no longer on this side. */
  ghost predicate Ends(d: Input, kind: Kind, hi: nat, end: int)
    requires hi < |d.s|
  {
    if hi + 1 == |d.s| then end == d.s[hi].at
    else
      d.s[hi].at <= end <= d.s[hi + 1].at
      && ((!Bridged(d, hi) && end == d.s[hi].at)
          || (Bridged(d, hi) && d.s[hi].at < end
              && exists k :: 0 <= k < |Transitions(d.targets)| && end == Transitions(d.targets)[k].at)
          || (Bridged(d, hi) && end == d.s[hi + 1].at && Side(d, hi + 1) != Some(kind)))
  }

  /** The event is exactly what the readings lo..hi say. */
  ghost predicate Fits(d: Input, e: Event, lo: nat, hi: nat) {
    Stretch(d, e.kind, lo, hi, e.peak) && e.start == d.s[lo].at && Ends(d, e.kind, hi, e.end)
    && Settled(d, e.start, d.s[hi].at) && Unchanged(d, e.start, e.end) && (e.warning <==> e.peak > d.band * 2.0)
  }

  ghost predicate Sorted(s: seq<Reading>) {
    forall i, j :: 0 <= i < j < |s| ==> s[i].at <= s[j].at
  }

  // ---- The open event ------------------------------------------------------------------------------

  /** The open event covers the readings from lo up to, not including, n. */
  ghost predicate Open(d: Input, kind: Kind, start: int, peak: real, lo: nat, n: nat) {
    0 < n <= |d.s| && lo < n && start == d.s[lo].at && Stretch(d, kind, lo, n - 1, peak)
    && Settled(d, start, d.s[n - 1].at)
  }

  lemma CloseFits(d: Input, kind: Kind, start: int, peak: real, lo: nat, n: nat, end: int)
    requires Open(d, kind, start, peak, lo, n) && Ends(d, kind, n - 1, end)
    requires forall k :: 0 <= k < |Transitions(d.targets)| ==> !(d.s[n - 1].at < Transitions(d.targets)[k].at < end)
    ensures Fits(d, Event(kind, start, end, peak > d.band * 2.0, peak), lo, n - 1)
  {
    hide Transitions, Stretch, Ends;
  }

  lemma OpenNew(d: Input, kind: Kind, n: nat)
    requires n < |d.s| && Side(d, n) == Some(kind)
    ensures Open(d, kind, d.s[n].at, Error(d, n), n, n + 1)
  {
    hide Transitions, Side, Error, Bridged;
  }

  lemma OpenGrows(d: Input, kind: Kind, start: int, peak: real, lo: nat, n: nat)
    requires Open(d, kind, start, peak, lo, n) && n < |d.s| && Side(d, n) == Some(kind) && Bridged(d, n - 1)
    requires forall k :: 0 <= k < |Transitions(d.targets)| ==>
      !(d.s[n - 1].at < Transitions(d.targets)[k].at <= d.s[n].at)
    ensures Open(d, kind, start, if peak < Error(d, n) then Error(d, n) else peak, lo, n + 1)
  {
    hide Transitions, Side, Error, Bridged;
  }

  // ---- The events found so far ---------------------------------------------------------------------

  /** runs[k] are the first and last reading of events[k]; the runs are in order. */
  ghost predicate Found(d: Input, events: seq<Event>, runs: seq<(nat, nat)>, n: nat) {
    |runs| == |events|
    && (forall k :: 0 <= k < |runs| ==> runs[k].1 < n && Fits(d, events[k], runs[k].0, runs[k].1))
    && forall j, k :: 0 <= j < k < |runs| ==> runs[j].1 < runs[k].0
  }

  ghost predicate InRun(runs: seq<(nat, nat)>, i: nat) {
    exists k :: 0 <= k < |runs| && runs[k].0 <= i <= runs[k].1
  }

  lemma OneMoreFound(d: Input, events: seq<Event>, runs: seq<(nat, nat)>, lo: nat, n: nat, e: Event, hi: nat)
    requires Found(d, events, runs, lo) && Fits(d, e, lo, hi) && lo <= hi < n
    ensures Found(d, events + [e], runs + [(lo, hi)], n)
    ensures forall i: nat :: InRun(runs, i) || lo <= i <= hi ==> InRun(runs + [(lo, hi)], i)
  {
    hide Fits;
    var more := runs + [(lo, hi)];
    forall i: nat | InRun(runs, i) || lo <= i <= hi ensures InRun(more, i) {
      if lo <= i <= hi {
        assert more[|runs|] == (lo, hi);
      } else {
        var k :| 0 <= k < |runs| && runs[k].0 <= i <= runs[k].1;
        assert more[k] == runs[k];
      }
    }
  }

  /** The state of the pass before reading n. */
  ghost predicate Scanned(d: Input, events: seq<Event>, runs: seq<(nat, nat)>, active: Option<Kind>, start: int,
                          peak: real,
                          lo: nat, n: nat) {
    n <= |d.s|
    && (active.Some? ==> Open(d, active.value, start, peak, lo, n) && Found(d, events, runs, lo))
    && (active == None ==> Found(d, events, runs, n))
    && forall i: nat :: i < n && Side(d, i).Some? ==> InRun(runs, i) || (active.Some? && lo <= i)
  }

  lemma Closed(d: Input, events: seq<Event>, runs: seq<(nat, nat)>, kind: Kind, start: int, peak: real, lo: nat,
               n: nat, end: int)
    requires Scanned(d, events, runs, Some(kind), start, peak, lo, n) && 0 < n && Ends(d, kind, n - 1, end)
    requires forall k :: 0 <= k < |Transitions(d.targets)| ==> !(d.s[n - 1].at < Transitions(d.targets)[k].at < end)
    ensures Scanned(d, events + [Event(kind, start, end, peak > d.band * 2.0, peak)], runs + [(lo, n - 1)], None, 0,
                    0.0, 0, n)
  {
    CloseFits(d, kind, start, peak, lo, n, end);
    OpenMeans(d, kind, start, peak, lo, n);
    hide Open, Fits, Found, Ends, InRun, Side, Transitions;
    OneMoreFound(d, events, runs, lo, n, Event(kind, start, end, peak > d.band * 2.0, peak), n - 1);
  }

  lemma OpenMeans(d: Input, kind: Kind, start: int, peak: real, lo: nat, n: nat)
    requires Open(d, kind, start, peak, lo, n)
    ensures lo < n <= |d.s|
  {
  }

  lemma FoundLater(d: Input, events: seq<Event>, runs: seq<(nat, nat)>, n: nat)
    requires Found(d, events, runs, n)
    ensures Found(d, events, runs, n + 1)
  {
    hide Fits;
  }

  lemma ReadingSkipped(d: Input, events: seq<Event>, runs: seq<(nat, nat)>, n: nat)
    requires Scanned(d, events, runs, None, 0, 0.0, 0, n) && n < |d.s| && Side(d, n) == None
    ensures Scanned(d, events, runs, None, 0, 0.0, 0, n + 1)
  {
    hide Open, Found, InRun, Side;
    FoundLater(d, events, runs, n);
  }

  lemma EventStarts(d: Input, events: seq<Event>, runs: seq<(nat, nat)>, n: nat, kind: Kind)
    requires Scanned(d, events, runs, None, 0, 0.0, 0, n) && n < |d.s| && Side(d, n) == Some(kind)
    ensures Scanned(d, events, runs, Some(kind), d.s[n].at, Error(d, n), n, n + 1)
  {
    OpenNew(d, kind, n);
    hide Open, Found, InRun, Side, Error;
  }

  lemma EventContinues(d: Input, events: seq<Event>, runs: seq<(nat, nat)>, kind: Kind, start: int, peak: real,
                       lo: nat, n: nat)
    requires Scanned(d, events, runs, Some(kind), start, peak, lo, n) && 0 < n < |d.s| && Side(d, n) == Some(kind)
    requires Bridged(d, n - 1)
    requires forall k :: 0 <= k < |Transitions(d.targets)| ==>
      !(d.s[n - 1].at < Transitions(d.targets)[k].at <= d.s[n].at)
    ensures Scanned(d, events, runs, Some(kind), start, if peak < Error(d, n) then Error(d, n) else peak, lo, n + 1)
  {
    OpenGrows(d, kind, start, peak, lo, n);
    OpenMeans(d, kind, start, peak, lo, n);
    hide Open, Found, InRun, Side, Error, Transitions;
  }

  // ---- The pass ------------------------------------------------------------------------------------

  /** The nested function close_active. */
  method CloseActive(events: seq<Event>, active: Option<Kind>, start: int, end: int, peak: real, band: real)
    returns (after: seq<Event>)
    ensures after == if active.Some? then events + [Event(active.value, start, end, peak > band * 2.0, peak)]
      else events
  {
    after := events;
    if active.Some? {
      after := after + [Event(active.value, start, end, peak > band * 2.0, peak)];
    }
  }

  /** The first part of the loop body: the open event ends where the readings have a hole or
      where the setpoint changes. */
  method EndByHoleOrTransition(ghost d: Input, s: seq<Reading>, list: seq<Observation>, band: real, maximumGap: real,
                               events: seq<Event>, ghost runs: seq<(nat, nat)>, active: Option<Kind>, start: int,
                               peak: real, ghost lo: nat, n: nat, first: nat, next: nat)
    returns (after: seq<Event>, ghost afterRuns: seq<(nat, nat)>, still: Option<Kind>)
    requires Scanned(d, events, runs, active, start, peak, lo, n) && n < |s| && s == d.s && Sorted(s) && band == d.band
    requires list == Transitions(d.targets) && maximumGap == MaximumContinuousGap(s) && Increasing(list)
    requires first <= next <= |list| && (forall k :: 0 <= k < next ==> list[k].at <= s[n].at)
    requires n > 0 ==>
      (forall k :: 0 <= k < first ==> list[k].at <= s[n - 1].at)
        && forall k :: first <= k < |list| ==> s[n - 1].at < list[k].at
    requires forall k :: next <= k < |list| ==> s[n].at < list[k].at
    ensures still == None || still == active
    ensures still.Some? ==>
      after == events && afterRuns == runs && Scanned(d, after, afterRuns, still, start, peak, lo, n)
    ensures still == None ==> Scanned(d, after, afterRuns, None, 0, 0.0, 0, n)
    ensures still.Some? ==> n > 0 && Bridged(d, n - 1)
    ensures still.Some? ==> forall k :: 0 <= k < |list| ==> !(s[n - 1].at < list[k].at <= s[n].at)
  {
    hide *;
    after, afterRuns, still := events, runs, active;
    if n == 0 {
      ActiveHasRead(d, events, runs, active, start, peak, lo, n);
      return;
    }
    if active == None {
      NothingOpen(d, events, runs, start, peak, lo, n);
      return;
    }
    GapMeans(d, n - 1);
    if (s[n].at - s[n - 1].at) as real > maximumGap {
      HoleEnds(d, active.value, n - 1);
      after, afterRuns := EndAt(d, band, events, runs, active.value, start, peak, lo, n, s[n - 1].at);
      still := None;
    } else if first < next {
      TransitionEnds(d, active.value, n - 1, first, list);
      after, afterRuns := EndAt(d, band, events, runs, active.value, start, peak, lo, n, list[first].at);
      still := None;
    }
  }

  method EndAt(ghost d: Input, band: real, events: seq<Event>, ghost runs: seq<(nat, nat)>, kind: Kind, start: int,
               peak: real,
               ghost lo: nat, ghost n: nat, end: int)
    returns (after: seq<Event>, ghost afterRuns: seq<(nat, nat)>)
    requires Scanned(d, events, runs, Some(kind), start, peak, lo, n) && 0 < n <= |d.s| && Ends(d, kind, n - 1, end)
      && band == d.band
    requires forall k :: 0 <= k < |Transitions(d.targets)| ==> !(d.s[n - 1].at < Transitions(d.targets)[k].at < end)
    ensures Scanned(d, after, afterRuns, None, 0, 0.0, 0, n)
  {
    hide *;
    Closed(d, events, runs, kind, start, peak, lo, n, end);
    after := CloseActive(events, Some(kind), start, end, peak, band);
    afterRuns := runs + [(lo, n - 1)];
  }

  lemma GapMeans(d: Input, hi: nat)
    requires hi + 1 < |d.s|
    ensures Bridged(d, hi) <==> (d.s[hi + 1].at - d.s[hi].at) as real <= MaximumContinuousGap(d.s)
  {
    hide MaximumContinuousGap;
  }

  lemma HoleEnds(d: Input, kind: Kind, hi: nat)
    requires hi + 1 < |d.s| && Sorted(d.s) && !Bridged(d, hi)
    ensures Ends(d, kind, hi, d.s[hi].at)
    ensures forall k :: 0 <= k < |Transitions(d.targets)| ==> !(d.s[hi].at < Transitions(d.targets)[k].at < d.s[hi].at)
  {
    hide Side, Bridged, Transitions;
  }

  lemma TransitionEnds(d: Input, kind: Kind, hi: nat, first: nat, list: seq<Observation>)
    requires hi + 1 < |d.s| && Bridged(d, hi) && list == Transitions(d.targets) && Increasing(list) && first < |list|
    requires d.s[hi].at < list[first].at <= d.s[hi + 1].at && forall k :: 0 <= k < first ==> list[k].at <= d.s[hi].at
    ensures Ends(d, kind, hi, list[first].at)
    ensures forall k :: 0 <= k < |Transitions(d.targets)| ==>
      !(d.s[hi].at < Transitions(d.targets)[k].at < list[first].at)
  {
    hide Side, Bridged, Transitions;
  }

  lemma SideEnds(d: Input, kind: Kind, hi: nat)
    requires hi + 1 < |d.s| && Sorted(d.s) && Bridged(d, hi) && Side(d, hi + 1) != Some(kind)
    requires forall k :: 0 <= k < |Transitions(d.targets)| ==>
      !(d.s[hi].at < Transitions(d.targets)[k].at <= d.s[hi + 1].at)
    ensures Ends(d, kind, hi, d.s[hi + 1].at)
    ensures forall k :: 0 <= k < |Transitions(d.targets)| ==>
      !(d.s[hi].at < Transitions(d.targets)[k].at < d.s[hi + 1].at)
  {
    hide Side, Bridged, Transitions;
  }

  lemma ActiveHasRead(d: Input, events: seq<Event>, runs: seq<(nat, nat)>, active: Option<Kind>, start: int,
                      peak: real, lo: nat, n: nat)
    requires Scanned(d, events, runs, active, start, peak, lo, n) && n == 0
    ensures active == None && Scanned(d, events, runs, None, 0, 0.0, 0, n)
  {
  }

  lemma NothingOpen(d: Input, events: seq<Event>, runs: seq<(nat, nat)>, start: int, peak: real, lo: nat, n: nat)
    requires Scanned(d, events, runs, None, start, peak, lo, n)
    ensures Scanned(d, events, runs, None, 0, 0.0, 0, n)
  {
  }

  /** The second part of the loop body: the reading itself. */
  method TakeReading(ghost d: Input, s: seq<Reading>, ignored: seq<(int, int)>, band: real, target: Option<real>,
                     events: seq<Event>, ghost runs: seq<(nat, nat)>, active: Option<Kind>, start: int, peak: real,
                     ghost lo: nat, n: nat)
    returns (after: seq<Event>, ghost afterRuns: seq<(nat, nat)>, now: Option<Kind>, nowStart: int, nowPeak: real,
             ghost nowLo: nat)
    requires n < |s| && s == d.s && band == d.band && ignored == d.ignored && Sorted(s)
    requires target == TargetAt(d.targets, d.fallback, s[n].at)
    requires active.Some? ==> Scanned(d, events, runs, active, start, peak, lo, n) && n > 0 && Bridged(d, n - 1)
    requires active.Some? ==> forall k :: 0 <= k < |Transitions(d.targets)| ==>
      !(s[n - 1].at < Transitions(d.targets)[k].at <= s[n].at)
    requires active == None ==> Scanned(d, events, runs, None, 0, 0.0, 0, n)
    ensures Scanned(d, after, afterRuns, now, nowStart, nowPeak, nowLo, n + 1)
  {
    hide *;
    SideOfReading(d, n, target);
    after, afterRuns, now, nowStart, nowPeak, nowLo := events, runs, None, 0, 0.0, 0;
    var skipped := Ignored(s[n].at, ignored) || target == None;
    var kind := if skipped then None else SideOf(s[n].value, target.value, band);
    if active.Some? && kind == active {
      EventContinues(d, events, runs, active.value, start, peak, lo, n);
      var error := Abs(s[n].value - target.value);
      now, nowStart, nowPeak, nowLo := kind, start, if peak < error then error else peak, lo;
      return;
    }
    if active.Some? {
      SideEnds(d, active.value, n - 1);
      after, afterRuns := EndAt(d, band, events, runs, active.value, start, peak, lo, n, s[n].at);
    }
    if kind.Some? {
      EventStarts(d, after, afterRuns, n, kind.value);
      now, nowStart, nowPeak, nowLo := kind, s[n].at, Abs(s[n].value - target.value), n;
    } else {
      ReadingSkipped(d, after, afterRuns, n);
    }
  }

  lemma SideOfReading(d: Input, n: nat, target: Option<real>)
    requires n < |d.s| && target == TargetAt(d.targets, d.fallback, d.s[n].at)
    ensures Side(d, n) == if Ignored(d.s[n].at, d.ignored) || target == None then None
      else SideOf(d.s[n].value, target.value, d.band)
    ensures target.Some? ==> Error(d, n) == Abs(d.s[n].value - target.value)
  {
    hide TargetAt, Ignored;
  }

  /** The input with its readings sorted. */
  function Prepared(samples: seq<Reading>, targets: seq<Observation>, fallback: Option<real>, band: real,
                    ignored: seq<(int, int)>): Input {
    Input(Sort(ReadingLe, samples), targets, fallback, band, ignored)
  }

  lemma PreparedSorted(samples: seq<Reading>)
    ensures Sorted(Sort(ReadingLe, samples))
  {
    assert TotalPreorder(ReadingLe);
    SortSorted(ReadingLe, samples);
  }

  /** Every event is exactly what its run of readings says, and every reading out of the band
      belongs to one of the runs. */
  ghost predicate Complete(d: Input, events: seq<Event>, runs: seq<(nat, nat)>) {
    Found(d, events, runs, |d.s|) && forall i :: 0 <= i < |d.s| && Side(d, i).Some? ==> InRun(runs, i)
  }

  /** events.detect_temperature_events. */
  method DetectEvents(samples: seq<Reading>, targets: seq<Observation>, fallback: Option<real>, band: real,
                      ignored: seq<(int, int)>)
    returns (events: seq<Event>)
    ensures exists runs :: Complete(Prepared(samples, targets, fallback, band, ignored), events, runs)
  {
    hide *;
    ghost var d := Prepared(samples, targets, fallback, band, ignored);
    var s := Sort(ReadingLe, samples);
    PreparedIs(samples, targets, fallback, band, ignored);
    PreparedSorted(samples);
    var list := TargetTransitions(targets);
    TransitionsKeepValues(targets, 0);
    events := [];
    if fallback == None && list == [] {
      NoTarget(d);
      return;
    }
    ghost var runs;
    events, runs := Pass(d, s, list, fallback, band, ignored);
    AllScanned(d, events, runs);
  }

  lemma PreparedIs(samples: seq<Reading>, targets: seq<Observation>, fallback: Option<real>, band: real,
                   ignored: seq<(int, int)>)
    ensures var d := Prepared(samples, targets, fallback, band, ignored);
      d.s == Sort(ReadingLe, samples) && d.targets == targets && d.fallback == fallback && d.band == band
        && d.ignored == ignored
  {
  }

  /** The cursor before reading n. */
  ghost predicate Cursor(s: seq<Reading>, list: seq<Observation>, initial: Option<real>, index: nat,
                         current: Option<real>, n: nat)
    requires n <= |s|
  {
    (n == 0 ==> index == 0 && current == initial)
    && (n > 0 ==> CursorAt(list, initial, index, current, s[n - 1].at)
                  && forall k :: index <= k < |list| ==> s[n - 1].at < list[k].at)
  }

  method Pass(ghost d: Input, s: seq<Reading>, list: seq<Observation>, fallback: Option<real>, band: real,
              ignored: seq<(int, int)>)
    returns (events: seq<Event>, ghost runs: seq<(nat, nat)>)
    requires s == d.s && Sorted(s) && list == Transitions(d.targets) && Increasing(list)
    requires fallback == d.fallback && band == d.band && ignored == d.ignored && (list == [] <==> d.targets == [])
    ensures Scanned(d, events, runs, None, 0, 0.0, 0, |s|)
  {
    hide *;
    NothingScanned(d);
    var maximumGap := MaximumContinuousGap(s);
    var current := if list == [] then fallback else None;
    ghost var initial := if d.targets == [] then d.fallback else None;
    events, runs := [], [];
    var active: Option<Kind> := None;
    var start, peak := 0, 0.0;
    ghost var lo: nat := 0;
    var index := 0;
    CursorFirst(s, list, initial);
    for n := 0 to |s|
      invariant Scanned(d, events, runs, active, start, peak, lo, n)
      invariant Cursor(s, list, initial, index, current, n)
    {
      var first := index;
      CursorReady(s, list, initial, index, current, n);
      index, current := MoveCursor(list, initial, index, current, s[n].at);
      CursorIsLookup(d.targets, d.fallback, index, current, s[n].at);
      CursorBounds(s, list, initial, first, index, current, n);
      var still;
      events, runs, still := EndByHoleOrTransition(d, s, list, band, maximumGap, events, runs, active, start, peak, lo,
                                                   n, first, index);
      events, runs, active, start, peak, lo := TakeReading(d, s, ignored, band, current, events, runs, still, start,
                                                           peak, lo, n);
    }
    if active.Some? {
      EndOfData(d, active.value, start, peak, lo, events, runs);
      Closed(d, events, runs, active.value, start, peak, lo, |s|, s[|s| - 1].at);
      events := CloseActive(events, active, start, s[|s| - 1].at, peak, band);
      runs := runs + [(lo, |s| - 1)];
    } else {
      NothingOpen(d, events, runs, start, peak, lo, |s|);
    }
  }

  lemma CursorFirst(s: seq<Reading>, list: seq<Observation>, initial: Option<real>)
    ensures Cursor(s, list, initial, 0, initial, 0)
  {
  }

  lemma NothingScanned(d: Input)
    ensures Scanned(d, [], [], None, 0, 0.0, 0, 0)
  {
  }

  lemma NoTarget(d: Input)
    requires d.fallback == None && Transitions(d.targets) == []
    ensures Complete(d, [], [])
  {
    TransitionsKeepValues(d.targets, 0);
  }

  lemma AllScanned(d: Input, events: seq<Event>, runs: seq<(nat, nat)>)
    requires Scanned(d, events, runs, None, 0, 0.0, 0, |d.s|)
    ensures Complete(d, events, runs)
  {
  }

  lemma EndOfData(d: Input, kind: Kind, start: int, peak: real, lo: nat, events: seq<Event>, runs: seq<(nat, nat)>)
    requires Scanned(d, events, runs, Some(kind), start, peak, lo, |d.s|)
    ensures |d.s| > 0 && Ends(d, kind, |d.s| - 1, d.s[|d.s| - 1].at)
  {
    OpenMeans(d, kind, start, peak, lo, |d.s|);
  }

  lemma CursorReady(s: seq<Reading>, list: seq<Observation>, initial: Option<real>, index: nat, current: Option<real>,
                    n: nat)
    requires Sorted(s) && n < |s| && Cursor(s, list, initial, index, current, n)
    ensures CursorAt(list, initial, index, current, s[n].at)
    ensures n > 0 ==>
      (forall k :: 0 <= k < index ==> list[k].at <= s[n - 1].at)
        && forall k :: index <= k < |list| ==> s[n - 1].at < list[k].at
    ensures index <= |list|
  {
  }

  lemma CursorBounds(s: seq<Reading>, list: seq<Observation>, initial: Option<real>, first: nat, next: nat,
                     now: Option<real>, n: nat)
    requires n < |s| && Increasing(list) && CursorAt(list, initial, next, now, s[n].at) && first <= next <= |list|
    requires next < |list| ==> s[n].at < list[next].at
    ensures forall k :: 0 <= k < next ==> list[k].at <= s[n].at
    ensures forall k :: next <= k < |list| ==> s[n].at < list[k].at
    ensures Cursor(s, list, initial, next, now, n + 1)
  {
  }

  // ---- In terms of time ------------------------------------------------------------------------------

  ghost predicate DistinctTimes(s: seq<Reading>) {
    forall i, j :: 0 <= i < j < |s| ==> s[i].at < s[j].at
  }

  /** Events follow one another without overlap. */
  lemma EventsAreDisjoint(d: Input, events: seq<Event>, runs: seq<(nat, nat)>, j: nat, k: nat)
    requires Sorted(d.s) && Found(d, events, runs, |d.s|) && j < k < |events|
    ensures events[j].start <= events[j].end <= events[k].start <= events[k].end
  {
    hide Side, Error, Bridged, Transitions;
    assert Fits(d, events[j], runs[j].0, runs[j].1) && Fits(d, events[k], runs[k].0, runs[k].1);
    assert runs[j].1 < runs[k].0;
  }

  /** For readings at distinct instants: whatever was read from the start of an event up to its
      end lies on the event's side of the target then in force, is not ignored, and is within
      reach of the next reading; no setpoint transition falls strictly inside. */
  lemma EventMeansOutOfBand(d: Input, events: seq<Event>, runs: seq<(nat, nat)>, k: nat, i: nat)
    requires DistinctTimes(d.s) && Found(d, events, runs, |d.s|) && k < |events| && i < |d.s|
    requires events[k].start <= d.s[i].at < events[k].end
    ensures !Ignored(d.s[i].at, d.ignored) && TargetAt(d.targets, d.fallback, d.s[i].at).Some?
    ensures var goal := TargetAt(d.targets, d.fallback, d.s[i].at).value;
      SideOf(d.s[i].value, goal, d.band) == Some(events[k].kind)
      && (events[k].kind == Above ==> d.s[i].value > goal + d.band)
      && (events[k].kind == Below ==> d.s[i].value < goal - d.band)
    ensures Error(d, i) <= events[k].peak && i + 1 < |d.s| && Bridged(d, i)
    ensures Unchanged(d, events[k].start, events[k].end)
  {
    hide Error, Transitions, Bridged, Ignored, TargetAt;
    var lo, hi := runs[k].0, runs[k].1;
    assert Fits(d, events[k], lo, hi);
    assert lo <= i <= hi;
    assert Side(d, i) == Some(events[k].kind);
  }

  /** The peak is the error of one of the event's own readings. */
  lemma PeakIsReached(d: Input, events: seq<Event>, runs: seq<(nat, nat)>, k: nat) returns (i: nat)
    requires Sorted(d.s) && Found(d, events, runs, |d.s|) && k < |events|
    ensures i < |d.s| && events[k].start <= d.s[i].at <= events[k].end && Error(d, i) == events[k].peak
    ensures Side(d, i) == Some(events[k].kind)
  {
    hide Error, Transitions, Bridged, Side;
    var lo, hi := runs[k].0, runs[k].1;
    assert Fits(d, events[k], lo, hi);
    i :| lo <= i <= hi && Error(d, i) == events[k].peak;
  }

  // ---- The events are determined ---------------------------------------------------------------------

  /** Two events from the same first reading do not end differently. */
  lemma RunsEndTogether(d: Input, a: Event, b: Event, lo: nat, i: nat, j: nat)
    requires Sorted(d.s) && Fits(d, a, lo, i) && Fits(d, b, lo, j)
    ensures i >= j
  {
    hide Side, Error, Transitions, Bridged;
    assert Side(d, lo) == Some(a.kind) == Some(b.kind);
    if i < j {
      assert false;
    }
  }

  lemma SameEnd(d: Input, a: Event, b: Event, lo: nat, hi: nat)
    requires Sorted(d.s) && Fits(d, a, lo, hi) && Fits(d, b, lo, hi)
    ensures a.end <= b.end
  {
    hide Side, Error, Transitions, Bridged;
    assert d.s[lo].at <= d.s[hi].at;
  }

  lemma SameEvent(d: Input, a: Event, b: Event, lo: nat, i: nat, j: nat)
    requires Sorted(d.s) && Fits(d, a, lo, i) && Fits(d, b, lo, j)
    ensures i == j && a == b
  {
    RunsEndTogether(d, a, b, lo, i, j);
    RunsEndTogether(d, b, a, lo, j, i);
    SameEnd(d, a, b, lo, i);
    SameEnd(d, b, a, lo, i);
    hide Side, Error, Transitions, Bridged;
    assert Side(d, lo) == Some(a.kind) == Some(b.kind);
  }

  lemma RunOutOfBand(d: Input, events: seq<Event>, runs: seq<(nat, nat)>, k: nat)
    requires Found(d, events, runs, |d.s|) && k < |runs|
    ensures runs[k].0 <= runs[k].1 < |d.s| && Side(d, runs[k].0).Some?
  {
    hide Side, Error, Transitions, Bridged, Ends;
    assert Fits(d, events[k], runs[k].0, runs[k].1);
  }

  lemma EarlierRunsEnd(runs: seq<(nat, nat)>, otherRuns: seq<(nat, nat)>, k: nat)
    requires k < |runs| && k <= |otherRuns| && runs[..k] == otherRuns[..k]
    requires forall j, l :: 0 <= j < l < |runs| ==> runs[j].1 < runs[l].0
    ensures forall l :: 0 <= l < k ==> otherRuns[l].1 < runs[k].0
  {
    forall l | 0 <= l < k ensures otherRuns[l].1 < runs[k].0 {
      assert otherRuns[l] == otherRuns[..k][l] == runs[..k][l] == runs[l];
    }
  }

  /** The k-th run starts no later than that of any other account of the same readings. */
  lemma RunsStartTogether(d: Input, events: seq<Event>, runs: seq<(nat, nat)>, others: seq<Event>,
                          otherRuns: seq<(nat, nat)>, k: nat)
    requires Complete(d, events, runs) && Complete(d, others, otherRuns)
    requires k < |runs| && k <= |otherRuns| && runs[..k] == otherRuns[..k]
    ensures k < |otherRuns| && otherRuns[k].0 <= runs[k].0
  {
    RunOutOfBand(d, events, runs, k);
    EarlierRunsEnd(runs, otherRuns, k);
    assert InRun(otherRuns, runs[k].0);
    var m :| 0 <= m < |otherRuns| && otherRuns[m].0 <= runs[k].0 <= otherRuns[m].1;
    RunOutOfBand(d, others, otherRuns, k);
    hide Side, Fits;
    assert k < m ==> otherRuns[k].1 < otherRuns[m].0;
  }

  lemma {:induction false} PrefixesAgree(d: Input, events: seq<Event>, runs: seq<(nat, nat)>, others: seq<Event>,
                                         otherRuns: seq<(nat, nat)>, k: nat)
    requires Sorted(d.s) && Complete(d, events, runs) && Complete(d, others, otherRuns) && k <= |runs|
    ensures k <= |otherRuns| && runs[..k] == otherRuns[..k] && events[..k] == others[..k]
  {
    hide Side, Fits, InRun;
    if k > 0 {
      PrefixesAgree(d, events, runs, others, otherRuns, k - 1);
      RunsStartTogether(d, events, runs, others, otherRuns, k - 1);
      RunsStartTogether(d, others, otherRuns, events, runs, k - 1);
      SameEvent(d, events[k - 1], others[k - 1], runs[k - 1].0, runs[k - 1].1, otherRuns[k - 1].1);
      assert runs[..k] == runs[..k - 1] + [runs[k - 1]] && otherRuns[..k] == otherRuns[..k - 1] + [otherRuns[k - 1]];
      assert events[..k] == events[..k - 1] + [events[k - 1]] && others[..k] == others[..k - 1] + [others[k - 1]];
    }
  }

  /** Nothing about the events is left open: no other list of events fits the readings. */
  lemma EventsDetermined(d: Input, events: seq<Event>, runs: seq<(nat, nat)>, others: seq<Event>,
                         otherRuns: seq<(nat, nat)>)
    requires Sorted(d.s) && Complete(d, events, runs) && Complete(d, others, otherRuns)
    ensures events == others && runs == otherRuns
  {
    PrefixesAgree(d, events, runs, others, otherRuns, |runs|);
    PrefixesAgree(d, others, otherRuns, events, runs, |otherRuns|);
    hide Side, Fits, InRun;
    assert events[..|runs|] == events && others[..|otherRuns|] == others;
    assert runs[..|runs|] == runs && otherRuns[..|otherRuns|] == otherRuns;
  }
}
