/** The setpoint as a step function of time: the plain lookup of the latest observation, and
    the collapsed list of transitions that the sweeps move a cursor over. */
module TargetTimeline {
  import opened Options
  import opened Sorting

  /** An observed value; a setpoint without one was explicitly unknown. */
  datatype Observation = Observation(at: int, value: Option<real>)

  /** Within one of the windows that a sweep leaves out. */
  predicate Ignored(at: int, windows: seq<(int, int)>) {
    exists i :: 0 <= i < |windows| && windows[i].0 <= at < windows[i].1
  }

  /** The latest observation at or before t; of two for one instant, the later in the list. */
  function Latest(samples: seq<Observation>, t: int): Option<Observation> {
    if samples == [] then None
    else
      var last := samples[|samples| - 1];
      var rest := Latest(samples[..|samples| - 1], t);
      if last.at <= t && (rest == None || rest.value.at <= last.at) then Some(last) else rest
  }

  /** The setpoint in force at t. */
  function ValueOf(latest: Option<Observation>): Option<real> {
    if latest.Some? then latest.value.value else None
  }

  predicate Increasing(s: seq<Observation>) {
    forall i, j :: 0 <= i < j < |s| ==> s[i].at < s[j].at
  }

  predicate InOrder(s: seq<Observation>) {
    forall i, j :: 0 <= i < j < |s| ==> s[i].at <= s[j].at
  }

  /** In a list in time order the latest observation is the last that is not in the future. */
  lemma {:induction false} LatestInOrder(s: seq<Observation>, t: int, k: nat)
    requires InOrder(s) && k <= |s|
    requires (forall i :: 0 <= i < k ==> s[i].at <= t) && forall i :: k <= i < |s| ==> t < s[i].at
    ensures Latest(s, t) == if k == 0 then None else Some(s[k - 1])
  {
    if s != [] {
      var front := s[..|s| - 1];
      if k == |s| {
        LatestInOrder(front, t, k - 1);
      } else {
        LatestInOrder(front, t, k);
      }
    }
  }

  lemma {:induction false} LatestIsSample(s: seq<Observation>, t: int)
    ensures Latest(s, t).Some? ==> Latest(s, t).value in s && Latest(s, t).value.at <= t
  {
    if s != [] {
      LatestIsSample(s[..|s| - 1], t);
    }
  }

  /** How one more observation in front changes the lookup: it must be strictly later. */
  lemma {:induction false} LatestCons(x: Observation, s: seq<Observation>, t: int)
    ensures Latest([x] + s, t) == var rest := Latest(s, t);
      if x.at <= t && (rest == None || rest.value.at < x.at) then Some(x) else rest
  {
    if s == [] {
      assert [x] + s == [x];
      assert Latest([x][..0], t) == None;
    } else {
      LatestCons(x, s[..|s| - 1], t);
      assert ([x] + s)[..|s|] == [x] + s[..|s| - 1];
    }
  }

  predicate AtLe(a: Observation, b: Observation) {
    a.at <= b.at
  }

  lemma {:induction false} LatestInsert(x: Observation, s: seq<Observation>, t: int)
    requires InOrder(s)
    ensures Latest(Insert(AtLe, x, s), t) == Latest([x] + s, t)
  {
    if s != [] && x.at > s[0].at {
      assert s == [s[0]] + s[1..];
      LatestInsert(x, s[1..], t);
      LatestCons(s[0], Insert(AtLe, x, s[1..]), t);
      LatestCons(x, s[1..], t);
      LatestCons(s[0], s[1..], t);
      LatestCons(x, s, t);
    } else if s == [] {
      assert [x] + s == [x];
    }
  }

  lemma SortedInOrder(s: seq<Observation>)
    ensures InOrder(Sort(AtLe, s)) && (s == [] ==> Sort(AtLe, s) == [])
  {
    assert TotalPreorder(AtLe);
    SortSorted(AtLe, s);
  }

  lemma SortCons(s: seq<Observation>)
    requires s != []
    ensures Sort(AtLe, s) == Insert(AtLe, s[0], Sort(AtLe, s[1..]))
  {
  }

  /** A stable sort by time does not change the lookup. */
  lemma {:induction false} LatestSorted(s: seq<Observation>, t: int)
    ensures Latest(Sort(AtLe, s), t) == Latest(s, t) && InOrder(Sort(AtLe, s))
  {
    SortedInOrder(s);
    hide *;
    if s != [] {
      LatestSorted(s[1..], t);
      SortCons(s);
      LatestInsert(s[0], Sort(AtLe, s[1..]), t);
      assert s == [s[0]] + s[1..];
      LatestCons(s[0], s[1..], t);
      LatestCons(s[0], Sort(AtLe, s[1..]), t);
    }
  }

  /** dhw._value_at: the plain lookup, as a scan over the sorted observations. */
  method ValueAt(samples: seq<Observation>, t: int) returns (value: Option<real>)
    ensures value == ValueOf(Latest(samples, t))
  {
    LatestSorted(samples, t);
    var ordered := Sort(AtLe, samples);
    value := None;
    var i := 0;
    while i < |ordered| && ordered[i].at <= t
      invariant 0 <= i <= |ordered| && forall j :: 0 <= j < i ==> ordered[j].at <= t
      invariant value == if i == 0 then None else ordered[i - 1].value
    {
      value := ordered[i].value;
      i := i + 1;
    }
    LatestInOrder(ordered, t, i);
  }

  // ---- Transitions ------------------------------------------------------------------------------

  /** The observations as a dictionary by time, listed in time order: a later one for the same
      instant replaces the earlier. */
  function Entered(ordered: seq<Observation>, x: Observation): seq<Observation> {
    if ordered == [] then [x]
    else
      var last := ordered[|ordered| - 1];
      if last.at < x.at then ordered + [x]
      else if last.at == x.at then ordered[..|ordered| - 1] + [x]
      else Entered(ordered[..|ordered| - 1], x) + [last]
  }

  function ByTime(samples: seq<Observation>): seq<Observation> {
    if samples == [] then [] else Entered(ByTime(samples[..|samples| - 1]), samples[|samples| - 1])
  }

  lemma {:induction false} EnteredIncreasing(ordered: seq<Observation>, x: Observation)
    requires Increasing(ordered)
    ensures Increasing(Entered(ordered, x))
    ensures forall y :: y in Entered(ordered, x) ==> y == x || y in ordered
  {
    if ordered != [] {
      var front, last := ordered[..|ordered| - 1], ordered[|ordered| - 1];
      if last.at > x.at {
        EnteredIncreasing(front, x);
        forall i | 0 <= i < |Entered(front, x)| ensures Entered(front, x)[i].at < last.at {
          assert Entered(front, x)[i] in Entered(front, x);
        }
      }
    }
  }

  lemma {:induction false} LatestEntered(ordered: seq<Observation>, x: Observation, t: int)
    requires Increasing(ordered)
    ensures Latest(Entered(ordered, x), t) == var rest := Latest(ordered, t);
      if x.at <= t && (rest == None || rest.value.at <= x.at) then Some(x) else rest
  {
    if ordered == [] {
      assert Latest([x][..0], t) == None;
    } else {
      var front, last := ordered[..|ordered| - 1], ordered[|ordered| - 1];
      LatestIsSample(front, t);
      if last.at < x.at {
        assert (ordered + [x])[..|ordered|] == ordered;
        LatestIsSample(ordered, t);
      } else if last.at == x.at {
        assert (front + [x])[..|front|] == front;
      } else {
        LatestEntered(front, x, t);
        assert (Entered(front, x) + [last])[..|Entered(front, x)|] == Entered(front, x);
      }
    }
  }

  lemma {:induction false} LatestByTime(samples: seq<Observation>, t: int)
    ensures Increasing(ByTime(samples)) && Latest(ByTime(samples), t) == Latest(samples, t)
  {
    if samples != [] {
      var front := samples[..|samples| - 1];
      LatestByTime(front, t);
      EnteredIncreasing(ByTime(front), samples[|samples| - 1]);
      LatestEntered(ByTime(front), samples[|samples| - 1], t);
    }
  }

  /** Polling duplicates left out: the instants at which the setpoint changes. */
  function Collapsed(ordered: seq<Observation>): seq<Observation> {
    if ordered == [] then []
    else
      var before := Collapsed(ordered[..|ordered| - 1]);
      var last := ordered[|ordered| - 1];
      if before == [] || before[|before| - 1].value != last.value then before + [last] else before
  }

  function Transitions(samples: seq<Observation>): seq<Observation> {
    Collapsed(ByTime(samples))
  }

  /** Each transition changes the value. */
  predicate Changing(s: seq<Observation>) {
    forall i :: 0 <= i < |s| - 1 ==> s[i].value != s[i + 1].value
  }

  lemma FrontEarlier(s: seq<Observation>)
    requires Increasing(s) && s != []
    ensures Increasing(s[..|s| - 1]) && forall x :: x in s[..|s| - 1] ==> x.at < s[|s| - 1].at
  {
  }

  lemma {:induction false} CollapsedMembers(ordered: seq<Observation>)
    ensures forall x :: x in Collapsed(ordered) ==> x in ordered
    ensures Collapsed(ordered) == [] <==> ordered == []
    ensures ordered != [] ==> Collapsed(ordered)[|Collapsed(ordered)| - 1].value == ordered[|ordered| - 1].value
    ensures Changing(Collapsed(ordered))
  {
    if ordered != [] {
      var front, last := ordered[..|ordered| - 1], ordered[|ordered| - 1];
      CollapsedMembers(front);
      assert ordered == front + [last];
    }
  }

  lemma {:induction false} CollapsedFacts(ordered: seq<Observation>)
    requires Increasing(ordered)
    ensures Increasing(Collapsed(ordered)) && Changing(Collapsed(ordered))
    ensures forall x :: x in Collapsed(ordered) ==> x in ordered
    ensures (Collapsed(ordered) == [] <==> ordered == [])
    ensures ordered != [] ==> Collapsed(ordered)[|Collapsed(ordered)| - 1].value == ordered[|ordered| - 1].value
  {
    CollapsedMembers(ordered);
    if ordered != [] {
      hide Changing;
      var front, last := ordered[..|ordered| - 1], ordered[|ordered| - 1];
      FrontEarlier(ordered);
      CollapsedFacts(front);
      Appended(Collapsed(front), last);
    }
  }

  lemma Appended(s: seq<Observation>, last: Observation)
    requires Increasing(s)
    ensures (forall x :: x in s ==> x.at < last.at) ==> Increasing(s + [last])
  {
  }

  lemma {:induction false} LatestCollapsed(ordered: seq<Observation>, t: int)
    requires Increasing(ordered)
    ensures ValueOf(Latest(Collapsed(ordered), t)) == ValueOf(Latest(ordered, t))
    ensures Latest(Collapsed(ordered), t) == None <==> Latest(ordered, t) == None
  {
    CollapsedFacts(ordered);
    if ordered != [] {
      var front, last := ordered[..|ordered| - 1], ordered[|ordered| - 1];
      FrontEarlier(ordered);
      assert ordered == front + [last];
      if last.at <= t {
        hide Latest, Collapsed;
        LatestAllPast(ordered, t);
        LatestAllPast(Collapsed(ordered), t);
      } else {
        hide Increasing, Changing;
        LatestCollapsed(front, t);
        assert (Collapsed(front) + [last])[..|Collapsed(front)|] == Collapsed(front);
      }
    }
  }

  lemma {:induction false} LatestAllPast(s: seq<Observation>, t: int)
    requires Increasing(s) && forall x :: x in s ==> x.at <= t
    ensures Latest(s, t) == if s == [] then None else Some(s[|s| - 1])
  {
    forall i | 0 <= i < |s| ensures s[i].at <= t {
      assert s[i] in s;
    }
    LatestInOrder(s, t, |s|);
  }

  /** The collapsed transitions say the same about every instant as the plain lookup. */
  lemma TransitionsKeepValues(samples: seq<Observation>, t: int)
    ensures ValueOf(Latest(Transitions(samples), t)) == ValueOf(Latest(samples, t))
    ensures Increasing(Transitions(samples)) && Changing(Transitions(samples))
    ensures Transitions(samples) == [] <==> samples == []
  {
    LatestByTime(samples, t);
    LatestCollapsed(ByTime(samples), t);
    CollapsedFacts(ByTime(samples));
    if samples != [] {
      EnteredNotEmpty(ByTime(samples[..|samples| - 1]), samples[|samples| - 1]);
    }
  }

  lemma EnteredNotEmpty(ordered: seq<Observation>, x: Observation)
    ensures Entered(ordered, x) != []
  {
  }

  /** events._target_transitions (metrics and dhw have the same): sort, then collapse. */
  method TargetTransitions(samples: seq<Observation>) returns (result: seq<Observation>)
    ensures result == Transitions(samples)
  {
    var ordered := ByTime(samples);
    result := [];
    var seen := false;
    var previous: Option<real> := None;
    for i := 0 to |ordered|
      invariant result == Collapsed(ordered[..i]) && (seen <==> result != [])
      invariant seen ==> previous == result[|result| - 1].value
    {
      assert ordered[..i + 1][..i] == ordered[..i];
      if !seen || ordered[i].value != previous {
        result := result + [ordered[i]];
        previous := ordered[i].value;
        seen := true;
      }
    }
    assert ordered[..|ordered|] == ordered;
  }

  /** The setpoint that an analysis uses at t: the history where there is one, else the
      current target. */
  function TargetAt(samples: seq<Observation>, fallback: Option<real>, t: int): Option<real> {
    if samples == [] then fallback else ValueOf(Latest(samples, t))
  }

  /** Between two transitions the target does not change. */
  lemma TargetConstant(samples: seq<Observation>, fallback: Option<real>, from: int, t: int)
    requires from <= t && forall i :: 0 <= i < |Transitions(samples)| ==> !(from < Transitions(samples)[i].at <= t)
    ensures TargetAt(samples, fallback, t) == TargetAt(samples, fallback, from)
  {
    TransitionsKeepValues(samples, t);
    TransitionsKeepValues(samples, from);
    var list := Transitions(samples);
    var k := PastCount(list, from);
    LatestInOrder(list, from, k);
    LatestInOrder(list, t, k);
  }

  lemma {:induction false} PastCount(s: seq<Observation>, t: int) returns (k: nat)
    requires Increasing(s)
    ensures k <= |s| && (forall i :: 0 <= i < k ==> s[i].at <= t) && forall i :: k <= i < |s| ==> t < s[i].at
  {
    if s == [] || s[|s| - 1].at <= t {
      k := |s|;
    } else {
      k := PastCount(s[..|s| - 1], t);
    }
  }

  // ---- The moving cursor -------------------------------------------------------------------------

  /** The cursor has passed the first `index` transitions, all of them at or before p. */
  ghost predicate CursorAt(list: seq<Observation>, start: Option<real>, index: nat, current: Option<real>, p: int) {
    index <= |list| && (forall k :: 0 <= k < index ==> list[k].at <= p)
    && current == if index == 0 then start else list[index - 1].value
  }

  lemma CursorStarts(list: seq<Observation>, start: Option<real>, p: int)
    ensures CursorAt(list, start, 0, start, p)
  {
  }

  /** Moved as far as p allows, the cursor shows the target in force at p. */
  lemma CursorIsLookup(targets: seq<Observation>, fallback: Option<real>, index: nat, current: Option<real>, p: int)
    requires CursorAt(Transitions(targets), if targets == [] then fallback else None, index, current, p)
    requires index < |Transitions(targets)| ==> p < Transitions(targets)[index].at
    ensures current == TargetAt(targets, fallback, p)
  {
    TransitionsKeepValues(targets, p);
    LatestInOrder(Transitions(targets), p, index);
  }

  lemma CursorWaits(list: seq<Observation>, start: Option<real>, index: nat, current: Option<real>, p: int, q: int)
    requires CursorAt(list, start, index, current, p) && p <= q
    ensures CursorAt(list, start, index, current, q) && index <= |list|
  {
  }

  /** The while loop that moves the cursor to an instant. */
  method MoveCursor(list: seq<Observation>, ghost start: Option<real>, index: nat, current: Option<real>, p: int)
    returns (next: nat, now: Option<real>)
    requires CursorAt(list, start, index, current, p)
    ensures CursorAt(list, start, next, now, p) && index <= next <= |list|
    ensures next < |list| ==> p < list[next].at
  {
    next, now := index, current;
    while next < |list| && list[next].at <= p
      invariant index <= next <= |list| && CursorAt(list, start, next, now, p)
    {
      now := list[next].value;
      next := next + 1;
    }
  }
}
