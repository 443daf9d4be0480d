/** Order statistics of integer durations. */
module Statistics {
  import opened Sorting

  predicate IntLe(a: int, b: int) {
    a <= b
  }

  function Median(values: seq<int>): real
    requires values != []
  {
    var sorted := Sort(IntLe, values);
    if |sorted| % 2 == 1 then sorted[|sorted| / 2] as real
    else (sorted[|sorted| / 2 - 1] + sorted[|sorted| / 2]) as real / 2.0
  }

  /** Half of the values lie at or below the median and half at or above: it is the middle value,
      or halfway between the two middle ones. */
  lemma MedianIsMiddle(values: seq<int>)
    requires values != []
    ensures var s := Sort(IntLe, values);
      SortedBy(IntLe, s) && multiset(s) == multiset(values)
      && Median(values) * 2.0 == (s[(|s| - 1) / 2] + s[|s| / 2]) as real
      && (forall i :: 0 <= i <= (|s| - 1) / 2 ==> s[i] as real <= Median(values))
      && forall i :: |s| / 2 <= i < |s| ==> s[i] as real >= Median(values)
  {
    IntOrder();
    SortSorted(IntLe, values);
    var s := Sort(IntLe, values);
    TwiceMedian(values);
    hide *;
    InOrder(s);
    Halfway(s[(|s| - 1) / 2], s[|s| / 2], Median(values));
  }

  lemma IntOrder()
    ensures TotalPreorder(IntLe)
  {
  }

  lemma TwiceMedian(values: seq<int>)
    requires values != []
    ensures var s := Sort(IntLe, values); Median(values) * 2.0 == (s[(|s| - 1) / 2] + s[|s| / 2]) as real
  {
    hide Sort;
    var n := |values|;
    assert n % 2 == 1 ==> (n - 1) / 2 == n / 2;
    assert n % 2 == 0 ==> (n - 1) / 2 == n / 2 - 1;
  }

  lemma InOrder(s: seq<int>)
    requires SortedBy(IntLe, s)
    ensures forall i, j :: 0 <= i <= j < |s| ==> s[i] <= s[j]
  {
    forall i, j | 0 <= i <= j < |s| ensures s[i] <= s[j] {
      assert i < j ==> IntLe(s[i], s[j]);
    }
  }

  lemma Halfway(a: int, b: int, m: real)
    requires a <= b && m * 2.0 == (a + b) as real
    ensures a as real <= m <= b as real
  {
  }

  /** The differences between neighbours. */
  function Gaps<T>(at: T -> int, s: seq<T>): (gaps: seq<int>)
    ensures |gaps| == if s == [] then 0 else |s| - 1
  {
    if |s| < 2 then []
    else Gaps(at, s[..|s| - 1]) + [at(s[|s| - 1]) - at(s[|s| - 2])]
  }

  lemma {:induction false} GapsAre<T>(at: T -> int, s: seq<T>, i: nat)
    requires i + 1 < |s|
    ensures Gaps(at, s)[i] == at(s[i + 1]) - at(s[i])
  {
    if i + 2 < |s| {
      GapsAre(at, s[..|s| - 1], i);
    }
  }

  function Positive(values: seq<int>): seq<int> {
    if values == [] then []
    else
      var last := values[|values| - 1];
      Positive(values[..|values| - 1]) + if last > 0 then [last] else []
  }

  function Minimum(values: seq<int>): int
    requires values != []
  {
    if |values| == 1 then values[0]
    else
      var rest := Minimum(values[1..]);
      if rest < values[0] then rest else values[0]
  }
}
