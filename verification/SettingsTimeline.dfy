/** What a reader sees of the configuration table: the settings of a device at a time are the
    projection of its newest observation by then. Compaction, in any intermediate state,
    shows every reader the same settings. */
module SettingsTimeline {
  import opened Options
  import opened Compaction

  /** a was observed no earlier than b. */
  predicate AtLeast(a: Row, b: Row) {
    a.at > b.at || (a.at == b.at && a.id >= b.id)
  }

  predicate Visible(row: Row, device: string, t: int) {
    row.device == device && row.at <= t
  }

  ghost predicate IsLatest(rows: set<Row>, device: string, t: int, r: Row) {
    r in rows && Visible(r, device, t)
    && forall o :: o in rows && Visible(o, device, t) ==> AtLeast(r, o)
  }

  /** A reader at time t is shown the settings v for the device. */
  ghost predicate Shows(rows: set<Row>, project: Projection, device: string, t: int, v: Option<string>) {
    exists r :: IsLatest(rows, device, t, r) && project(r.payload) == v
  }

  lemma {:induction false} LatestExists(rows: set<Row>, device: string, t: int, some: Row) returns (r: Row)
    requires some in rows && Visible(some, device, t)
    ensures IsLatest(rows, device, t, r)
    decreases rows
  {
    var rest := rows - {some};
    if o :| o in rest && Visible(o, device, t) {
      var best := LatestExists(rest, device, t, o);
      r := if AtLeast(best, some) then best else some;
    } else {
      r := some;
    }
  }

  // ----- States of a compaction under way -----

  function RowsOf(s: seq<Row>): set<Row> {
    set x | x in s
  }

  /** Other writers append distinct events, newer than every planned one of their device. */
  ghost predicate LaterArrivals(arrivals: set<Row>, s: seq<Row>) {
    (forall a, i :: a in arrivals && 0 <= i < |s| && a.device == s[i].device ==> !AtLeast(s[i], a))
    && forall a, b :: a in arrivals && b in arrivals && a.device == b.device && a.id == b.id ==> a == b
  }

  ghost predicate FromTimeline(x: Row, s: seq<Row>, project: Projection)
    requires ValidRows(s, project)
  {
    x in s || exists r :: 0 <= r < |s| && StartsRun(s, project, r) && x == Target(s[r], project)
  }

  ghost predicate RunPresent(rows: set<Row>, s: seq<Row>, project: Projection, r: nat) {
    forall i :: 0 <= i < |s| && RunStart(s, project, i) == r ==> s[i] in rows
  }

  /** Every run still has all its rows, or already has its target; everything else is arrivals. */
  ghost predicate UnderWay(rows: set<Row>, s: seq<Row>, project: Projection, arrivals: set<Row>)
    requires ValidRows(s, project)
  {
    (forall x :: x in rows ==> x in arrivals || FromTimeline(x, s, project))
    && arrivals <= rows
    && forall r :: 0 <= r < |s| && StartsRun(s, project, r) ==>
         Target(s[r], project) in rows || RunPresent(rows, s, project, r)
  }

  /** The planned row a timeline row stands for: same device, time and id. */
  lemma StandsFor(x: Row, s: seq<Row>, project: Projection) returns (j: nat)
    requires ValidRows(s, project) && FromTimeline(x, s, project) && Idempotent(project)
    ensures j < |s| && x.device == s[j].device && x.at == s[j].at && x.id == s[j].id
    ensures project(x.payload) == project(s[j].payload)
    ensures x != s[j] ==> StartsRun(s, project, j)
  {
    if x in s {
      j :| 0 <= j < |s| && s[j] == x;
    } else {
      j :| 0 <= j < |s| && StartsRun(s, project, j) && x == Target(s[j], project);
    }
  }

  /** The newest planned row a reader sees lies in the run that any newest remaining row is from. */
  lemma SameRun(rows: set<Row>, s: seq<Row>, project: Projection, arrivals: set<Row>, device: string, t: int, i: nat,
                x: Row)
    requires Timeline(s, project) && Idempotent(project) && UnderWay(rows, s, project, arrivals)
    requires i < |s| && Visible(s[i], device, t)
    requires forall k :: i < k < |s| ==> !Visible(s[k], device, t)
    requires IsLatest(rows, device, t, x) && FromTimeline(x, s, project)
    ensures project(x.payload) == project(s[i].payload)
  {
    var j := StandsFor(x, s, project);
    assert Visible(s[j], device, t);
    assert j <= i;
    var r := RunStart(s, project, i);
    RunIsUniform(s, project, i, r);
    // some remaining row of the run of i is visible, and x is at least as new
    var y := if Target(s[r], project) in rows then Target(s[r], project) else s[i];
    assert s[r].at <= s[i].at by {
      assert r < i ==> RowLe(s[r], s[i]);
    }
    assert y in rows && Visible(y, device, t) && AtLeast(x, y);
    assert AtLeast(s[j], s[r]) by {
      assert r < i ==> RowLe(s[r], s[i]);
    }
    assert j < r ==> RowLe(s[j], s[r]);
    assert j >= r;
    RunIsUniform(s, project, i, j);
  }

  /** The newest visible planned row, by position. */
  lemma {:induction false} NewestPlanned(s: seq<Row>, device: string, t: int, j: nat, k: nat) returns (i: nat)
    requires j < k <= |s| && Visible(s[j], device, t)
    ensures j <= i < k && Visible(s[i], device, t)
    ensures forall l :: i < l < k ==> !Visible(s[l], device, t)
    decreases k
  {
    if Visible(s[k - 1], device, t) {
      return k - 1;
    }
    i := NewestPlanned(s, device, t, j, k - 1);
  }

  lemma PlannedOrder(s: seq<Row>, project: Projection, device: string, t: int, i: nat, k: nat)
    requires Timeline(s, project) && i < |s| && k < |s| && Visible(s[i], device, t) && Visible(s[k], device, t)
    requires forall l :: i < l < |s| ==> !Visible(s[l], device, t)
    ensures AtLeast(s[i], s[k])
  {
    if k < i {
      assert RowLe(s[k], s[i]);
    }
  }

  lemma ArrivalsAreNewer(arrivals: set<Row>, s: seq<Row>, x: Row)
    requires LaterArrivals(arrivals, s) && x in arrivals
    ensures forall y :: y in s && y.device == x.device ==> !AtLeast(y, x)
  {
  }

  /** The newest row of the table under way and the newest of all observations show the same
      settings. */
  lemma LatestAgree(rows: set<Row>, s: seq<Row>, project: Projection, arrivals: set<Row>, device: string, t: int,
                    x: Row, y: Row)
    requires Timeline(s, project) && Idempotent(project) && LaterArrivals(arrivals, s)
    requires UnderWay(rows, s, project, arrivals)
    requires IsLatest(rows, device, t, x) && IsLatest(RowsOf(s) + arrivals, device, t, y)
    ensures project(x.payload) == project(y.payload)
  {
    if x in arrivals {
      ArrivalsAreNewer(arrivals, s, x);
      assert y in arrivals;
      assert AtLeast(x, y) && AtLeast(y, x);
    } else {
      var j := StandsFor(x, s, project);
      assert y in arrivals ==> !AtLeast(s[j], y);
      assert y in RowsOf(s);
      var k :| 0 <= k < |s| && s[k] == y;
      var i := NewestPlanned(s, device, t, k, |s|);
      PlannedOrder(s, project, device, t, i, k);
      assert s[i] in RowsOf(s) + arrivals && AtLeast(y, s[i]);
      assert i == k;
      SameRun(rows, s, project, arrivals, device, t, i, x);
    }
  }

  /** Whatever the table still shows, the observations show, and the other way round. */
  lemma VisibilityAgrees(rows: set<Row>, s: seq<Row>, project: Projection, arrivals: set<Row>, device: string, t: int)
    requires Timeline(s, project) && Idempotent(project) && UnderWay(rows, s, project, arrivals)
    ensures (exists x :: x in rows && Visible(x, device, t))
      <==> (exists y :: y in RowsOf(s) + arrivals && Visible(y, device, t))
  {
    if x :| x in rows && Visible(x, device, t) {
      if x !in arrivals {
        var j := StandsFor(x, s, project);
        assert s[j] in RowsOf(s) + arrivals && Visible(s[j], device, t);
      } else {
        assert x in RowsOf(s) + arrivals;
      }
    }
    if y :| y in RowsOf(s) + arrivals && Visible(y, device, t) {
      if y in arrivals {
        assert y in rows;
      } else {
        var i :| 0 <= i < |s| && s[i] == y;
        var r := RunStart(s, project, i);
        RunIsUniform(s, project, i, r);
        assert r < i ==> RowLe(s[r], s[i]);
        var x := if Target(s[r], project) in rows then Target(s[r], project) else s[i];
        assert x in rows && Visible(x, device, t);
      }
    }
  }

  /** The main result: for every device, time and settings value, a reader of a table whose
      compaction is under way is shown it exactly when a reader of all observations is. */
  lemma SettingsUnchanged(rows: set<Row>, s: seq<Row>, project: Projection, arrivals: set<Row>, device: string, t: int,
                          v: Option<string>)
    requires Timeline(s, project) && Idempotent(project) && LaterArrivals(arrivals, s)
    requires UnderWay(rows, s, project, arrivals)
    ensures Shows(rows, project, device, t, v) <==> Shows(RowsOf(s) + arrivals, project, device, t, v)
  {
    VisibilityAgrees(rows, s, project, arrivals, device, t);
    if x :| x in rows && Visible(x, device, t) {
      var y :| y in RowsOf(s) + arrivals && Visible(y, device, t);
      var newest := LatestExists(rows, device, t, x);
      var reference := LatestExists(RowsOf(s) + arrivals, device, t, y);
      forall p, q | IsLatest(rows, device, t, p) && IsLatest(RowsOf(s) + arrivals, device, t, q)
        ensures project(p.payload) == project(q.payload)
      {
        LatestAgree(rows, s, project, arrivals, device, t, p, q);
      }
    }
  }

  /** The compacted timeline shows what the full one shows, at every device and time. */
  lemma CompactPreservesSettings(rows: seq<Row>, project: Projection, device: string, t: int, v: Option<string>)
    requires ValidRows(rows, project) && Idempotent(project)
    ensures ValidRows(Ordered(rows), project)
    ensures Shows(RowsOf(Retained(Ordered(rows), project)), project, device, t, v)
      <==> Shows(RowsOf(rows), project, device, t, v)
  {
    OrderedTimeline(rows, project);
    OrderedSorted(rows);
    var s := Ordered(rows);
    RetainedAreTargets(s, project, |s|);
    assert RowsOf(s) == RowsOf(rows) == RowsOf(s) + {};
    SettingsUnchanged(RowsOf(Retained(s, project)), s, project, {}, device, t, v);
  }
}
