/** Run-length compaction of the configuration timeline: one row per change of the projected
    settings of a device. Payloads are texts, and a text's length stands for its byte count. */
module Compaction {
  import opened Options
  import opened Sorting
  import opened KeyOrder

  /** A content hash, seen through its injective encodings: the versioned form carries the
      event id and the digest of a payload, represented by the payload itself. */
  datatype ContentHash = Plain(text: string) | Versioned(eventId: int, digestOf: string)

  datatype Row = Row(device: string, hash: ContentHash, id: int, payload: string, at: int)

  /** The settings projection of a payload, None when the payload is no configuration object. */
  type Projection = string -> Option<string>

  /** Projecting projected settings changes nothing. */
  ghost predicate Idempotent(project: Projection) {
    forall p :: project(p).Some? ==> project(project(p).value) == project(p)
  }

  datatype Compacted = Compacted(retained: seq<Row>, beforeBytes: nat, afterBytes: nat) | Invalid | Duplicate
    | NotObject

  // ----- Order -----

  predicate RowLe(a: Row, b: Row) {
    if a.device != b.device then TextLe(a.device, b.device)
    else a.at < b.at || (a.at == b.at && a.id <= b.id)
  }

  function Ordered(rows: seq<Row>): (r: seq<Row>)
    ensures multiset(r) == multiset(rows) && |r| == |rows|
  {
    Sort(RowLe, rows)
  }

  lemma RowOrderTotal()
    ensures TotalPreorder(RowLe)
  {
    forall a: Row, b: Row ensures RowLe(a, b) || RowLe(b, a) {
      TextTotal(a.device, b.device);
    }
    forall a: Row, b: Row, c: Row | RowLe(a, b) && RowLe(b, c) ensures RowLe(a, c) {
      if a.device != b.device && b.device != c.device {
        TextTransitive(a.device, b.device, c.device);
        if a.device == c.device {
          TextAntisymmetric(a.device, b.device);
        }
      }
    }
  }

  lemma OrderedSorted(rows: seq<Row>)
    ensures SortedBy(RowLe, Ordered(rows))
    ensures forall x :: x in Ordered(rows) <==> x in rows
  {
    RowOrderTotal();
    SortSorted(RowLe, rows);
    SortMembers(RowLe, rows);
  }

  // ----- What a valid export is -----

  ghost predicate DistinctEvents(rows: seq<Row>) {
    forall i, j :: 0 <= i < j < |rows| ==> !(rows[i].device == rows[j].device && rows[i].id == rows[j].id)
  }

  ghost predicate ValidRows(rows: seq<Row>, project: Projection) {
    (forall i :: 0 <= i < |rows| ==> rows[i].at > 0 && project(rows[i].payload).Some?) && DistinctEvents(rows)
  }

  /** Rows sorted strictly: the events are distinct, so no two of them tie. */
  ghost predicate Timeline(s: seq<Row>, project: Projection) {
    SortedBy(RowLe, s) && ValidRows(s, project)
  }

  lemma DistinctByMultiplicity(rows: seq<Row>)
    ensures DistinctEvents(rows)
      <==> (forall x, y :: x in rows && y in rows && x.device == y.device && x.id == y.id ==> x == y)
           && (forall x :: x in rows ==> multiset(rows)[x] == 1)
  {
    if DistinctEvents(rows) {
      forall x | x in rows ensures multiset(rows)[x] == 1 {
        OnceIfDistinct(rows, x);
      }
    } else {
      var i, j :| 0 <= i < j < |rows| && rows[i].device == rows[j].device && rows[i].id == rows[j].id;
      if rows[i] == rows[j] {
        TwiceIfRepeated(rows, i, j);
      }
    }
  }

  lemma {:induction false} OnceIfDistinct(rows: seq<Row>, x: Row)
    requires DistinctEvents(rows) && x in rows
    ensures multiset(rows)[x] == 1
  {
    assert rows == [rows[0]] + rows[1..];
    if x == rows[0] {
      assert forall i :: 0 < i < |rows| ==> rows[i] != x;
      assert x !in rows[1..];
      assert multiset(rows[1..])[x] == 0;
    } else {
      OnceIfDistinct(rows[1..], x);
    }
  }

  lemma TwiceIfRepeated(rows: seq<Row>, i: nat, j: nat)
    requires i < j < |rows| && rows[i] == rows[j]
    ensures multiset(rows)[rows[i]] >= 2
  {
    assert rows == rows[..j] + rows[j..];
    assert rows[i] in rows[..j] && rows[j] in rows[j..];
    assert multiset(rows) == multiset(rows[..j]) + multiset(rows[j..]);
    assert rows[i] in multiset(rows[..j]) && rows[i] in multiset(rows[j..]);
  }

  /** Validity looks at the rows, not at their order. */
  lemma ValidityIgnoresOrder(a: seq<Row>, b: seq<Row>, project: Projection)
    requires multiset(a) == multiset(b)
    ensures ValidRows(a, project) <==> ValidRows(b, project)
  {
    assert forall x :: x in a <==> x in multiset(a);
    assert forall x :: x in b <==> x in multiset(b);
    DistinctByMultiplicity(a);
    DistinctByMultiplicity(b);
  }

  lemma OrderedTimeline(rows: seq<Row>, project: Projection)
    requires ValidRows(rows, project)
    ensures Timeline(Ordered(rows), project)
  {
    OrderedSorted(rows);
    ValidityIgnoresOrder(rows, Ordered(rows), project);
  }

  lemma NoTies(s: seq<Row>, project: Projection)
    requires ValidRows(s, project)
    ensures forall x, y :: x in s && y in s && RowLe(x, y) && RowLe(y, x) ==> x == y
  {
    forall x, y | x in s && y in s && RowLe(x, y) && RowLe(y, x) ensures x == y {
      if x.device != y.device {
        TextAntisymmetric(x.device, y.device);
      }
      var i :| 0 <= i < |s| && s[i] == x;
      var j :| 0 <= j < |s| && s[j] == y;
    }
  }

  // ----- The compacted timeline -----

  /** The first k rows pass every check. */
  ghost predicate PassedTo(s: seq<Row>, project: Projection, k: nat)
    requires k <= |s|
  {
    (forall i :: 0 <= i < k ==> s[i].at > 0 && project(s[i].payload).Some?)
    && forall i, j :: 0 <= i < j < k ==> !(s[i].device == s[j].device && s[i].id == s[j].id)
  }

  /** Row i starts a run: no earlier row of its device, or other projected settings just before. */
  predicate StartsRun(s: seq<Row>, project: Projection, i: nat)
    requires i < |s|
  {
    i == 0 || s[i - 1].device != s[i].device || project(s[i - 1].payload) != project(s[i].payload)
  }

  /** The retained row: the same event with the projected settings and a versioned hash. */
  function Target(row: Row, project: Projection): Row
    requires project(row.payload).Some?
  {
    var payload := project(row.payload).value;
    row.(hash := Versioned(row.id, payload), payload := payload)
  }

  function RetainedTo(s: seq<Row>, project: Projection, k: nat): seq<Row>
    requires k <= |s| && PassedTo(s, project, k)
  {
    if k == 0 then []
    else if StartsRun(s, project, k - 1) then RetainedTo(s, project, k - 1) + [Target(s[k - 1], project)]
    else RetainedTo(s, project, k - 1)
  }

  function Retained(s: seq<Row>, project: Projection): seq<Row>
    requires ValidRows(s, project)
  {
    RetainedTo(s, project, |s|)
  }

  /** What the dictionary of last payloads says after k rows: for a device seen, the projected
      payload of its newest row. In device order that is the row just before. */
  ghost predicate PreviousIs(previous: map<string, string>, s: seq<Row>, project: Projection, k: nat)
    requires k <= |s| && forall i :: 0 <= i < k ==> project(s[i].payload).Some?
  {
    (forall d :: d in previous ==> exists i :: 0 <= i < k && s[i].device == d)
    && (k > 0 ==> s[k - 1].device in previous && previous[s[k - 1].device] == project(s[k - 1].payload).value)
  }

  lemma DeviceBlocks(s: seq<Row>, i: nat, k: nat)
    requires SortedBy(RowLe, s) && i < k < |s| && s[i].device == s[k].device
    ensures s[k - 1].device == s[k].device
  {
    if i < k - 1 && s[k - 1].device != s[k].device {
      assert RowLe(s[i], s[k - 1]) && RowLe(s[k - 1], s[k]);
      TextAntisymmetric(s[i].device, s[k - 1].device);
    }
  }

  ghost predicate IdentitiesOf(identities: set<(string, int)>, s: seq<Row>, k: nat)
    requires k <= |s|
  {
    (forall i :: 0 <= i < k ==> (s[i].device, s[i].id) in identities)
    && forall p :: p in identities ==> exists i :: 0 <= i < k && (s[i].device, s[i].id) == p
  }

  /** The dictionary test of the loop decides exactly whether row k starts a run. */
  lemma DictionaryDecides(previous: map<string, string>, s: seq<Row>, project: Projection, k: nat)
    requires k < |s| && SortedBy(RowLe, s) && PassedTo(s, project, k) && PreviousIs(previous, s, project, k)
    requires project(s[k].payload).Some?
    ensures (s[k].device in previous && previous[s[k].device] == project(s[k].payload).value)
      <==> !StartsRun(s, project, k)
  {
    if s[k].device in previous {
      var i :| 0 <= i < k && s[i].device == s[k].device;
      DeviceBlocks(s, i, k);
    }
  }

  lemma RowRejected(s: seq<Row>, project: Projection, identities: set<(string, int)>, k: nat)
    requires k < |s| && IdentitiesOf(identities, s, k)
    requires s[k].at <= 0 || (s[k].device, s[k].id) in identities || project(s[k].payload) == None
    ensures !ValidRows(s, project)
  {
  }

  lemma RowAccepted(s: seq<Row>, project: Projection, identities: set<(string, int)>, k: nat)
    requires k < |s| && PassedTo(s, project, k) && IdentitiesOf(identities, s, k)
    requires s[k].at > 0 && (s[k].device, s[k].id) !in identities && project(s[k].payload).Some?
    ensures PassedTo(s, project, k + 1) && IdentitiesOf(identities + {(s[k].device, s[k].id)}, s, k + 1)
  {
  }

  lemma PreviousStep(previous: map<string, string>, s: seq<Row>, project: Projection, k: nat)
    requires k < |s| && SortedBy(RowLe, s) && PassedTo(s, project, k + 1) && PreviousIs(previous, s, project, k)
    ensures !StartsRun(s, project, k) ==> PreviousIs(previous, s, project, k + 1)
    ensures PreviousIs(previous[s[k].device := project(s[k].payload).value], s, project, k + 1)
  {
  }

  lemma LoopStarts(s: seq<Row>, project: Projection)
    ensures PassedTo(s, project, 0) && IdentitiesOf({}, s, 0) && PreviousIs(map[], s, project, 0)
    ensures RetainedTo(s, project, 0) == [] && BytesTo(s, 0) == BytesTo([], 0) == 0
  {
  }

  lemma AllPassed(s: seq<Row>, project: Projection)
    requires PassedTo(s, project, |s|)
    ensures ValidRows(s, project) && Retained(s, project) == RetainedTo(s, project, |s|)
  {
  }

  lemma BytesStep(s: seq<Row>, k: nat)
    requires k < |s|
    ensures BytesTo(s, k + 1) == BytesTo(s, k) + |s[k].payload|
  {
  }

  // ----- Payload bytes -----

  /** The payload bytes of the first k rows. */
  function BytesTo(rows: seq<Row>, k: nat): nat
    requires k <= |rows|
  {
    if k == 0 then 0 else BytesTo(rows, k - 1) + |rows[k - 1].payload|
  }

  lemma BytesAppend(batch: seq<Row>, row: Row)
    ensures BytesTo(batch + [row], |batch| + 1) == BytesTo(batch, |batch|) + |row.payload|
  {
    BytesPrefix(batch, batch + [row], |batch|);
  }

  lemma {:induction false} BytesPrefix(a: seq<Row>, b: seq<Row>, k: nat)
    requires k <= |a| && k <= |b| && forall i :: 0 <= i < k ==> a[i] == b[i]
    ensures BytesTo(a, k) == BytesTo(b, k)
  {
    if k > 0 {
      BytesPrefix(a, b, k - 1);
    }
  }

  lemma {:induction false} BytesPrepend(row: Row, s: seq<Row>, k: nat)
    requires k <= |s|
    ensures BytesTo([row] + s, k + 1) == |row.payload| + BytesTo(s, k)
  {
    if k > 0 {
      BytesPrepend(row, s, k - 1);
    }
  }

  lemma InsertHead(row: Row, s: seq<Row>)
    ensures Insert(RowLe, row, s)
      == if s == [] || RowLe(row, s[0]) then [row] + s else [s[0]] + Insert(RowLe, row, s[1..])
  {
    hide RowLe;
    assert s == [] ==> [row] + s == [row];
  }

  lemma {:induction false} BytesInsert(row: Row, s: seq<Row>)
    ensures |Insert(RowLe, row, s)| == |s| + 1
    ensures BytesTo(Insert(RowLe, row, s), |s| + 1) == |row.payload| + BytesTo(s, |s|)
  {
    InsertHead(row, s);
    hide RowLe, Insert, BytesTo;
    BytesPrepend(row, s, |s|);
    if s != [] && !RowLe(row, s[0]) {
      BytesInsert(row, s[1..]);
      BytesPrepend(s[0], Insert(RowLe, row, s[1..]), |s|);
      assert s == [s[0]] + s[1..];
      BytesPrepend(s[0], s[1..], |s| - 1);
    }
  }

  lemma BytesHead(rows: seq<Row>)
    requires rows != []
    ensures BytesTo(rows, |rows|) == |rows[0].payload| + BytesTo(rows[1..], |rows| - 1)
  {
    assert rows == [rows[0]] + rows[1..];
    BytesPrepend(rows[0], rows[1..], |rows| - 1);
  }

  lemma OrderedCons(rows: seq<Row>)
    requires rows != []
    ensures Ordered(rows) == Insert(RowLe, rows[0], Ordered(rows[1..]))
  {
  }

  /** Sorting moves no bytes. */
  lemma {:induction false} BytesOrdered(rows: seq<Row>)
    ensures BytesTo(Ordered(rows), |rows|) == BytesTo(rows, |rows|)
  {
    if rows != [] {
      hide *;
      OrderedCons(rows);
      BytesOrdered(rows[1..]);
      BytesInsert(rows[0], Ordered(rows[1..]));
      BytesHead(rows);
    }
  }

  /** What the loop of compact keeps. */
  ghost predicate CompactedTo(s: seq<Row>, project: Projection, k: nat, identities: set<(string, int)>,
                              previous: map<string, string>, retained: seq<Row>, beforeBytes: nat, afterBytes: nat) {
    k <= |s| && PassedTo(s, project, k) && IdentitiesOf(identities, s, k) && PreviousIs(previous, s, project, k)
    && retained == RetainedTo(s, project, k) && beforeBytes == BytesTo(s, k)
    && afterBytes == BytesTo(retained, |retained|)
  }

  lemma NothingCompacted(s: seq<Row>, project: Projection)
    ensures CompactedTo(s, project, 0, {}, map[], [], 0, 0)
  {
    LoopStarts(s, project);
  }

  lemma RowRefused(s: seq<Row>, project: Projection, k: nat, identities: set<(string, int)>,
                   previous: map<string, string>,
                   retained: seq<Row>, beforeBytes: nat, afterBytes: nat)
    requires k < |s| && CompactedTo(s, project, k, identities, previous, retained, beforeBytes, afterBytes)
    requires s[k].at <= 0 || (s[k].device, s[k].id) in identities || project(s[k].payload) == None
    ensures !ValidRows(s, project)
  {
    hide PassedTo, PreviousIs, IdentitiesOf, ValidRows, RetainedTo, BytesTo;
    RowRejected(s, project, identities, k);
  }

  /** An accepted row: kept when it starts a run. */
  lemma RowTaken(s: seq<Row>, project: Projection, k: nat, identities: set<(string, int)>,
                 previous: map<string, string>,
                 retained: seq<Row>, beforeBytes: nat, afterBytes: nat)
    requires k < |s| && SortedBy(RowLe, s)
    requires CompactedTo(s, project, k, identities, previous, retained, beforeBytes, afterBytes)
    requires s[k].at > 0 && (s[k].device, s[k].id) !in identities && project(s[k].payload).Some?
    ensures var row, payload := s[k], project(s[k].payload).value;
      var more, bytes := identities + {(row.device, row.id)}, beforeBytes + |row.payload|;
      if row.device in previous && previous[row.device] == payload
      then CompactedTo(s, project, k + 1, more, previous, retained, bytes, afterBytes)
      else CompactedTo(s, project, k + 1, more, previous[row.device := payload], retained + [Target(row, project)],
                       bytes, afterBytes + |payload|)
  {
    hide PassedTo, PreviousIs, IdentitiesOf, StartsRun, RetainedTo, BytesTo, SortedBy, RowLe;
    RowAccepted(s, project, identities, k);
    DictionaryDecides(previous, s, project, k);
    PreviousStep(previous, s, project, k);
    RetainedStep(s, project, k + 1);
    BytesStep(s, k);
    BytesAppend(retained, Target(s[k], project));
  }

  lemma AllCompacted(s: seq<Row>, project: Projection, identities: set<(string, int)>, previous: map<string, string>,
                     retained: seq<Row>, beforeBytes: nat, afterBytes: nat)
    requires CompactedTo(s, project, |s|, identities, previous, retained, beforeBytes, afterBytes)
    ensures ValidRows(s, project) && retained == Retained(s, project)
    ensures beforeBytes == BytesTo(s, |s|) && afterBytes == BytesTo(retained, |retained|)
  {
    hide PassedTo, PreviousIs, IdentitiesOf, BytesTo;
    AllPassed(s, project);
  }

  /** The checks of the loop, in their order. */
  function Refusal(row: Row, projected: Option<string>, identities: set<(string, int)>): (error: Option<Compacted>)
    ensures error.Some? <==> row.at <= 0 || (row.device, row.id) in identities || projected == None
    ensures error.Some? ==> !error.value.Compacted?
  {
    if row.at <= 0 then Some(Invalid)
    else if (row.device, row.id) in identities then Some(Duplicate)
    else if projected == None then Some(NotObject)
    else None
  }

  /** The part of the loop that keeps a row with new settings. */
  method KeepChange(row: Row, payload: string, ghost project: Projection, previous: map<string, string>,
                    retained: seq<Row>,
                    afterBytes: nat)
    returns (current: map<string, string>, kept: seq<Row>, bytes: nat)
    requires project(row.payload) == Some(payload)
    ensures row.device in previous && previous[row.device] == payload ==>
      current == previous && kept == retained && bytes == afterBytes
    ensures !(row.device in previous && previous[row.device] == payload) ==>
      current == previous[row.device := payload] && kept == retained + [Target(row, project)]
      && bytes == afterBytes + |payload|
  {
    current, kept, bytes := previous, retained, afterBytes;
    if !(row.device in previous && previous[row.device] == payload) {
      kept := kept + [row.(hash := Versioned(row.id, payload), payload := payload)];
      bytes := bytes + |payload|;
      current := current[row.device := payload];
    }
  }

  /** The loop of compact, over the sorted rows. */
  method CompactOrdered(ordered: seq<Row>, project: Projection) returns (r: Compacted)
    requires SortedBy(RowLe, ordered)
    ensures r.Compacted? <==> ValidRows(ordered, project)
    ensures r.Compacted? ==> r.retained == Retained(ordered, project)
    ensures r.Compacted? ==>
      r.beforeBytes == BytesTo(ordered, |ordered|) && r.afterBytes == BytesTo(r.retained, |r.retained|)
  {
    var previous: map<string, string> := map[];
    var retained: seq<Row> := [];
    var beforeBytes: nat, afterBytes: nat := 0, 0;
    var identities: set<(string, int)> := {};
    hide *;
    NothingCompacted(ordered, project);
    for k := 0 to |ordered|
      invariant CompactedTo(ordered, project, k, identities, previous, retained, beforeBytes, afterBytes)
    {
      var row := ordered[k];
      var projected := project(row.payload);
      var refusal := Refusal(row, projected, identities);
      if refusal.Some? {
        RowRefused(ordered, project, k, identities, previous, retained, beforeBytes, afterBytes);
        return refusal.value;
      }
      var payload := projected.value;
      RowTaken(ordered, project, k, identities, previous, retained, beforeBytes, afterBytes);
      identities := identities + {(row.device, row.id)};
      beforeBytes := beforeBytes + |row.payload|;
      previous, retained, afterBytes := KeepChange(row, payload, project, previous, retained, afterBytes);
    }
    AllCompacted(ordered, project, identities, previous, retained, beforeBytes, afterBytes);
    return Compacted(retained, beforeBytes, afterBytes);
  }

  /** compact_configuration_export.compact. */
  method Compact(rows: seq<Row>, project: Projection) returns (r: Compacted)
    ensures r.Compacted? <==> ValidRows(rows, project)
    ensures r.Compacted? ==> Timeline(Ordered(rows), project) && r.retained == Retained(Ordered(rows), project)
    ensures r.Compacted? ==> r.beforeBytes == BytesTo(rows, |rows|) && r.afterBytes == BytesTo(r.retained, |r.retained|)
  {
    var ordered := Ordered(rows);
    BytesOrdered(rows);
    OrderedSorted(rows);
    ValidityIgnoresOrder(rows, ordered, project);
    r := CompactOrdered(ordered, project);
  }

  /** The result does not depend on the order of the input. */
  lemma CompactIgnoresOrder(a: seq<Row>, b: seq<Row>, project: Projection)
    requires multiset(a) == multiset(b) && ValidRows(a, project)
    ensures Ordered(a) == Ordered(b)
  {
    OrderedTimeline(a, project);
    OrderedSorted(b);
    RowOrderTotal();
    NoTies(Ordered(a), project);
    SortedUnique(RowLe, Ordered(a), Ordered(b));
  }

  // ----- Runs -----

  /** Where the run containing row i starts. */
  ghost function RunStart(s: seq<Row>, project: Projection, i: nat): (r: nat)
    requires i < |s|
    ensures r <= i && StartsRun(s, project, r)
  {
    if StartsRun(s, project, i) then i else RunStart(s, project, i - 1)
  }

  /** A run is one device and one projected settings value. */
  lemma {:induction false} RunIsUniform(s: seq<Row>, project: Projection, i: nat, j: nat)
    requires i < |s| && RunStart(s, project, i) <= j <= i
    ensures RunStart(s, project, j) == RunStart(s, project, i)
    ensures s[j].device == s[i].device && project(s[j].payload) == project(s[i].payload)
  {
    if j < i {
      RunIsUniform(s, project, i - 1, j);
    }
  }

  lemma PassedBefore(s: seq<Row>, project: Projection, k: nat)
    requires 0 < k <= |s| && PassedTo(s, project, k)
    ensures PassedTo(s, project, k - 1) && project(s[k - 1].payload).Some?
  {
  }

  lemma RetainedStep(s: seq<Row>, project: Projection, k: nat)
    requires 0 < k <= |s| && PassedTo(s, project, k)
    ensures RetainedTo(s, project, k)
      == if StartsRun(s, project, k - 1) then RetainedTo(s, project, k - 1) + [Target(s[k - 1], project)]
        else RetainedTo(s, project, k - 1)
  {
  }

  lemma FirstStarts(s: seq<Row>, project: Projection)
    requires |s| > 0
    ensures StartsRun(s, project, 0)
  {
  }

  lemma TargetKept(row: Row, project: Projection)
    requires project(row.payload).Some? && Idempotent(project)
    ensures project(Target(row, project).payload).Some? && Target(row, project).at == row.at
    ensures Target(row, project).device == row.device && Target(row, project).id == row.id
  {
  }

  lemma PassedRow(s: seq<Row>, project: Projection, i: nat, k: nat)
    requires i < k <= |s| && PassedTo(s, project, k)
    ensures s[i].at > 0 && project(s[i].payload).Some?
  {
  }

  lemma NothingRetained(s: seq<Row>, project: Projection)
    ensures PassedTo(s, project, 0) && RetainedTo(s, project, 0) == [] && Timeline([], project)
  {
  }

  /** The retained rows are exactly the targets of the run starts. */
  lemma {:induction false} RetainedAreTargets(s: seq<Row>, project: Projection, k: nat)
    requires k <= |s| && PassedTo(s, project, k)
    ensures forall r :: 0 <= r < k && StartsRun(s, project, r) ==> Target(s[r], project) in RetainedTo(s, project, k)
    ensures forall x :: x in RetainedTo(s, project, k) ==>
      exists r :: 0 <= r < k && StartsRun(s, project, r) && x == Target(s[r], project)
    ensures k > 0 ==> |RetainedTo(s, project, k)| > 0
  {
    hide *;
    NothingRetained(s, project);
    if k > 0 {
      PassedBefore(s, project, k);
      RetainedAreTargets(s, project, k - 1);
      RetainedStep(s, project, k);
      FirstStarts(s, project);
      forall r | 0 <= r < k ensures project(s[r].payload).Some? {
        PassedRow(s, project, r, k);
      }
      var before := RetainedTo(s, project, k - 1);
      forall x | x in RetainedTo(s, project, k)
        ensures exists r :: 0 <= r < k && StartsRun(s, project, r) && x == Target(s[r], project)
      {
        if x in before {
          var r :| 0 <= r < k - 1 && StartsRun(s, project, r) && x == Target(s[r], project);
        }
      }
    }
  }

  /** The newest retained row carries the newest observation's device and settings. */
  lemma {:induction false} RetainedEndsCurrent(s: seq<Row>, project: Projection, k: nat)
    requires 0 < k <= |s| && PassedTo(s, project, k)
    ensures var r := RetainedTo(s, project, k);
      |r| > 0 && r[|r| - 1].device == s[k - 1].device && Some(r[|r| - 1].payload) == project(s[k - 1].payload)
  {
    if !StartsRun(s, project, k - 1) {
      RetainedEndsCurrent(s, project, k - 1);
    }
  }

  /** No two consecutive retained rows of a device carry the same settings. */
  lemma {:induction false} NoConsecutiveRepeats(s: seq<Row>, project: Projection, k: nat)
    requires k <= |s| && PassedTo(s, project, k)
    ensures forall i :: 0 < i < |RetainedTo(s, project, k)| ==>
      RetainedTo(s, project, k)[i - 1].device != RetainedTo(s, project, k)[i].device
      || RetainedTo(s, project, k)[i - 1].payload != RetainedTo(s, project, k)[i].payload
  {
    if k > 0 {
      NoConsecutiveRepeats(s, project, k - 1);
      if k > 1 {
        RetainedEndsCurrent(s, project, k - 1);
      }
    }
  }

  lemma AppendTimeline(s: seq<Row>, last: Row, project: Projection)
    requires Timeline(s, project) && last.at > 0 && project(last.payload).Some?
    requires forall i :: 0 <= i < |s| ==> RowLe(s[i], last) && !(s[i].device == last.device && s[i].id == last.id)
    ensures Timeline(s + [last], project)
  {
  }

  /** The compacted rows form a valid, sorted timeline again. */
  lemma {:induction false} RetainedTimeline(s: seq<Row>, project: Projection, k: nat)
    requires k <= |s| && Timeline(s, project) && PassedTo(s, project, k) && Idempotent(project)
    ensures Timeline(RetainedTo(s, project, k), project)
  {
    hide *;
    NothingRetained(s, project);
    if k > 0 {
      PassedBefore(s, project, k);
      RetainedTimeline(s, project, k - 1);
      RetainedStep(s, project, k);
      if StartsRun(s, project, k - 1) {
        var before, last := RetainedTo(s, project, k - 1), Target(s[k - 1], project);
        TargetKept(s[k - 1], project);
        PassedRow(s, project, k - 1, k);
        forall i | 0 <= i < |before|
          ensures RowLe(before[i], last) && !(before[i].device == last.device && before[i].id == last.id)
        {
          RetainedIsEarlier(s, project, k - 1, before[i]);
        }
        AppendTimeline(before, last, project);
      }
    }
  }

  lemma RetainedIsEarlier(s: seq<Row>, project: Projection, k: nat, x: Row)
    requires k < |s| && Timeline(s, project) && PassedTo(s, project, k) && x in RetainedTo(s, project, k)
    ensures RowLe(x, Target(s[k], project)) && !(x.device == s[k].device && x.id == s[k].id)
  {
    RetainedAreTargets(s, project, k);
    var r :| 0 <= r < k && StartsRun(s, project, r) && x == Target(s[r], project);
    assert RowLe(s[r], s[k]);
  }

  /** A row that starts a run and is its own target. */
  ghost predicate Settled(s: seq<Row>, project: Projection, i: nat)
    requires i < |s|
  {
    StartsRun(s, project, i) && project(s[i].payload).Some? && Target(s[i], project) == s[i]
  }

  /** On a timeline of settled rows nothing changes. */
  lemma {:induction false} FixedPoint(s: seq<Row>, project: Projection, k: nat)
    requires k <= |s| && PassedTo(s, project, k)
    requires forall i :: 0 <= i < k ==> Settled(s, project, i)
    ensures RetainedTo(s, project, k) == s[..k]
  {
    if k > 0 {
      FixedPoint(s, project, k - 1);
      assert Settled(s, project, k - 1);
      assert s[..k] == s[..k - 1] + [s[k - 1]];
    }
  }

  /** Compacting a compacted timeline returns it unchanged, when projecting is idempotent. */
  lemma CompactIdempotent(rows: seq<Row>, project: Projection)
    requires ValidRows(rows, project) && Idempotent(project)
    ensures ValidRows(Ordered(rows), project)
    ensures var once := Retained(Ordered(rows), project);
      ValidRows(once, project) && Ordered(once) == once && Retained(once, project) == once
  {
    OrderedTimeline(rows, project);
    var s := Ordered(rows);
    var once := Retained(s, project);
    RetainedTimeline(s, project, |s|);
    OrderedSorted(once);
    RowOrderTotal();
    NoTies(once, project);
    SortedUnique(RowLe, once, Ordered(once));
    NoConsecutiveRepeats(s, project, |s|);
    RetainedAreTargets(s, project, |s|);
    forall i | 0 <= i < |once| ensures Settled(once, project, i) {
      SettledRow(s, project, once[i]);
      if i > 0 {
        SettledRow(s, project, once[i - 1]);
      }
    }
    FixedPoint(once, project, |once|);
  }

  lemma SettledRow(s: seq<Row>, project: Projection, x: Row)
    requires ValidRows(s, project) && Idempotent(project) && x in Retained(s, project)
    ensures project(x.payload) == Some(x.payload) && Target(x, project) == x
  {
    RetainedAreTargets(s, project, |s|);
    var r :| 0 <= r < |s| && StartsRun(s, project, r) && x == Target(s[r], project);
  }
}
