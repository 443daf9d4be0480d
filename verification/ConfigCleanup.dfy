/** The byte-fenced cleanup of the configuration table: a private plan, applied in bounded
    transactions that other writers may interleave with and that may stop anywhere. */
module ConfigCleanup {
  import opened Options
  import opened Compaction
  import opened SettingsTimeline

  const MAX_BYTES: nat := 2 * 1024 * 1024

  type Identity = (string, ContentHash)

  function IdentityOf(row: Row): Identity {
    (row.device, row.hash)
  }

  type Table = map<Identity, Row>

  ghost predicate Keyed(rows: Table) {
    forall k :: k in rows ==> IdentityOf(rows[k]) == k
  }

  /** The table holds exactly this row, byte for byte. */
  predicate Holds(rows: Table, x: Row) {
    IdentityOf(x) in rows && rows[IdentityOf(x)] == x
  }

  lemma HoldsIsMembership(rows: Table)
    requires Keyed(rows)
    ensures forall x :: x in rows.Values <==> Holds(rows, x)
  {
  }

  // ----- The plan -----

  datatype Event = Event(target: Row, sources: seq<Row>)

  datatype Plan = Plan(sourceRows: seq<Row>, events: seq<Event>)

  datatype Planning = Planned(plan: Plan) | PlanRefused

  ghost predicate DistinctKeys(rows: seq<Row>) {
    forall i, j :: 0 <= i < j < |rows| ==> IdentityOf(rows[i]) != IdentityOf(rows[j])
  }

  ghost predicate Plannable(rows: seq<Row>, project: Projection) {
    ValidRows(rows, project) && DistinctKeys(rows)
    && forall i :: 0 <= i < |rows| ==> |rows[i].payload| <= MAX_BYTES
  }

  /** The runs of the first k rows: each with its target and its source rows. */
  function EventsTo(s: seq<Row>, project: Projection, k: nat): (events: seq<Event>)
    requires k <= |s| && PassedTo(s, project, k)
    ensures k > 0 ==> |events| > 0
  {
    if k == 0 then []
    else
      var before, row := EventsTo(s, project, k - 1), s[k - 1];
      if StartsRun(s, project, k - 1) then before + [Event(Target(row, project), [row])]
      else before[..|before| - 1] + [Event(before[|before| - 1].target, before[|before| - 1].sources + [row])]
  }

  function FlattenTo(events: seq<Event>, k: nat): seq<Row>
    requires k <= |events|
  {
    if k == 0 then [] else FlattenTo(events, k - 1) + events[k - 1].sources
  }

  /** The event is the run that starts at lo: its target, and the rows lo..hi, all of one
      device and all projecting to the target's payload. */
  ghost predicate Spans(e: Event, s: seq<Row>, project: Projection, lo: nat, hi: nat) {
    lo < hi <= |s| && StartsRun(s, project, lo) && e.sources == s[lo..hi]
    && project(s[lo].payload).Some? && e.target == Target(s[lo], project)
    && forall i :: lo <= i < hi ==>
         RunStart(s, project, i) == lo && s[i].device == e.target.device
           && project(s[i].payload) == Some(e.target.payload)
  }

  ghost predicate IsRun(e: Event, s: seq<Row>, project: Projection) {
    exists lo, hi :: Spans(e, s, project, lo, hi)
  }

  lemma SpanStarts(s: seq<Row>, project: Projection, k: nat)
    requires k < |s| && StartsRun(s, project, k) && project(s[k].payload).Some?
    ensures Spans(Event(Target(s[k], project), [s[k]]), s, project, k, k + 1)
  {
  }

  lemma SpanExtends(e: Event, s: seq<Row>, project: Projection, lo: nat, k: nat)
    requires k < |s| && !StartsRun(s, project, k) && Spans(e, s, project, lo, k)
    ensures Spans(Event(e.target, e.sources + [s[k]]), s, project, lo, k + 1)
  {
    assert RunStart(s, project, k) == RunStart(s, project, k - 1) == lo;
  }

  lemma EventsStep(s: seq<Row>, project: Projection, k: nat)
    requires 0 < k <= |s| && PassedTo(s, project, k)
    ensures var before, events := EventsTo(s, project, k - 1), EventsTo(s, project, k);
      && |events| == |before| + (if StartsRun(s, project, k - 1) then 1 else 0)
      && |events| > 0
      && (forall i :: 0 <= i < |events| - 1 ==> events[i] == before[i])
      && (StartsRun(s, project, k - 1) ==>
            events[|events| - 1] == Event(Target(s[k - 1], project), [s[k - 1]]))
      && (!StartsRun(s, project, k - 1) ==>
            k > 1 && before[|before| - 1].target == events[|events| - 1].target
            && before[|before| - 1].sources + [s[k - 1]] == events[|events| - 1].sources)
  {
  }

  lemma {:induction false} LastEventSpans(s: seq<Row>, project: Projection, k: nat) returns (lo: nat)
    requires 0 < k <= |s| && PassedTo(s, project, k)
    ensures Spans(EventsTo(s, project, k)[|EventsTo(s, project, k)| - 1], s, project, lo, k)
  {
    hide EventsTo, Spans, StartsRun, Target, PassedTo;
    PassedBefore(s, project, k);
    EventsStep(s, project, k);
    if StartsRun(s, project, k - 1) {
      SpanStarts(s, project, k - 1);
      lo := k - 1;
    } else {
      lo := LastEventSpans(s, project, k - 1);
      var before, events := EventsTo(s, project, k - 1), EventsTo(s, project, k);
      SpanExtends(before[|before| - 1], s, project, lo, k - 1);
      assert events[|events| - 1] == Event(before[|before| - 1].target, before[|before| - 1].sources + [s[k - 1]]);
    }
  }

  lemma {:induction false} EventsAreRuns(s: seq<Row>, project: Projection, k: nat)
    requires k <= |s| && PassedTo(s, project, k)
    ensures forall i :: 0 <= i < |EventsTo(s, project, k)| ==> IsRun(EventsTo(s, project, k)[i], s, project)
  {
    if k > 0 {
      hide EventsTo, Spans, StartsRun, Target, PassedTo;
      PassedBefore(s, project, k);
      EventsAreRuns(s, project, k - 1);
      EventsStep(s, project, k);
      var lo := LastEventSpans(s, project, k);
      var before, events := EventsTo(s, project, k - 1), EventsTo(s, project, k);
      forall i | 0 <= i < |events| ensures IsRun(events[i], s, project) {
        if i < |events| - 1 {
          assert events[i] == before[i];
        }
      }
    }
  }

  /** The plan's events partition the sorted rows, in order. */
  lemma {:induction false} EventsPartition(s: seq<Row>, project: Projection, k: nat)
    requires k <= |s| && PassedTo(s, project, k)
    ensures FlattenTo(EventsTo(s, project, k), |EventsTo(s, project, k)|) == s[..k]
  {
    if k > 0 {
      hide *;
      PassedBefore(s, project, k);
      EventsPartition(s, project, k - 1);
      EventsStep(s, project, k);
      var before, events := EventsTo(s, project, k - 1), EventsTo(s, project, k);
      OneMoreRow(s, k);
      if StartsRun(s, project, k - 1) {
        FlattenJoins(before, events, s[k - 1]);
      } else {
        FlattenGrows(before, events, s[k - 1]);
      }
    }
  }

  lemma OneMoreRow(s: seq<Row>, k: nat)
    requires 0 < k <= |s|
    ensures s[..k] == s[..k - 1] + [s[k - 1]]
  {
  }

  lemma {:induction false} FlattenJoins(before: seq<Event>, events: seq<Event>, row: Row)
    requires |events| == |before| + 1 && forall i :: 0 <= i < |before| ==> events[i] == before[i]
    requires events[|before|].sources == [row]
    ensures FlattenTo(events, |events|) == FlattenTo(before, |before|) + [row]
  {
    FlattenPrefix(before, events, |before|);
  }

  lemma {:induction false} FlattenGrows(before: seq<Event>, events: seq<Event>, row: Row)
    requires |events| == |before| > 0 && forall i :: 0 <= i < |before| - 1 ==> events[i] == before[i]
    requires events[|events| - 1].sources == before[|before| - 1].sources + [row]
    ensures FlattenTo(events, |events|) == FlattenTo(before, |before|) + [row]
  {
    FlattenPrefix(before, events, |before| - 1);
  }

  /** The plan's targets are exactly the compacted timeline. */
  lemma {:induction false} EventsMatchRetained(s: seq<Row>, project: Projection, k: nat)
    requires k <= |s| && PassedTo(s, project, k)
    ensures |EventsTo(s, project, k)| == |RetainedTo(s, project, k)|
    ensures forall i :: 0 <= i < |EventsTo(s, project, k)| ==>
      EventsTo(s, project, k)[i].target == RetainedTo(s, project, k)[i]
  {
    if k > 0 {
      hide *;
      PassedBefore(s, project, k);
      EventsMatchRetained(s, project, k - 1);
      EventsStep(s, project, k);
      RetainedStep(s, project, k);
      MatchStep(EventsTo(s, project, k - 1), EventsTo(s, project, k), RetainedTo(s, project, k - 1),
                RetainedTo(s, project, k));
    }
  }

  lemma MatchStep(before: seq<Event>, events: seq<Event>, rows: seq<Row>, next: seq<Row>)
    requires |before| == |rows| && forall i :: 0 <= i < |rows| ==> before[i].target == rows[i]
    requires forall i :: 0 <= i < |events| - 1 ==> i < |before| && events[i] == before[i]
    requires (next == rows && |events| == |rows| > 0 && before[|before| - 1].target == events[|events| - 1].target)
             || (|events| == |rows| + 1 && next == rows + [events[|rows|].target])
    ensures |events| == |next| && forall i :: 0 <= i < |next| ==> events[i].target == next[i]
  {
  }

  lemma {:induction false} FlattenPrefix(a: seq<Event>, b: seq<Event>, k: nat)
    requires k <= |a| && k <= |b| && forall i :: 0 <= i < k ==> a[i] == b[i]
    ensures FlattenTo(a, k) == FlattenTo(b, k)
  {
    if k > 0 {
      FlattenPrefix(a, b, k - 1);
    }
  }

  ghost predicate IsPlan(plan: Plan, project: Projection) {
    Plannable(plan.sourceRows, project) && Ordered(plan.sourceRows) == plan.sourceRows
    && plan.events == EventsTo(plan.sourceRows, project, |plan.sourceRows|)
  }

  lemma PlannableIgnoresOrder(a: seq<Row>, b: seq<Row>, project: Projection)
    requires multiset(a) == multiset(b) && Plannable(a, project)
    ensures Plannable(b, project)
  {
    ValidityIgnoresOrder(a, b, project);
    assert forall x :: x in b ==> x in multiset(b) && x in multiset(a) && x in a;
    DistinctByMultiplicity(b);
    forall i, j | 0 <= i < j < |b| ensures IdentityOf(b[i]) != IdentityOf(b[j]) {
      assert b[i] in a && b[j] in a;
      var p :| 0 <= p < |a| && a[p] == b[i];
      var q :| 0 <= q < |a| && a[q] == b[j];
      assert p != q;
    }
  }

  /** cleanup_configuration_snapshots.plan_configuration_cleanup: the loop over the sorted rows
      pairs each run with the next compacted row. */
  method PlanCleanup(rows: seq<Row>, project: Projection) returns (r: Planning)
    ensures r.Planned? <==> Plannable(rows, project)
    ensures r.Planned? ==> IsPlan(r.plan, project) && r.plan.sourceRows == Ordered(rows)
  {
    var checked := CheckRows(rows);
    if !checked {
      return PlanRefused;
    }
    var compacted := Compact(rows, project);
    if !compacted.Compacted? {
      return PlanRefused;
    }
    var targets, source := compacted.retained, Ordered(rows);
    PlannableIgnoresOrder(rows, source, project);
    OrderedSorted(rows);
    OrderedStable(rows, project);
    var events := PairRuns(source, targets, project);
    return Planned(Plan(source, events));
  }

  lemma OrderedStable(rows: seq<Row>, project: Projection)
    requires ValidRows(rows, project)
    ensures Ordered(Ordered(rows)) == Ordered(rows)
  {
    CompactIgnoresOrder(rows, Ordered(rows), project);
  }

  /** The size and primary-key checks on the export. */
  method CheckRows(rows: seq<Row>) returns (ok: bool)
    ensures ok <==> DistinctKeys(rows) && forall i :: 0 <= i < |rows| ==> |rows[i].payload| <= MAX_BYTES
  {
    var identities: set<Identity> := {};
    for i := 0 to |rows|
      invariant forall j :: 0 <= j < i ==> |rows[j].payload| <= MAX_BYTES && IdentityOf(rows[j]) in identities
      invariant forall k :: k in identities ==> exists j :: 0 <= j < i && IdentityOf(rows[j]) == k
      invariant forall j, k :: 0 <= j < k < i ==> IdentityOf(rows[j]) != IdentityOf(rows[k])
    {
      if |rows[i].payload| > MAX_BYTES || IdentityOf(rows[i]) in identities {
        return false;
      }
      identities := identities + {IdentityOf(rows[i])};
    }
    return true;
  }

  lemma TargetIsNext(s: seq<Row>, project: Projection, k: nat)
    requires k < |s| && PassedTo(s, project, |s|) && PassedTo(s, project, k) && StartsRun(s, project, k)
    ensures |RetainedTo(s, project, k)| < |RetainedTo(s, project, |s|)|
    ensures RetainedTo(s, project, |s|)[|RetainedTo(s, project, k)|] == Target(s[k], project)
  {
    RetainedGrows(s, project, k + 1, |s|);
  }

  lemma {:induction false} RetainedGrows(s: seq<Row>, project: Projection, k: nat, n: nat)
    requires k <= n <= |s| && PassedTo(s, project, n) && PassedTo(s, project, k)
    ensures |RetainedTo(s, project, k)| <= |RetainedTo(s, project, n)|
    ensures forall i :: 0 <= i < |RetainedTo(s, project, k)| ==>
      RetainedTo(s, project, n)[i] == RetainedTo(s, project, k)[i]
    decreases n
  {
    if k < n {
      RetainedGrows(s, project, k, n - 1);
    }
  }

  lemma LastEventDecides(s: seq<Row>, project: Projection, k: nat)
    requires 0 < k < |s| && PassedTo(s, project, k) && project(s[k].payload).Some?
    ensures var events := EventsTo(s, project, k);
      (events[|events| - 1].target.device != s[k].device
       || Some(events[|events| - 1].target.payload) != project(s[k].payload))
      <==> StartsRun(s, project, k)
  {
    var lo := LastEventSpans(s, project, k);
    assert RunStart(s, project, k - 1) == lo;
    RunIsUniform(s, project, k - 1, lo);
  }

  method PairRuns(source: seq<Row>, targets: seq<Row>, project: Projection) returns (events: seq<Event>)
    requires PassedTo(source, project, |source|) && targets == RetainedTo(source, project, |source|)
    ensures events == EventsTo(source, project, |source|)
  {
    hide StartsRun, RetainedTo, Target, EventsTo;
    events := [];
    var index := 0;
    NoEvents(source, project);
    for k := 0 to |source|
      invariant PassedTo(source, project, k) && events == EventsTo(source, project, k)
      invariant index == |events| == |RetainedTo(source, project, k)|
    {
      var row := source[k];
      var projected := project(row.payload).value;
      EventsMatchRetained(source, project, k);
      EventsMatchRetained(source, project, k + 1);
      if k > 0 {
        LastEventDecides(source, project, k);
      } else {
        FirstStarts(source, project);
      }
      if events == [] || events[|events| - 1].target.device != row.device
         || events[|events| - 1].target.payload != projected {
        TargetIsNext(source, project, k);
        events := events + [Event(targets[index], [])];
        index := index + 1;
      }
      var last := |events| - 1;
      events := events[..last] + [Event(events[last].target, events[last].sources + [row])];
      EventsStep(source, project, k + 1);
      forall i | 0 <= i < |events| ensures events[i] == EventsTo(source, project, k + 1)[i] {
      }
    }
  }

  lemma NoEvents(s: seq<Row>, project: Projection)
    ensures PassedTo(s, project, 0) && EventsTo(s, project, 0) == [] && RetainedTo(s, project, 0) == []
  {
  }

  // ----- Batches -----

  function JoinTo(batches: seq<seq<Row>>, k: nat): seq<Row>
    requires k <= |batches|
  {
    if k == 0 then [] else JoinTo(batches, k - 1) + batches[k - 1]
  }

  ghost predicate Bounded(batch: seq<Row>, batchSize: nat) {
    0 < |batch| <= batchSize && BytesTo(batch, |batch|) <= MAX_BYTES
  }

  /** cleanup_configuration_snapshots._chunks: consecutive batches within both limits. */
  method Chunks(rows: seq<Row>, batchSize: nat) returns (batches: seq<seq<Row>>)
    requires batchSize > 0 && forall i :: 0 <= i < |rows| ==> |rows[i].payload| <= MAX_BYTES
    ensures JoinTo(batches, |batches|) == rows
    ensures forall i :: 0 <= i < |batches| ==> Bounded(batches[i], batchSize)
  {
    hide JoinTo, BytesTo;
    batches := [];
    var batch: seq<Row> := [];
    var size: nat := 0;
    NothingChunked(rows, batchSize);
    for i := 0 to |rows|
      invariant Chunked(rows, batchSize, batches, batch, size, i)
    {
      var added := |rows[i].payload|;
      if batch != [] && (|batch| == batchSize || size + added > MAX_BYTES) {
        ChunkCloses(rows, batchSize, batches, batch, size, i);
        batches, batch, size := batches + [batch], [], 0;
      }
      RowChunked(rows, batchSize, batches, batch, size, i);
      batch, size := batch + [rows[i]], size + added;
    }
    assert rows[..|rows|] == rows;
    if batch != [] {
      ChunkCloses(rows, batchSize, batches, batch, size, |rows|);
      batches := batches + [batch];
    }
  }

  /** The batches and the open batch hold the first i rows. */
  ghost predicate Chunked(rows: seq<Row>, batchSize: nat, batches: seq<seq<Row>>, batch: seq<Row>, size: nat, i: nat) {
    i <= |rows| && JoinTo(batches, |batches|) + batch == rows[..i] && size == BytesTo(batch, |batch|)
    && (batch != [] ==> Bounded(batch, batchSize))
    && forall j :: 0 <= j < |batches| ==> Bounded(batches[j], batchSize)
  }

  lemma NothingChunked(rows: seq<Row>, batchSize: nat)
    ensures Chunked(rows, batchSize, [], [], 0, 0)
  {
  }

  lemma ChunkCloses(rows: seq<Row>, batchSize: nat, batches: seq<seq<Row>>, batch: seq<Row>, size: nat, i: nat)
    requires Chunked(rows, batchSize, batches, batch, size, i) && batch != []
    ensures Chunked(rows, batchSize, batches + [batch], [], 0, i)
    ensures JoinTo(batches + [batch], |batches| + 1) == rows[..i]
  {
    JoinAppends(batches, batch);
    hide JoinTo, Bounded;
  }

  lemma RowChunked(rows: seq<Row>, batchSize: nat, batches: seq<seq<Row>>, batch: seq<Row>, size: nat, i: nat)
    requires Chunked(rows, batchSize, batches, batch, size, i) && i < |rows| && batchSize > 0
    requires |rows[i].payload| <= MAX_BYTES
    requires batch == [] || (|batch| != batchSize && size + |rows[i].payload| <= MAX_BYTES)
    ensures Chunked(rows, batchSize, batches, batch + [rows[i]], size + |rows[i].payload|, i + 1)
  {
    BytesAppend(batch, rows[i]);
    hide JoinTo;
    assert batch == [] ==> BytesTo(batch, |batch|) == 0;
    hide BytesTo;
    assert rows[..i + 1] == rows[..i] + [rows[i]];
  }

  lemma JoinAppends(batches: seq<seq<Row>>, batch: seq<Row>)
    ensures JoinTo(batches + [batch], |batches| + 1) == JoinTo(batches, |batches|) + batch
  {
    JoinPrefix(batches, batches + [batch], |batches|);
  }

  lemma {:induction false} JoinPrefix(a: seq<seq<Row>>, b: seq<seq<Row>>, k: nat)
    requires k <= |a| && k <= |b| && forall i :: 0 <= i < k ==> a[i] == b[i]
    ensures JoinTo(a, k) == JoinTo(b, k)
  {
    if k > 0 {
      JoinPrefix(a, b, k - 1);
    }
  }

  lemma {:induction false} JoinMembers(batches: seq<seq<Row>>, k: nat, x: Row)
    requires k <= |batches|
    ensures x in JoinTo(batches, k) <==> exists i :: 0 <= i < k && x in batches[i]
  {
    if k > 0 {
      JoinMembers(batches, k - 1, x);
    }
  }

  // ----- One transaction -----

  function KeysOf(batch: seq<Row>): set<Identity> {
    set b | b in batch :: IdentityOf(b)
  }

  /** The transaction sees a row that is neither the planned bytes nor an allowed absence. */
  ghost predicate Conflicts(rows: Table, target: Row, first: Row, batch: seq<Row>) {
    var complete := Holds(rows, target);
    (IdentityOf(target) in rows && !complete)
    || (!complete && !(IdentityOf(first) in KeysOf(batch) + {IdentityOf(target)} && Holds(rows, first)))
    || exists i :: 0 <= i < |batch| && !Holds(rows, batch[i]) && (IdentityOf(batch[i]) in rows || !complete)
  }

  /** The keys the transaction deletes: planned rows still present, except the target's key. */
  ghost function Doomed(rows: Table, target: Row, batch: seq<Row>): set<Identity> {
    set b | b in batch && IdentityOf(b) in rows && IdentityOf(b) != IdentityOf(target) :: IdentityOf(b)
  }

  ghost function After(rows: Table, target: Row, batch: seq<Row>): Table {
    (if IdentityOf(target) in rows then rows else rows[IdentityOf(target) := target]) - Doomed(rows, target, batch)
  }

  /** What the transaction's read returns: the requested rows. */
  function Selected(rows: Table, target: Row, batch: seq<Row>): Table {
    map k | k in rows && k in KeysOf(batch) + {IdentityOf(target)} :: rows[k]
  }

  /** Reading only the requested keys decides the same conflicts. */
  lemma SelectedDecides(rows: Table, target: Row, first: Row, batch: seq<Row>)
    ensures var current := Selected(rows, target, batch);
      && (IdentityOf(target) in current <==> IdentityOf(target) in rows)
      && (Holds(current, target) <==> Holds(rows, target))
      && (Holds(current, first) <==> IdentityOf(first) in KeysOf(batch) + {IdentityOf(target)} && Holds(rows, first))
      && (forall i :: 0 <= i < |batch| ==>
            (IdentityOf(batch[i]) in current <==> IdentityOf(batch[i]) in rows)
            && (Holds(current, batch[i]) <==> Holds(rows, batch[i])))
  {
    forall i | 0 <= i < |batch| ensures IdentityOf(batch[i]) in KeysOf(batch) {
    }
  }

  lemma PresentAreDoomed(rows: Table, target: Row, batch: seq<Row>, present: seq<Identity>)
    requires forall k :: k in present <==>
      k != IdentityOf(target) && k in Selected(rows, target, batch)
      && exists i :: 0 <= i < |batch| && IdentityOf(batch[i]) == k
    ensures (set k | k in present) == Doomed(rows, target, batch)
    ensures present == [] <==> Doomed(rows, target, batch) == {}
  {
    forall i | 0 <= i < |batch| ensures IdentityOf(batch[i]) in KeysOf(batch) {
    }
    var doomed := set k | k in present;
    assert doomed == Doomed(rows, target, batch);
    assert present != [] ==> present[0] in doomed;
  }

  ghost predicate NoKeyTwice(keys: seq<Identity>) {
    forall i, j :: 0 <= i < j < |keys| ==> keys[i] != keys[j]
  }

  lemma {:induction false} KeyCount(keys: seq<Identity>)
    requires NoKeyTwice(keys)
    ensures |set k | k in keys| == |keys|
  {
    if keys != [] {
      var front, last := keys[..|keys| - 1], keys[|keys| - 1];
      KeyCount(front);
      assert keys == front + [last];
      assert (set k | k in keys) == (set k | k in front) + {last};
    }
  }

  datatype BatchResult = BatchResult(conflicted: bool, deleted: nat, upserted: nat)

  class ConfigTable {
    var rows: Table

    constructor ()
      ensures rows == map[]
    {
      rows := map[];
    }

    /** Another writer appends an observation under a key of its own. */
    method Append(row: Row)
      modifies this
      ensures rows == if IdentityOf(row) in old(rows) then old(rows) else old(rows)[IdentityOf(row) := row]
    {
      if IdentityOf(row) !in rows {
        rows := rows[IdentityOf(row) := row];
      }
    }

    /** cleanup_configuration_snapshots._apply_batch: all of it in one transaction. */
    method ApplyBatch(target: Row, first: Row, batch: seq<Row>) returns (r: BatchResult)
      modifies this
      ensures r.conflicted == Conflicts(old(rows), target, first, batch)
      ensures rows == if r.conflicted then old(rows) else After(old(rows), target, batch)
      ensures !r.conflicted ==> r.upserted == if IdentityOf(target) in old(rows) then 0 else 1
      ensures !r.conflicted && DistinctKeys(batch) ==> r.deleted == |Doomed(old(rows), target, batch)|
      ensures !r.conflicted && Doomed(old(rows), target, batch) == {} ==> r.deleted == 0
      ensures r.conflicted ==> r.deleted == r.upserted == 0
    {
      var current := Selected(rows, target, batch);
      SelectedDecides(rows, target, first, batch);
      hide Selected, Doomed, KeysOf, DistinctKeys, NoKeyTwice;
      var targetKey := IdentityOf(target);
      if targetKey in current && current[targetKey] != target {
        return BatchResult(true, 0, 0);
      }
      var complete := Holds(current, target);
      if !complete && !Holds(current, first) {
        return BatchResult(true, 0, 0);
      }
      var ok, present := PresentRows(current, targetKey, complete, batch);
      if !ok {
        return BatchResult(true, 0, 0);
      }
      PresentAreDoomed(rows, target, batch, present);
      if NoKeyTwice(present) {
        KeyCount(present);
      }
      if !complete {
        rows := rows[targetKey := target];
      }
      rows := rows - (set k | k in present);
      return BatchResult(false, |present|, if complete then 0 else 1);
    }
  }

  /** The loop over the batch: the keys to delete, unless a row conflicts. */
  method PresentRows(current: Table, targetKey: Identity, complete: bool, batch: seq<Row>)
    returns (ok: bool, present: seq<Identity>)
    ensures ok <==> forall i :: 0 <= i < |batch| ==>
      Holds(current, batch[i]) || (IdentityOf(batch[i]) !in current && complete)
    ensures ok ==> forall k :: k in present <==>
      k != targetKey && k in current && exists i :: 0 <= i < |batch| && IdentityOf(batch[i]) == k
    ensures DistinctKeys(batch) ==> NoKeyTwice(present)
  {
    present := [];
    for i := 0 to |batch|
      invariant DistinctKeys(batch) ==> NoKeyTwice(present)
      invariant forall j :: 0 <= j < i ==>
        Holds(current, batch[j]) || (IdentityOf(batch[j]) !in current && complete)
      invariant forall k :: k in present <==>
        k != targetKey && k in current && exists j :: 0 <= j < i && IdentityOf(batch[j]) == k
    {
      var key := IdentityOf(batch[i]);
      if key in current {
        if current[key] != batch[i] {
          return false, present;
        }
        if key != targetKey {
          present := present + [key];
        }
      } else if !complete {
        return false, present;
      }
    }
    return true, present;
  }

  // ----- What every committed transaction keeps -----

  /** The table while the plan over s is carried out and others append. */
  ghost predicate World(rows: Table, s: seq<Row>, project: Projection, arrivals: set<Row>) {
    Keyed(rows) && Timeline(s, project) && Idempotent(project) && LaterArrivals(arrivals, s)
    && UnderWay(rows.Values, s, project, arrivals)
  }

  /** The batch holds rows of the run that starts at lo. */
  ghost predicate RunBatch(batch: seq<Row>, s: seq<Row>, project: Projection, lo: nat) {
    lo < |s| && StartsRun(s, project, lo)
    && forall b :: b in batch ==> exists i :: 0 <= i < |s| && s[i] == b && RunStart(s, project, i) == lo
  }

  /** A held row survives the transaction unless it is a planned row of the batch, byte for byte. */
  lemma Survives(rows: Table, target: Row, first: Row, batch: seq<Row>, x: Row)
    requires Keyed(rows) && !Conflicts(rows, target, first, batch) && Holds(rows, x)
    requires x !in batch || IdentityOf(x) == IdentityOf(target)
    ensures Holds(After(rows, target, batch), x)
  {
    assert forall b :: b in batch ==> exists i :: 0 <= i < |batch| && batch[i] == b;
  }

  lemma OnlyTargetAppears(rows: Table, target: Row, batch: seq<Row>, x: Row)
    requires Keyed(rows) && Holds(After(rows, target, batch), x)
    ensures Holds(rows, x) || x == target
  {
  }

  lemma AfterKeyed(rows: Table, target: Row, batch: seq<Row>)
    requires Keyed(rows)
    ensures Keyed(After(rows, target, batch))
  {
  }

  /** Deleted rows belong to one run, so rows and targets of other runs are never among them. */
  lemma OtherRunsUntouched(s: seq<Row>, project: Projection, batch: seq<Row>, lo: nat, x: Row, j: nat)
    requires Timeline(s, project) && RunBatch(batch, s, project, lo) && x in batch
    requires j < |s| && x.device == s[j].device && x.id == s[j].id
    ensures RunStart(s, project, j) == lo
  {
    var i :| 0 <= i < |s| && s[i] == x && RunStart(s, project, i) == lo;
    assert i == j;
  }

  lemma BatchKeepsRuns(rows: Table, s: seq<Row>, project: Projection, arrivals: set<Row>, lo: nat, batch: seq<Row>,
                       r: nat)
    requires World(rows, s, project, arrivals) && RunBatch(batch, s, project, lo)
    requires !Conflicts(rows, Target(s[lo], project), s[lo], batch)
    requires r < |s| && StartsRun(s, project, r)
    ensures var after := After(rows, Target(s[lo], project), batch);
      Holds(after, Target(s[r], project)) || RunPresent(after.Values, s, project, r)
  {
    var target := Target(s[lo], project);
    var after := After(rows, target, batch);
    HoldsIsMembership(rows);
    AfterKeyed(rows, target, batch);
    HoldsIsMembership(after);
    hide After, Conflicts, Holds, RunStart, StartsRun, IdentityOf;
    if r != lo {
      if Holds(rows, Target(s[r], project)) {
        OtherRunSurvives(rows, s, project, lo, batch, Target(s[r], project), r);
      } else {
        forall i | 0 <= i < |s| && RunStart(s, project, i) == r ensures s[i] in after.Values {
          OtherRunSurvives(rows, s, project, lo, batch, s[i], i);
        }
      }
    }
  }

  lemma OtherRunSurvives(rows: Table, s: seq<Row>, project: Projection, lo: nat, batch: seq<Row>, x: Row, j: nat)
    requires Keyed(rows) && Timeline(s, project) && RunBatch(batch, s, project, lo)
    requires !Conflicts(rows, Target(s[lo], project), s[lo], batch)
    requires j < |s| && x.device == s[j].device && x.id == s[j].id && RunStart(s, project, j) != lo && Holds(rows, x)
    ensures Holds(After(rows, Target(s[lo], project), batch), x)
  {
    if x in batch {
      OtherRunsUntouched(s, project, batch, lo, x, j);
    }
    Survives(rows, Target(s[lo], project), s[lo], batch, x);
  }

  /** A committed batch keeps the table under way, for any state a crash or replay may leave. */
  lemma BatchKeepsWorld(rows: Table, s: seq<Row>, project: Projection, arrivals: set<Row>, lo: nat, batch: seq<Row>)
    requires World(rows, s, project, arrivals) && RunBatch(batch, s, project, lo)
    requires !Conflicts(rows, Target(s[lo], project), s[lo], batch)
    ensures World(After(rows, Target(s[lo], project), batch), s, project, arrivals)
  {
    var target := Target(s[lo], project);
    var after := After(rows, target, batch);
    HoldsIsMembership(rows);
    AfterKeyed(rows, target, batch);
    HoldsIsMembership(after);
    forall x | x in after.Values ensures x in arrivals || FromTimeline(x, s, project) {
      OnlyTargetAppears(rows, target, batch, x);
    }
    forall a | a in arrivals ensures a in after.Values {
      ArrivalsAreNewer(arrivals, s, a);
      Survives(rows, target, s[lo], batch, a);
    }
    forall r | 0 <= r < |s| && StartsRun(s, project, r)
      ensures Target(s[r], project) in after.Values || RunPresent(after.Values, s, project, r)
    {
      BatchKeepsRuns(rows, s, project, arrivals, lo, batch, r);
    }
  }

  /** Nothing outside the manifest, and nothing that differs from its manifest bytes, is deleted
      or overwritten. */
  lemma BatchSparesOthers(rows: Table, target: Row, first: Row, batch: seq<Row>, k: Identity)
    requires Keyed(rows) && !Conflicts(rows, target, first, batch)
    requires k in rows && rows[k] !in batch
    ensures k in After(rows, target, batch) && After(rows, target, batch)[k] == rows[k]
  {
    Survives(rows, target, first, batch, rows[k]);
  }

  /** An appended observation newer than the plan keeps the table under way. */
  lemma AppendKeepsWorld(rows: Table, s: seq<Row>, project: Projection, arrivals: set<Row>, row: Row)
    requires World(rows, s, project, arrivals) && IdentityOf(row) !in rows
    requires LaterArrivals(arrivals + {row}, s)
    ensures World(rows[IdentityOf(row) := row], s, project, arrivals + {row})
  {
    var after := rows[IdentityOf(row) := row];
    HoldsIsMembership(rows);
    HoldsIsMembership(after);
    assert forall x :: Holds(after, x) <==> Holds(rows, x) || x == row;
    assert forall x :: x in rows.Values ==> x in after.Values;
  }

  // ----- Finished work stays finished -----

  /** The source row is done with: its target is stored and it is gone, or it is stored under
      the target's own key. */
  ghost predicate Done(rows: Table, target: Row, source: Row) {
    Holds(rows, target) && (IdentityOf(source) != IdentityOf(target) ==> !Holds(rows, source))
  }

  lemma BatchFinishes(rows: Table, target: Row, first: Row, batch: seq<Row>)
    requires Keyed(rows) && !Conflicts(rows, target, first, batch)
    ensures forall b :: b in batch ==> Done(After(rows, target, batch), target, b)
  {
    forall b | b in batch ensures Done(After(rows, target, batch), target, b) {
      var i :| 0 <= i < |batch| && batch[i] == b;
      if IdentityOf(b) != IdentityOf(target) && IdentityOf(b) in rows {
        assert IdentityOf(b) in Doomed(rows, target, batch);
      }
    }
  }

  /** Later batches of the plan leave finished rows finished. */
  lemma BatchKeepsDone(rows: Table, s: seq<Row>, project: Projection, arrivals: set<Row>, lo: nat, batch: seq<Row>,
                          r: nat, i: nat)
    requires World(rows, s, project, arrivals) && RunBatch(batch, s, project, lo)
    requires !Conflicts(rows, Target(s[lo], project), s[lo], batch)
    requires r < |s| && StartsRun(s, project, r) && i < |s| && RunStart(s, project, i) == r
    requires Done(rows, Target(s[r], project), s[i])
    ensures Done(After(rows, Target(s[lo], project), batch), Target(s[r], project), s[i])
  {
    var target := Target(s[lo], project);
    if Target(s[r], project) in batch {
      OtherRunsUntouched(s, project, batch, lo, Target(s[r], project), r);
    }
    Survives(rows, target, s[lo], batch, Target(s[r], project));
    if Holds(After(rows, target, batch), s[i]) {
      OnlyTargetAppears(rows, target, batch, s[i]);
      if s[i] == target {
        assert i == lo;
      }
    }
  }

  /** On finished rows a batch finds nothing to do: it conflicts or it changes nothing. */
  lemma FinishedBatchChangesNothing(rows: Table, target: Row, first: Row, batch: seq<Row>)
    requires Keyed(rows) && Holds(rows, target) && forall b :: b in batch ==> Done(rows, target, b)
    ensures !Conflicts(rows, target, first, batch) ==>
      After(rows, target, batch) == rows && Doomed(rows, target, batch) == {}
  {
    if !Conflicts(rows, target, first, batch) {
      forall b | b in batch && IdentityOf(b) in rows ensures IdentityOf(b) == IdentityOf(target) {
        var i :| 0 <= i < |batch| && batch[i] == b;
      }
      assert Doomed(rows, target, batch) == {};
    }
  }

  // ----- The whole cleanup -----

  datatype Status = Complete | Conflicted | Interrupted | Refused

  datatype Summary = Summary(status: Status, committedBatches: nat, deletedRows: nat, upsertedRows: nat)

  ghost predicate AllDone(rows: Table, target: Row, sources: seq<Row>) {
    forall b :: b in sources ==> Done(rows, target, b)
  }

  /** Every planned row has reached its target. */
  ghost predicate PlanDone(rows: Table, plan: Plan, k: nat)
    requires k <= |plan.events|
  {
    forall i :: 0 <= i < k ==> AllDone(rows, plan.events[i].target, plan.events[i].sources)
  }

  /** What interleaved appends and committed batches keep of the rows outside the manifest. */
  ghost predicate Spares(before: Table, after: Table, s: seq<Row>) {
    forall k :: k in before && before[k] !in s ==> k in after && after[k] == before[k]
  }

  /** Nothing has happened but the arrivals. */
  ghost predicate Appended(before: Table, after: Table, arrived: set<Row>) {
    (forall k :: k in before ==> k in after && after[k] == before[k])
    && forall k :: k in after && k !in before ==> after[k] in arrived
  }

  lemma AppendedMore(a: Table, b: Table, c: Table, few: set<Row>, many: set<Row>)
    requires Appended(a, b, few) && Appended(b, c, many) && few <= many
    ensures Appended(a, c, many)
  {
  }

  ghost predicate KeepsDone(before: Table, after: Table, s: seq<Row>) {
    forall t, b :: b in s && Done(before, t, b) ==> Done(after, t, b)
  }

  lemma AppendStep(start: Table, rows: Table, s: seq<Row>, project: Projection, arrivals: set<Row>, future: set<Row>,
                   row: Row)
    requires World(rows, s, project, arrivals) && IdentityOf(row) !in rows && row in future
    requires arrivals <= future && LaterArrivals(future, s)
    requires Spares(start, rows, s) && KeepsDone(start, rows, s) && Appended(start, rows, arrivals)
    ensures var after := rows[IdentityOf(row) := row];
      World(after, s, project, arrivals + {row}) && Spares(start, after, s) && KeepsDone(start, after, s)
      && Appended(start, after, arrivals + {row})
  {
    OneMoreAppended(start, rows, arrivals, row);
    FutureWorld(rows, s, project, arrivals, future, row);
    ArrivalsAreNewer(future, s, row);
    AppendSpares(start, rows, s, row);
    AppendKeepsDone(start, rows, s, row);
    hide *;
  }

  lemma OneMoreAppended(start: Table, rows: Table, arrivals: set<Row>, row: Row)
    requires IdentityOf(row) !in rows && Appended(start, rows, arrivals)
    ensures Appended(start, rows[IdentityOf(row) := row], arrivals + {row})
  {
    hide IdentityOf;
  }

  lemma FutureWorld(rows: Table, s: seq<Row>, project: Projection, arrivals: set<Row>, future: set<Row>, row: Row)
    requires World(rows, s, project, arrivals) && IdentityOf(row) !in rows && row in future
    requires arrivals <= future && LaterArrivals(future, s)
    ensures World(rows[IdentityOf(row) := row], s, project, arrivals + {row})
  {
    AppendKeepsWorld(rows, s, project, arrivals, row);
  }

  lemma AppendSpares(start: Table, rows: Table, s: seq<Row>, row: Row)
    requires IdentityOf(row) !in rows && Spares(start, rows, s)
    ensures Spares(start, rows[IdentityOf(row) := row], s)
  {
    hide IdentityOf;
  }

  lemma AppendKeepsDone(start: Table, rows: Table, s: seq<Row>, row: Row)
    requires IdentityOf(row) !in rows && KeepsDone(start, rows, s)
    requires forall y :: y in s && y.device == row.device ==> !AtLeast(y, row)
    ensures KeepsDone(start, rows[IdentityOf(row) := row], s)
  {
  }

  // ----- When the cleanup conflicts -----

  /** The row's key is free or holds exactly this row. */
  ghost predicate Agrees(rows: Table, x: Row) {
    IdentityOf(x) in rows ==> rows[IdentityOf(x)] == x
  }

  /** The rows that the plan names: its targets and its source rows. */
  ghost predicate Named(plan: Plan, x: Row) {
    exists e :: 0 <= e < |plan.events| && (x == plan.events[e].target || x in plan.events[e].sources)
  }

  /** The plan names one row for a key, and others write no key that it names. */
  ghost predicate Untangled(plan: Plan, future: set<Row>) {
    (forall x, y :: Named(plan, x) && Named(plan, y) && IdentityOf(x) == IdentityOf(y) ==> x == y)
    && forall x, r :: Named(plan, x) && r in future ==> IdentityOf(x) != IdentityOf(r)
  }

  /** No key of the plan holds bytes other than the plan's. */
  ghost predicate Undisturbed(rows: Table, plan: Plan) {
    forall x :: Named(plan, x) ==> Agrees(rows, x)
  }

  ghost predicate EventUndisturbed(rows: Table, e: Event) {
    Agrees(rows, e.target) && forall b :: b in e.sources ==> Agrees(rows, b)
  }

  /** Whether the keys of the plan are disturbed has not changed. */
  ghost predicate AgreesAlike(before: Table, after: Table, plan: Plan) {
    forall x :: Named(plan, x) ==> (Agrees(before, x) <==> Agrees(after, x))
  }

  lemma AlikeTransitive(a: Table, b: Table, c: Table, plan: Plan)
    requires AgreesAlike(a, b, plan) && AgreesAlike(b, c, plan)
    ensures AgreesAlike(a, c, plan)
  {
    hide Agrees, Named;
  }

  lemma EventIsNamed(plan: Plan, e: nat)
    requires e < |plan.events|
    ensures Named(plan, plan.events[e].target) && forall b :: b in plan.events[e].sources ==> Named(plan, b)
  {
  }

  lemma EventAlike(before: Table, after: Table, plan: Plan, e: nat)
    requires AgreesAlike(before, after, plan) && e < |plan.events|
    ensures EventUndisturbed(before, plan.events[e]) <==> EventUndisturbed(after, plan.events[e])
  {
    EventIsNamed(plan, e);
    hide Agrees, Named;
  }

  /** Arrivals at other keys disturb nothing. */
  lemma ArrivalsAlike(before: Table, after: Table, plan: Plan, future: set<Row>, arriving: seq<Row>)
    requires Untangled(plan, future) && forall r :: r in arriving ==> r in future
    requires OnlyAt(before, after, arriving)
    ensures AgreesAlike(before, after, plan)
  {
    hide IdentityOf, Named;
  }

  /** The tables differ at the keys of these rows only. */
  ghost predicate OnlyAt(before: Table, after: Table, rows: seq<Row>) {
    forall k :: (forall r :: r in rows ==> IdentityOf(r) != k) ==>
      (k in before <==> k in after) && (k in before ==> after[k] == before[k])
  }

  /** A committed batch disturbs nothing, and what it commits was undisturbed. */
  lemma CommitAlike(rows: Table, plan: Plan, future: set<Row>, e: nat, batch: seq<Row>)
    requires Untangled(plan, future) && e < |plan.events| && forall b :: b in batch ==> b in plan.events[e].sources
    requires plan.events[e].sources != []
    requires !Conflicts(rows, plan.events[e].target, plan.events[e].sources[0], batch)
    ensures AgreesAlike(rows, After(rows, plan.events[e].target, batch), plan)
  {
    EventIsNamed(plan, e);
    CommittedAgrees(rows, plan.events[e].target, plan.events[e].sources[0], batch);
    hide Named, Conflicts;
    var target := plan.events[e].target;
    var after := After(rows, target, batch);
    forall x | Named(plan, x) ensures Agrees(rows, x) <==> Agrees(after, x) {
      AgreesAfter(rows, target, batch, x);
    }
  }

  lemma CommittedAgrees(rows: Table, target: Row, first: Row, batch: seq<Row>)
    requires !Conflicts(rows, target, first, batch)
    ensures Agrees(rows, target) && forall b :: b in batch ==> Agrees(rows, b)
  {
    forall b | b in batch ensures Agrees(rows, b) {
      var i :| 0 <= i < |batch| && batch[i] == b;
    }
  }

  lemma AgreesAfter(rows: Table, target: Row, batch: seq<Row>, x: Row)
    requires Agrees(rows, target) && forall b :: b in batch ==> Agrees(rows, b)
    requires IdentityOf(x) == IdentityOf(target) ==> x == target
    requires forall b :: b in batch && IdentityOf(b) == IdentityOf(x) ==> b == x
    ensures Agrees(rows, x) <==> Agrees(After(rows, target, batch), x)
  {
    hide IdentityOf;
  }

  /** On an undisturbed event no batch conflicts, in any state a crash or replay may leave. */
  lemma NoConflict(rows: Table, plan: Plan, project: Projection, arrivals: set<Row>, e: nat, lo: nat, hi: nat,
                   batches: seq<seq<Row>>, i: nat)
    requires EventContext(plan, project, e, lo, hi, batches) && i < |batches|
    requires World(rows, plan.sourceRows, project, arrivals) && EventUndisturbed(rows, plan.events[e])
    requires forall j :: 0 <= j < |batches| ==> batches[j] != []
    requires BatchesDone(rows, plan.events[e].target, batches, i) && |plan.events[e].sources| > 0
    ensures !Conflicts(rows, plan.events[e].target, plan.events[e].sources[0], batches[i])
  {
    var event := plan.events[e];
    SpanFacts(event, plan.sourceRows, project, lo, hi);
    RunHeldOrDone(rows, plan, project, arrivals, e, lo, hi);
    BatchesAreSources(batches, event.sources, i);
    FirstBatch(rows, event.target, batches, i, event.sources);
    hide *;
    EventAgrees(rows, event);
    NotConflicting(rows, event.target, event.sources[0], batches[i]);
  }

  lemma EventAgrees(rows: Table, e: Event)
    requires EventUndisturbed(rows, e)
    ensures Agrees(rows, e.target) && forall b :: b in e.sources ==> Agrees(rows, b)
  {
  }

  lemma NotConflicting(rows: Table, target: Row, first: Row, batch: seq<Row>)
    requires Agrees(rows, target) && forall b :: b in batch ==> Agrees(rows, b)
    requires Holds(rows, target) || (first in batch && forall b :: b in batch ==> Holds(rows, b))
    ensures !Conflicts(rows, target, first, batch)
  {
    hide IdentityOf;
    assert first in batch ==> IdentityOf(first) in KeysOf(batch);
    forall i | 0 <= i < |batch|
      ensures Holds(rows, batch[i]) || (IdentityOf(batch[i]) !in rows && Holds(rows, target))
    {
      assert batch[i] in batch;
    }
  }

  /** While the target is missing, every source row of the event is there. */
  lemma RunHeldOrDone(rows: Table, plan: Plan, project: Projection, arrivals: set<Row>, e: nat, lo: nat, hi: nat)
    requires e < |plan.events| && Spans(plan.events[e], plan.sourceRows, project, lo, hi)
    requires World(rows, plan.sourceRows, project, arrivals) && lo < |plan.sourceRows|
    ensures !Holds(rows, plan.events[e].target) ==> forall b :: b in plan.events[e].sources ==> Holds(rows, b)
  {
    HoldsIsMembership(rows);
    var event, s := plan.events[e], plan.sourceRows;
    hide Holds, RunStart, StartsRun, Target, IdentityOf;
    if !Holds(rows, event.target) {
      RunPresentHere(rows, s, project, arrivals, lo, event, hi);
    }
  }

  lemma RunPresentHere(rows: Table, s: seq<Row>, project: Projection, arrivals: set<Row>, lo: nat, event: Event,
                       hi: nat)
    requires Spans(event, s, project, lo, hi) && World(rows, s, project, arrivals) && event.target !in rows.Values
    ensures forall b :: b in event.sources ==> b in rows.Values
  {
    forall b | b in event.sources ensures b in rows.Values {
      var k :| 0 <= k < |event.sources| && event.sources[k] == b;
      assert s[lo + k] == b;
    }
  }

  lemma BatchesAreSources(batches: seq<seq<Row>>, sources: seq<Row>, i: nat)
    requires JoinTo(batches, |batches|) == sources && i < |batches|
    ensures forall b :: b in batches[i] ==> b in sources
  {
    forall b | b in batches[i] ensures b in sources {
      JoinMembers(batches, |batches|, b);
    }
  }

  /** The first batch holds the first source row; after it the target is there. */
  lemma FirstBatch(rows: Table, target: Row, batches: seq<seq<Row>>, i: nat, sources: seq<Row>)
    requires JoinTo(batches, |batches|) == sources && i < |batches| && sources != []
    requires forall j :: 0 <= j < |batches| ==> batches[j] != []
    requires BatchesDone(rows, target, batches, i)
    ensures if i == 0 then sources[0] in batches[i] else Holds(rows, target)
  {
    if i == 0 {
      JoinHead(batches, |batches|);
    } else {
      assert batches[0][0] in batches[0];
    }
  }

  lemma {:induction false} JoinHead(batches: seq<seq<Row>>, k: nat)
    requires 0 < k <= |batches| && batches[0] != []
    ensures |JoinTo(batches, k)| > 0 && JoinTo(batches, k)[0] == batches[0][0]
  {
    if k > 1 {
      JoinHead(batches, k - 1);
    }
  }

  /** Appends by other writers between two transactions, all newer than the plan. */
  method Interleave(table: ConfigTable, rows: seq<Row>, ghost s: seq<Row>, ghost project: Projection,
                    ghost arrivals: set<Row>,
                    ghost future: set<Row>)
    returns (ghost arrived: set<Row>)
    requires World(table.rows, s, project, arrivals) && arrivals <= future && LaterArrivals(future, s)
    requires forall r :: r in rows ==> r in future
    modifies table
    ensures arrivals <= arrived <= future && World(table.rows, s, project, arrived)
    ensures Spares(old(table.rows), table.rows, s) && KeepsDone(old(table.rows), table.rows, s)
    ensures Appended(old(table.rows), table.rows, arrived) && OnlyAt(old(table.rows), table.rows, rows)
  {
    arrived := arrivals;
    for i := 0 to |rows|
      invariant arrivals <= arrived <= future && World(table.rows, s, project, arrived)
      invariant Spares(old(table.rows), table.rows, s) && KeepsDone(old(table.rows), table.rows, s)
      invariant Appended(old(table.rows), table.rows, arrived) && OnlyAt(old(table.rows), table.rows, rows)
    {
      hide World, Spares, KeepsDone, LaterArrivals, IdentityOf, Appended, OnlyAt;
      ghost var before := table.rows;
      table.Append(rows[i]);
      OnlyAtAppend(old(table.rows), before, table.rows, rows, i);
      if IdentityOf(rows[i]) !in before {
        AppendStep(old(table.rows), before, s, project, arrived, future, rows[i]);
        arrived := arrived + {rows[i]};
      }
    }
  }

  lemma OnlyAtAppend(start: Table, before: Table, after: Table, rows: seq<Row>, i: nat)
    requires OnlyAt(start, before, rows) && i < |rows|
    requires after == if IdentityOf(rows[i]) in before then before else before[IdentityOf(rows[i]) := rows[i]]
    ensures OnlyAt(start, after, rows)
  {
    hide IdentityOf;
    assert rows[i] in rows;
  }

  lemma EventIsRun(plan: Plan, project: Projection, k: nat) returns (lo: nat, hi: nat)
    requires IsPlan(plan, project) && k < |plan.events|
    ensures Spans(plan.events[k], plan.sourceRows, project, lo, hi)
  {
    hide Spans, StartsRun, Target, DistinctKeys;
    EventsAreRuns(plan.sourceRows, project, |plan.sourceRows|);
    lo, hi :| Spans(plan.events[k], plan.sourceRows, project, lo, hi);
  }

  lemma RowOfEvent(plan: Plan, project: Projection, k: nat, b: Row) returns (r: nat, i: nat)
    requires IsPlan(plan, project) && k < |plan.events| && b in plan.events[k].sources
    ensures i < |plan.sourceRows| && plan.sourceRows[i] == b && RunStart(plan.sourceRows, project, i) == r
    ensures r < |plan.sourceRows| && StartsRun(plan.sourceRows, project, r)
    ensures project(plan.sourceRows[r].payload).Some? && plan.events[k].target == Target(plan.sourceRows[r], project)
  {
    hide Spans, RunStart, StartsRun, Target;
    var lo, hi := EventIsRun(plan, project, k);
    i := RowOfSpan(plan.events[k], plan.sourceRows, project, lo, hi, b);
    r := lo;
  }

  lemma RowOfSpan(e: Event, s: seq<Row>, project: Projection, lo: nat, hi: nat, b: Row) returns (i: nat)
    requires Spans(e, s, project, lo, hi) && b in e.sources
    ensures i < |s| && s[i] == b && RunStart(s, project, i) == lo && lo < |s| && StartsRun(s, project, lo)
    ensures project(s[lo].payload).Some? && e.target == Target(s[lo], project)
  {
    hide RunStart, StartsRun, Target;
    var j :| 0 <= j < |e.sources| && e.sources[j] == b;
    i := lo + j;
  }

  lemma BatchKeepsEventDone(rows: Table, plan: Plan, project: Projection, arrivals: set<Row>, lo: nat, batch: seq<Row>,
                            k: nat)
    requires IsPlan(plan, project) && World(rows, plan.sourceRows, project, arrivals)
    requires RunBatch(batch, plan.sourceRows, project, lo) && k < |plan.events|
    requires !Conflicts(rows, Target(plan.sourceRows[lo], project), plan.sourceRows[lo], batch)
    requires AllDone(rows, plan.events[k].target, plan.events[k].sources)
    ensures AllDone(After(rows, Target(plan.sourceRows[lo], project), batch), plan.events[k].target,
                    plan.events[k].sources)
  {
    var s := plan.sourceRows;
    forall b | b in plan.events[k].sources
      ensures Done(After(rows, Target(s[lo], project), batch), plan.events[k].target, b)
    {
      hide IsPlan, RunStart, StartsRun, Target, World, RunBatch, Conflicts, Done, After;
      var r, i := RowOfEvent(plan, project, k, b);
      BatchKeepsDone(rows, s, project, arrivals, lo, batch, r, i);
    }
  }

  /** What one transaction keeps of the world and of the work already done. */
  ghost predicate Progress(before: Table, after: Table, plan: Plan) {
    Spares(before, after, plan.sourceRows)
    && forall k :: 0 <= k < |plan.events| && AllDone(before, plan.events[k].target, plan.events[k].sources) ==>
         AllDone(after, plan.events[k].target, plan.events[k].sources)
  }

  lemma BatchProgress(rows: Table, plan: Plan, project: Projection, arrivals: set<Row>, lo: nat, batch: seq<Row>)
    requires IsPlan(plan, project) && World(rows, plan.sourceRows, project, arrivals)
    requires RunBatch(batch, plan.sourceRows, project, lo)
    requires !Conflicts(rows, Target(plan.sourceRows[lo], project), plan.sourceRows[lo], batch)
    ensures var after := After(rows, Target(plan.sourceRows[lo], project), batch);
      World(after, plan.sourceRows, project, arrivals) && Progress(rows, after, plan)
  {
    var s := plan.sourceRows;
    var target := Target(s[lo], project);
    BatchKeepsWorld(rows, s, project, arrivals, lo, batch);
    forall k | k in rows && rows[k] !in s
      ensures k in After(rows, target, batch) && After(rows, target, batch)[k] == rows[k]
    {
      assert forall b :: b in batch ==> b in s;
      BatchSparesOthers(rows, target, s[lo], batch, k);
    }
    forall k | 0 <= k < |plan.events| && AllDone(rows, plan.events[k].target, plan.events[k].sources)
      ensures AllDone(After(rows, target, batch), plan.events[k].target, plan.events[k].sources)
    {
      BatchKeepsEventDone(rows, plan, project, arrivals, lo, batch, k);
    }
  }

  lemma BatchOfRun(plan: Plan, project: Projection, e: nat, lo: nat, hi: nat, batches: seq<seq<Row>>, i: nat)
    requires e < |plan.events| && Spans(plan.events[e], plan.sourceRows, project, lo, hi)
    requires JoinTo(batches, |batches|) == plan.events[e].sources && i < |batches|
    ensures RunBatch(batches[i], plan.sourceRows, project, lo)
  {
    var s := plan.sourceRows;
    forall b | b in batches[i] ensures exists j :: 0 <= j < |s| && s[j] == b && RunStart(s, project, j) == lo {
      JoinMembers(batches, |batches|, b);
      assert b in plan.events[e].sources;
      var k :| 0 <= k < |plan.events[e].sources| && plan.events[e].sources[k] == b;
      assert s[lo + k] == b;
    }
  }

  ghost predicate BatchesDone(rows: Table, target: Row, batches: seq<seq<Row>>, k: nat)
    requires k <= |batches|
  {
    forall j :: 0 <= j < k ==> AllDone(rows, target, batches[j])
  }

  ghost predicate EventContext(plan: Plan, project: Projection, e: nat, lo: nat, hi: nat, batches: seq<seq<Row>>) {
    IsPlan(plan, project) && e < |plan.events| && Spans(plan.events[e], plan.sourceRows, project, lo, hi)
    && JoinTo(batches, |batches|) == plan.events[e].sources
  }

  lemma BatchCommitted(rows: Table, plan: Plan, project: Projection, arrivals: set<Row>, e: nat, lo: nat, hi: nat,
                       batches: seq<seq<Row>>, i: nat)
    requires EventContext(plan, project, e, lo, hi, batches) && i < |batches|
    requires World(rows, plan.sourceRows, project, arrivals)
    requires |plan.events[e].sources| > 0
    requires !Conflicts(rows, plan.events[e].target, plan.events[e].sources[0], batches[i])
    requires BatchesDone(rows, plan.events[e].target, batches, i)
    ensures var after := After(rows, plan.events[e].target, batches[i]);
      World(after, plan.sourceRows, project, arrivals) && Progress(rows, after, plan)
      && BatchesDone(after, plan.events[e].target, batches, i + 1)
  {
    var s, target := plan.sourceRows, plan.events[e].target;
    SpanFacts(plan.events[e], s, project, lo, hi);
    BatchOfRun(plan, project, e, lo, hi, batches, i);
    BatchProgress(rows, plan, project, arrivals, lo, batches[i]);
    BatchFinishes(rows, target, s[lo], batches[i]);
    forall j | 0 <= j < i ensures AllDone(After(rows, target, batches[i]), target, batches[j]) {
      BatchOfRun(plan, project, e, lo, hi, batches, j);
      BatchStaysDone(rows, s, project, arrivals, lo, batches[i], batches[j]);
    }
  }

  /** One transaction of the cleanup, after the rows that arrive before it. */
  method ApplyNext(table: ConfigTable, plan: Plan, project: Projection, e: nat, ghost lo: nat, ghost hi: nat,
                   batches: seq<seq<Row>>, i: nat, arriving: seq<Row>, dies: bool,
                   ghost arrivals: set<Row>, ghost future: set<Row>)
    returns (status: Status, result: BatchResult, ghost arrived: set<Row>)
    requires e < |plan.events| && |plan.events[e].sources| > 0 && i < |batches|
    requires EventContext(plan, project, e, lo, hi, batches) && forall j :: 0 <= j < |batches| ==> batches[j] != []
    requires World(table.rows, plan.sourceRows, project, arrivals)
    requires arrivals <= future && LaterArrivals(future, plan.sourceRows) && forall r :: r in arriving ==> r in future
    requires BatchesDone(table.rows, plan.events[e].target, batches, i)
    modifies table
    ensures arrivals <= arrived <= future && World(table.rows, plan.sourceRows, project, arrived)
    ensures Progress(old(table.rows), table.rows, plan) && status != Refused
    ensures status == Complete ==> BatchesDone(table.rows, plan.events[e].target, batches, i + 1)
    ensures AllDone(old(table.rows), plan.events[e].target, plan.events[e].sources) ==>
      Appended(old(table.rows), table.rows, arrived) && result.deleted == result.upserted == 0
    ensures status == Interrupted <==> dies
    ensures Untangled(plan, future) ==> AgreesAlike(old(table.rows), table.rows, plan)
    ensures Untangled(plan, future) && status == Complete ==>
      Agrees(old(table.rows), plan.events[e].target) && forall b :: b in batches[i] ==> Agrees(old(table.rows), b)
    ensures Untangled(plan, future) && status == Conflicted ==> !EventUndisturbed(old(table.rows), plan.events[e])
  {
    hide *;
    var event := plan.events[e];
    ghost var before := table.rows;
    arrived := Interleave(table, arriving, plan.sourceRows, project, arrivals, future);
    InterleaveProgress(before, table.rows, plan, project, e, lo, hi, batches, i);
    if Untangled(plan, future) {
      ArrivalsAlike(before, table.rows, plan, future, arriving);
    }
    if dies {
      return Interrupted, BatchResult(false, 0, 0), arrived;
    }
    ghost var mid := table.rows;
    DoneBatch(before, mid, plan, project, arrived, e, lo, hi, batches, i);
    ContextBatch(plan, project, e, lo, hi, batches, i);
    if Untangled(plan, future) {
      EventAlike(before, mid, plan, e);
      if EventUndisturbed(mid, event) {
        NoConflict(mid, plan, project, arrived, e, lo, hi, batches, i);
      }
    }
    result := table.ApplyBatch(event.target, event.sources[0], batches[i]);
    if result.conflicted {
      return Conflicted, result, arrived;
    }
    BatchCommitted(mid, plan, project, arrived, e, lo, hi, batches, i);
    if Untangled(plan, future) {
      CommitAlike(mid, plan, future, e, batches[i]);
      AlikeTransitive(before, mid, table.rows, plan);
      CommittedAgrees(mid, event.target, event.sources[0], batches[i]);
      BatchAlike(before, mid, plan, e, batches[i]);
    }
    ProgressTransitive(before, mid, table.rows, plan);
    status := Complete;
  }

  lemma ContextBatch(plan: Plan, project: Projection, e: nat, lo: nat, hi: nat, batches: seq<seq<Row>>, i: nat)
    requires EventContext(plan, project, e, lo, hi, batches) && i < |batches|
    ensures e < |plan.events| && forall b :: b in batches[i] ==> b in plan.events[e].sources
  {
    BatchesAreSources(batches, plan.events[e].sources, i);
  }

  lemma BatchAlike(before: Table, after: Table, plan: Plan, e: nat, batch: seq<Row>)
    requires AgreesAlike(before, after, plan) && e < |plan.events|
    requires forall b :: b in batch ==> b in plan.events[e].sources
    requires Agrees(after, plan.events[e].target) && forall b :: b in batch ==> Agrees(after, b)
    ensures Agrees(before, plan.events[e].target) && forall b :: b in batch ==> Agrees(before, b)
  {
    EventIsNamed(plan, e);
    hide Agrees, Named;
  }

  /** The inner loop over the batches of one event. Before transaction n the rows others[n]
      arrive; the process dies before transaction number `survives`. */
  method ApplyEvent(table: ConfigTable, plan: Plan, project: Projection, e: nat, batchSize: nat,
                    others: seq<seq<Row>>, tick: nat, survives: nat, ghost arrivals: set<Row>, ghost future: set<Row>)
    returns (status: Status, next: nat, deleted: nat, upserted: nat, ghost arrived: set<Row>)
    requires IsPlan(plan, project) && e < |plan.events| && batchSize > 0
    requires World(table.rows, plan.sourceRows, project, arrivals)
    requires arrivals <= future && LaterArrivals(future, plan.sourceRows)
    requires forall i, r :: 0 <= i < |others| && r in others[i] ==> r in future
    modifies table
    ensures arrivals <= arrived <= future && World(table.rows, plan.sourceRows, project, arrived)
    ensures Progress(old(table.rows), table.rows, plan) && status != Refused
    ensures status == Complete ==> AllDone(table.rows, plan.events[e].target, plan.events[e].sources)
    ensures AllDone(old(table.rows), plan.events[e].target, plan.events[e].sources) ==>
      Appended(old(table.rows), table.rows, arrived) && deleted == upserted == 0
    ensures status == Interrupted ==> next >= survives
    ensures tick <= next <= tick + |plan.events[e].sources|
    ensures Untangled(plan, future) ==>
      AgreesAlike(old(table.rows), table.rows, plan)
      && (status == Complete ==> EventUndisturbed(old(table.rows), plan.events[e]))
      && (status == Conflicted ==> !EventUndisturbed(old(table.rows), plan.events[e]))
  {
    hide *;
    SourcesFit(plan, project, e);
    var batches := Chunks(plan.events[e].sources, batchSize);
    ghost var lo, hi := EventReady(table.rows, plan, project, e, batches);
    NothingAppended(table.rows, arrivals);
    NothingAgrees(table.rows, plan, plan.events[e].target, batches);
    BatchesNonEmpty(batches, batchSize);
    BatchCount(batches, |batches|);
    next, deleted, upserted, arrived, status := tick, 0, 0, arrivals, Complete;
    var i := 0;
    while i < |batches| && status == Complete
      invariant i <= |batches| && arrivals <= arrived <= future
      invariant World(table.rows, plan.sourceRows, project, arrived)
      invariant Progress(old(table.rows), table.rows, plan) && status != Refused
      invariant status == Complete ==> BatchesDone(table.rows, plan.events[e].target, batches, i)
      invariant AllDone(old(table.rows), plan.events[e].target, plan.events[e].sources) ==>
          Appended(old(table.rows), table.rows, arrived) && deleted == upserted == 0
      invariant status == Interrupted ==> next >= survives
      invariant tick <= next <= tick + i
      invariant Untangled(plan, future) ==>
          AgreesAlike(old(table.rows), table.rows, plan)
          && (status == Complete ==> BatchesAgree(old(table.rows), plan.events[e].target, batches, i))
          && (status == Conflicted ==> !EventUndisturbed(old(table.rows), plan.events[e]))
      decreases |batches| - i
    {
      ghost var before, few := table.rows, arrived;
      EventKeepsDone(old(table.rows), before, plan, e);
      var result;
      status, result, arrived := ApplyNext(table, plan, project, e, lo, hi, batches, i,
        if next < |others| then others[next] else [], next >= survives, arrived, future);
      ProgressTransitive(old(table.rows), before, table.rows, plan);
      if Untangled(plan, future) {
        AlikeTransitive(old(table.rows), before, table.rows, plan);
        EventAlike(old(table.rows), before, plan, e);
        if status == Complete {
          ContextBatch(plan, project, e, lo, hi, batches, i);
          BatchAlike(old(table.rows), before, plan, e, batches[i]);
          OneMoreAgrees(old(table.rows), plan.events[e].target, batches, i);
        }
      }
      if AllDone(old(table.rows), plan.events[e].target, plan.events[e].sources) {
        AppendedMore(old(table.rows), before, table.rows, few, arrived);
      }
      next := if status == Complete then next + 1 else next;
      deleted, upserted := deleted + result.deleted, upserted + result.upserted;
      i := i + 1;
    }
    if status == Complete {
      AllBatchesDone(table.rows, plan.events[e].target, batches);
      if Untangled(plan, future) {
        AllBatchesAgree(old(table.rows), plan.events[e], batches);
      }
    }
  }

  lemma NothingAppended(rows: Table, arrivals: set<Row>)
    ensures Appended(rows, rows, arrivals)
  {
  }

  lemma EventKeepsDone(before: Table, after: Table, plan: Plan, e: nat)
    requires Progress(before, after, plan) && e < |plan.events|
    ensures AllDone(before, plan.events[e].target, plan.events[e].sources) ==>
      AllDone(after, plan.events[e].target, plan.events[e].sources)
  {
    hide AllDone, Spares;
  }

  /** On a finished event the transaction conflicts or changes nothing. */
  lemma DoneBatch(before: Table, mid: Table, plan: Plan, project: Projection, arrivals: set<Row>, e: nat, lo: nat,
                  hi: nat,
                  batches: seq<seq<Row>>, i: nat)
    requires EventContext(plan, project, e, lo, hi, batches) && i < |batches| && |plan.events[e].sources| > 0
    requires Progress(before, mid, plan) && World(mid, plan.sourceRows, project, arrivals)
    ensures var event := plan.events[e];
      AllDone(before, event.target, event.sources) && !Conflicts(mid, event.target, event.sources[0], batches[i]) ==>
      After(mid, event.target, batches[i]) == mid && Doomed(mid, event.target, batches[i]) == {}
      && IdentityOf(event.target) in mid
  {
    var event := plan.events[e];
    if AllDone(before, event.target, event.sources) {
      EventKeepsDone(before, mid, plan, e);
      forall b | b in batches[i] ensures Done(mid, event.target, b) {
        JoinMembers(batches, |batches|, b);
      }
      hide IsPlan, World, Conflicts, After, Doomed, Progress;
      WorldKeyed(mid, plan.sourceRows, project, arrivals);
      assert Done(mid, event.target, event.sources[0]);
      FinishedBatchChangesNothing(mid, event.target, event.sources[0], batches[i]);
    }
  }

  lemma WorldKeyed(rows: Table, s: seq<Row>, project: Projection, arrivals: set<Row>)
    requires World(rows, s, project, arrivals)
    ensures Keyed(rows)
  {
  }

  /** The first i batches, and the target once there is one, agreed with the table. */
  ghost predicate BatchesAgree(rows: Table, target: Row, batches: seq<seq<Row>>, i: nat)
    requires i <= |batches|
  {
    (i > 0 ==> Agrees(rows, target)) && forall j, b :: 0 <= j < i && b in batches[j] ==> Agrees(rows, b)
  }

  lemma NothingAgrees(rows: Table, plan: Plan, target: Row, batches: seq<seq<Row>>)
    ensures AgreesAlike(rows, rows, plan) && BatchesAgree(rows, target, batches, 0)
  {
  }

  lemma BatchesNonEmpty(batches: seq<seq<Row>>, batchSize: nat)
    requires forall i :: 0 <= i < |batches| ==> Bounded(batches[i], batchSize)
    ensures forall i :: 0 <= i < |batches| ==> batches[i] != []
  {
  }

  lemma {:induction false} BatchCount(batches: seq<seq<Row>>, k: nat)
    requires k <= |batches| && forall i :: 0 <= i < |batches| ==> batches[i] != []
    ensures k <= |JoinTo(batches, k)|
  {
    if k > 0 {
      BatchCount(batches, k - 1);
    }
  }

  lemma OneMoreAgrees(rows: Table, target: Row, batches: seq<seq<Row>>, i: nat)
    requires i < |batches| && BatchesAgree(rows, target, batches, i)
    requires Agrees(rows, target) && forall b :: b in batches[i] ==> Agrees(rows, b)
    ensures BatchesAgree(rows, target, batches, i + 1)
  {
    hide Agrees;
  }

  lemma AllBatchesAgree(rows: Table, e: Event, batches: seq<seq<Row>>)
    requires BatchesAgree(rows, e.target, batches, |batches|)
    requires JoinTo(batches, |batches|) == e.sources && e.sources != []
    ensures EventUndisturbed(rows, e)
  {
    hide Agrees;
    forall b | b in e.sources ensures Agrees(rows, b) {
      JoinMembers(batches, |batches|, b);
    }
  }

  lemma SourcesFit(plan: Plan, project: Projection, e: nat)
    requires IsPlan(plan, project) && e < |plan.events|
    ensures forall i :: 0 <= i < |plan.events[e].sources| ==> |plan.events[e].sources[i].payload| <= MAX_BYTES
  {
    var lo, hi := EventIsRun(plan, project, e);
    assert forall b :: b in plan.events[e].sources ==> b in plan.sourceRows;
  }

  /** Before the first batch of an event. */
  lemma EventReady(rows: Table, plan: Plan, project: Projection, e: nat, batches: seq<seq<Row>>)
    returns (lo: nat, hi: nat)
    requires IsPlan(plan, project) && e < |plan.events| && JoinTo(batches, |batches|) == plan.events[e].sources
    ensures EventContext(plan, project, e, lo, hi, batches) && |plan.events[e].sources| > 0
    ensures Progress(rows, rows, plan) && BatchesDone(rows, plan.events[e].target, batches, 0)
  {
    lo, hi := EventIsRun(plan, project, e);
    SpanFacts(plan.events[e], plan.sourceRows, project, lo, hi);
  }

  lemma AllBatchesDone(rows: Table, target: Row, batches: seq<seq<Row>>)
    requires BatchesDone(rows, target, batches, |batches|)
    ensures AllDone(rows, target, JoinTo(batches, |batches|))
  {
    forall b | b in JoinTo(batches, |batches|) ensures Done(rows, target, b) {
      JoinMembers(batches, |batches|, b);
    }
  }

  lemma SpanFacts(e: Event, s: seq<Row>, project: Projection, lo: nat, hi: nat)
    requires Spans(e, s, project, lo, hi)
    ensures |e.sources| > 0 && lo < |s| && project(s[lo].payload).Some?
    ensures e.target == Target(s[lo], project) && e.sources[0] == s[lo]
  {
  }

  lemma ProgressTransitive(a: Table, b: Table, c: Table, plan: Plan)
    requires Progress(a, b, plan) && Progress(b, c, plan)
    ensures Progress(a, c, plan)
  {
  }

  lemma InterleaveProgress(before: Table, after: Table, plan: Plan, project: Projection, e: nat, lo: nat, hi: nat,
                           batches: seq<seq<Row>>, i: nat)
    requires EventContext(plan, project, e, lo, hi, batches) && i <= |batches|
    requires Spares(before, after, plan.sourceRows) && KeepsDone(before, after, plan.sourceRows)
    requires BatchesDone(before, plan.events[e].target, batches, i)
    ensures Progress(before, after, plan) && BatchesDone(after, plan.events[e].target, batches, i)
  {
    forall k | 0 <= k < |plan.events| && AllDone(before, plan.events[k].target, plan.events[k].sources)
      ensures AllDone(after, plan.events[k].target, plan.events[k].sources)
    {
      forall b | b in plan.events[k].sources ensures Done(after, plan.events[k].target, b) {
        var r, j := RowOfEvent(plan, project, k, b);
        assert b in plan.sourceRows;
      }
    }
    forall j | 0 <= j < i ensures AllDone(after, plan.events[e].target, batches[j]) {
      BatchOfRun(plan, project, e, lo, hi, batches, j);
      forall b | b in batches[j] ensures Done(after, plan.events[e].target, b) {
        var k := RowOfBatch(batches[j], plan.sourceRows, project, lo, b);
        assert b in plan.sourceRows;
      }
    }
  }

  lemma RowOfBatch(batch: seq<Row>, s: seq<Row>, project: Projection, lo: nat, b: Row) returns (i: nat)
    requires RunBatch(batch, s, project, lo) && b in batch
    ensures i < |s| && s[i] == b && RunStart(s, project, i) == lo && lo < |s| && StartsRun(s, project, lo)
  {
    i :| 0 <= i < |s| && s[i] == b && RunStart(s, project, i) == lo;
  }

  /** A batch of the run stays done when another batch of the same run commits. */
  lemma BatchStaysDone(rows: Table, s: seq<Row>, project: Projection, arrivals: set<Row>, lo: nat, batch: seq<Row>,
                       earlier: seq<Row>)
    requires World(rows, s, project, arrivals)
    requires RunBatch(batch, s, project, lo) && RunBatch(earlier, s, project, lo)
    requires !Conflicts(rows, Target(s[lo], project), s[lo], batch)
    requires AllDone(rows, Target(s[lo], project), earlier)
    ensures AllDone(After(rows, Target(s[lo], project), batch), Target(s[lo], project), earlier)
  {
    forall b | b in earlier ensures Done(After(rows, Target(s[lo], project), batch), Target(s[lo], project), b) {
      hide RunStart, StartsRun, Target, World, RunBatch, Conflicts, Done, After;
      var i := RowOfBatch(earlier, s, project, lo, b);
      BatchKeepsDone(rows, s, project, arrivals, lo, batch, lo, i);
    }
  }

  /** cleanup_configuration_snapshots.apply_configuration_cleanup, with a death before
      transaction number `survives` and other writers appending in between. Whatever the
      outcome, every reader's view at every device and time is that of the original
      observations and the arrivals; nothing outside the manifest is touched; a complete run
      leaves every planned row done. */
  method ApplyCleanup(table: ConfigTable, plan: Plan, project: Projection, batchSize: int, others: seq<seq<Row>>,
                      survives: nat, ghost arrivals: set<Row>, ghost future: set<Row>)
    returns (summary: Summary, ghost arrived: set<Row>)
    requires IsPlan(plan, project) ==>
      World(table.rows, plan.sourceRows, project, arrivals) && LaterArrivals(future, plan.sourceRows)
    requires arrivals <= future && forall i, r :: 0 <= i < |others| && r in others[i] ==> r in future
    modifies table
    ensures summary.status == Refused <==> !(1 <= batchSize <= 50 && IsPlan(plan, project))
    ensures summary.status == Refused ==> table.rows == old(table.rows) && arrived == arrivals
    ensures summary.status != Refused ==>
      arrivals <= arrived <= future && World(table.rows, plan.sourceRows, project, arrived)
    ensures summary.status != Refused ==>
      forall d, t, v :: Shows(table.rows.Values, project, d, t, v)
        <==> Shows(RowsOf(plan.sourceRows) + arrived, project, d, t, v)
    ensures summary.status != Refused ==> Spares(old(table.rows), table.rows, plan.sourceRows)
    ensures summary.status == Complete ==> PlanDone(table.rows, plan, |plan.events|)
    ensures PlanDone(old(table.rows), plan, |plan.events|) ==>
      Appended(old(table.rows), table.rows, arrived) && summary.deletedRows == summary.upsertedRows == 0
    ensures summary.status == Interrupted ==> summary.committedBatches >= survives
    ensures summary.committedBatches <= |plan.sourceRows|
    ensures Untangled(plan, future) ==>
      (summary.status == Complete ==> Undisturbed(old(table.rows), plan))
      && (summary.status == Conflicted ==> !Undisturbed(old(table.rows), plan))
  {
    hide *;
    arrived := arrivals;
    NothingAppended(table.rows, arrivals);
    NothingApplied(table.rows, plan);
    if !(1 <= batchSize <= 50) {
      return Summary(Refused, 0, 0, 0), arrived;
    }
    var genuine := IsGenuine(plan, project);
    if !genuine {
      return Summary(Refused, 0, 0, 0), arrived;
    }
    var tick: nat, deleted: nat, upserted: nat := 0, 0, 0;
    var status := Complete;
    var e := 0;
    while e < |plan.events| && status == Complete
      invariant e <= |plan.events| && IsPlan(plan, project)
      invariant arrivals <= arrived <= future && World(table.rows, plan.sourceRows, project, arrived)
      invariant Progress(old(table.rows), table.rows, plan)
      invariant status == Complete ==> PlanDone(table.rows, plan, e)
      invariant status != Refused
      invariant PlanDone(old(table.rows), plan, |plan.events|) ==>
          Appended(old(table.rows), table.rows, arrived) && deleted == upserted == 0
      invariant status == Interrupted ==> tick >= survives
      invariant tick <= |FlattenTo(plan.events, e)|
      invariant Untangled(plan, future) ==>
          AgreesAlike(old(table.rows), table.rows, plan)
          && (status == Complete ==> EventsUndisturbed(old(table.rows), plan, e))
          && (status == Conflicted ==> !Undisturbed(old(table.rows), plan))
      decreases |plan.events| - e
    {
      ghost var before, few := table.rows, arrived;
      PlanStaysDone(old(table.rows), before, plan, e);
      FlattenStep(plan.events, e);
      var d, u;
      status, tick, d, u, arrived :=
        ApplyEvent(table, plan, project, e, batchSize, others, tick, survives, arrived, future);
      deleted, upserted := deleted + d, upserted + u;
      ProgressTransitive(old(table.rows), before, table.rows, plan);
      EventsDone(before, table.rows, plan, e, status);
      if Untangled(plan, future) {
        AlikeTransitive(old(table.rows), before, table.rows, plan);
        EventAlike(old(table.rows), before, plan, e);
        EventDecides(old(table.rows), plan, e);
      }
      if PlanDone(old(table.rows), plan, |plan.events|) {
        AppendedMore(old(table.rows), before, table.rows, few, arrived);
      }
      e := e + 1;
    }
    forall d, t, v
      ensures Shows(table.rows.Values, project, d, t, v) <==> Shows(RowsOf(plan.sourceRows) + arrived, project, d, t, v)
    {
      WorldShows(table.rows, plan.sourceRows, project, arrived, d, t, v);
    }
    ProgressSpares(old(table.rows), table.rows, plan);
    PlanLength(plan, project, e);
    if status == Complete && Untangled(plan, future) {
      AllUndisturbed(old(table.rows), plan);
    }
    return Summary(status, tick, deleted, upserted), arrived;
  }

  /** The plan is rebuilt from its own source rows and compared. */
  method IsGenuine(plan: Plan, project: Projection) returns (genuine: bool)
    ensures genuine <==> IsPlan(plan, project)
  {
    var rebuilt := PlanCleanup(plan.sourceRows, project);
    genuine := rebuilt == Planned(plan);
  }

  lemma NothingApplied(rows: Table, plan: Plan)
    ensures Progress(rows, rows, plan) && PlanDone(rows, plan, 0) && FlattenTo(plan.events, 0) == []
    ensures AgreesAlike(rows, rows, plan) && EventsUndisturbed(rows, plan, 0)
  {
  }

  lemma WorldShows(rows: Table, s: seq<Row>, project: Projection, arrivals: set<Row>, device: string, t: int,
                   v: Option<string>)
    requires World(rows, s, project, arrivals)
    ensures Shows(rows.Values, project, device, t, v) <==> Shows(RowsOf(s) + arrivals, project, device, t, v)
  {
    SettingsUnchanged(rows.Values, s, project, arrivals, device, t, v);
  }

  lemma FlattenStep(events: seq<Event>, k: nat)
    requires k < |events|
    ensures |FlattenTo(events, k + 1)| == |FlattenTo(events, k)| + |events[k].sources|
  {
  }

  lemma {:induction false} FlattenShorter(events: seq<Event>, k: nat, n: nat)
    requires k <= n <= |events|
    ensures |FlattenTo(events, k)| <= |FlattenTo(events, n)|
  {
    if k < n {
      FlattenShorter(events, k, n - 1);
    }
  }

  lemma PlanLength(plan: Plan, project: Projection, k: nat)
    requires IsPlan(plan, project) && k <= |plan.events|
    ensures |FlattenTo(plan.events, k)| <= |plan.sourceRows|
  {
    FlattenShorter(plan.events, k, |plan.events|);
    EventsPartition(plan.sourceRows, project, |plan.sourceRows|);
    hide FlattenTo, EventsTo;
  }

  lemma ProgressSpares(before: Table, after: Table, plan: Plan)
    requires Progress(before, after, plan)
    ensures Spares(before, after, plan.sourceRows)
  {
  }

  ghost predicate EventsUndisturbed(rows: Table, plan: Plan, k: nat)
    requires k <= |plan.events|
  {
    forall e :: 0 <= e < k ==> EventUndisturbed(rows, plan.events[e])
  }

  lemma EventDecides(rows: Table, plan: Plan, e: nat)
    requires e < |plan.events|
    ensures Undisturbed(rows, plan) ==> EventUndisturbed(rows, plan.events[e])
    ensures EventsUndisturbed(rows, plan, e) && EventUndisturbed(rows, plan.events[e]) ==>
      EventsUndisturbed(rows, plan, e + 1)
  {
    EventIsNamed(plan, e);
    hide Agrees, Named;
  }

  lemma AllUndisturbed(rows: Table, plan: Plan)
    requires EventsUndisturbed(rows, plan, |plan.events|)
    ensures Undisturbed(rows, plan)
  {
    hide Agrees;
  }

  lemma PlanStaysDone(before: Table, after: Table, plan: Plan, e: nat)
    requires Progress(before, after, plan) && e < |plan.events|
    ensures PlanDone(before, plan, |plan.events|) ==> AllDone(after, plan.events[e].target, plan.events[e].sources)
  {
    hide AllDone, Spares;
  }

  lemma EventsDone(before: Table, after: Table, plan: Plan, e: nat, status: Status)
    requires e < |plan.events| && Progress(before, after, plan) && PlanDone(before, plan, e)
    requires status == Complete ==> AllDone(after, plan.events[e].target, plan.events[e].sources)
    ensures status == Complete ==> PlanDone(after, plan, e + 1)
  {
  }

  /** Rerunning a finished plan changes nothing: none of its batches changes the table. */
  lemma RerunChangesNothing(rows: Table, plan: Plan, project: Projection, arrivals: set<Row>, e: nat, batch: seq<Row>)
    requires IsPlan(plan, project) && World(rows, plan.sourceRows, project, arrivals)
    requires PlanDone(rows, plan, |plan.events|) && e < |plan.events|
    requires forall b :: b in batch ==> b in plan.events[e].sources
    ensures var first := plan.events[e].sources;
      |first| > 0
      && (!Conflicts(rows, plan.events[e].target, first[0], batch) ==>
            After(rows, plan.events[e].target, batch) == rows)
  {
    var lo, hi := EventIsRun(plan, project, e);
    var sources := plan.events[e].sources;
    assert Done(rows, plan.events[e].target, sources[0]);
    FinishedBatchChangesNothing(rows, plan.events[e].target, sources[0], batch);
  }
}
