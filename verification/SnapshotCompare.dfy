/** The independent comparison of an artifact with a target: a merge of two streams of rows
    in key order. */
module SnapshotCompare {
  import opened KeyOrder
  import opened SnapshotStore
  import opened SnapshotUpload

  datatype Counts = Counts(expected: nat, actual: nat, missing: nat, extra: nat, changed: nat)

  /** What differs between the two tables, read as maps. */
  function Missing(left: Table, right: Table): set<Key> {
    left.Keys - right.Keys
  }

  function Extra(table: string, left: Table, right: Table): set<Key> {
    set k | k in right && k !in left && !(Reserved(table, k) && !right[k].Malformed?)
  }

  function Changed(left: Table, right: Table): set<Key> {
    set k | k in left && k in right && left[k] != right[k]
  }

  /** The marker rows that only the target has. */
  function ForeignMarkers(table: string, left: Table, right: Table): Table {
    map k | k in right && k !in left && Reserved(table, k) && !right[k].Malformed? :: right[k]
  }

  ghost predicate Tally(counts: Counts, markers: Table, table: string, left: Table, right: Table) {
    counts.expected == |left| && counts.actual == |right|
    && counts.missing == |Missing(left, right)| && counts.extra == |Extra(table, left, right)|
    && counts.changed == |Changed(left, right)| && markers == ForeignMarkers(table, left, right)
  }

  lemma LeftGrows(table: string, left: Table, right: Table, k: Key, doc: Doc)
    requires k !in left && k !in right
    ensures var now := left[k := doc];
      Missing(now, right) == Missing(left, right) + {k} && k !in Missing(left, right)
      && Extra(table, now, right) == Extra(table, left, right) && Changed(now, right) == Changed(left, right)
      && ForeignMarkers(table, now, right) == ForeignMarkers(table, left, right)
  {
    hide Reserved;
    var now := left[k := doc];
    assert forall x :: x in Extra(table, now, right) <==> x in Extra(table, left, right);
    assert forall x :: x in Changed(now, right) <==> x in Changed(left, right);
  }

  lemma MarkerJoins(table: string, left: Table, right: Table, k: Key, doc: Doc)
    requires k !in left && k !in right && Reserved(table, k) && !doc.Malformed?
    ensures var now := right[k := doc];
      Missing(left, now) == Missing(left, right) && Changed(left, now) == Changed(left, right)
      && Extra(table, left, now) == Extra(table, left, right)
      && ForeignMarkers(table, left, now) == ForeignMarkers(table, left, right)[k := doc]
  {
    hide Reserved;
    var now := right[k := doc];
    assert forall x :: x in Missing(left, now) <==> x in Missing(left, right);
    assert forall x :: x in Changed(left, now) <==> x in Changed(left, right);
    assert forall x :: x in Extra(table, left, now) <==> x in Extra(table, left, right);
  }

  lemma ExtraJoins(table: string, left: Table, right: Table, k: Key, doc: Doc)
    requires k !in left && k !in right && !(Reserved(table, k) && !doc.Malformed?)
    ensures var now := right[k := doc];
      Missing(left, now) == Missing(left, right) && Changed(left, now) == Changed(left, right)
      && Extra(table, left, now) == Extra(table, left, right) + {k} && k !in Extra(table, left, right)
      && ForeignMarkers(table, left, now) == ForeignMarkers(table, left, right)
  {
    hide Reserved;
    var now := right[k := doc];
    assert forall x :: x in Missing(left, now) <==> x in Missing(left, right);
    assert forall x :: x in Changed(left, now) <==> x in Changed(left, right);
  }

  lemma BothGrow(table: string, left: Table, right: Table, k: Key, l: Doc, r: Doc)
    requires k !in left && k !in right
    ensures var nl, nr := left[k := l], right[k := r];
      Missing(nl, nr) == Missing(left, right) && Extra(table, nl, nr) == Extra(table, left, right)
      && ForeignMarkers(table, nl, nr) == ForeignMarkers(table, left, right) && k !in Changed(left, right)
      && Changed(nl, nr) == if l != r then Changed(left, right) + {k} else Changed(left, right)
  {
    hide Reserved;
    var nl, nr := left[k := l], right[k := r];
    assert forall x :: x in Missing(nl, nr) <==> x in Missing(left, right);
    assert forall x :: x in Extra(table, nl, nr) <==> x in Extra(table, left, right);
  }

  lemma SizeGrows(rows: Table, k: Key, doc: Doc)
    requires k !in rows
    ensures |rows[k := doc]| == |rows| + 1
  {
  }

  lemma TallyMissing(c: Counts, markers: Table, table: string, left: Table, right: Table, k: Key, doc: Doc)
    requires Tally(c, markers, table, left, right) && k !in left && k !in right
    ensures Tally(c.(expected := c.expected + 1, missing := c.missing + 1), markers, table, left[k := doc], right)
  {
    LeftGrows(table, left, right, k, doc);
    SizeGrows(left, k, doc);
    hide Missing, Extra, Changed, ForeignMarkers;
  }

  lemma TallyMarker(c: Counts, markers: Table, table: string, left: Table, right: Table, k: Key, doc: Doc)
    requires Tally(c, markers, table, left, right) && k !in left && k !in right
    requires Reserved(table, k) && !doc.Malformed?
    ensures Tally(c.(actual := c.actual + 1), markers[k := doc], table, left, right[k := doc])
  {
    MarkerJoins(table, left, right, k, doc);
    SizeGrows(right, k, doc);
    hide Missing, Extra, Changed, ForeignMarkers, Reserved;
  }

  lemma TallyExtra(c: Counts, markers: Table, table: string, left: Table, right: Table, k: Key, doc: Doc)
    requires Tally(c, markers, table, left, right) && k !in left && k !in right
    requires !(Reserved(table, k) && !doc.Malformed?)
    ensures Tally(c.(actual := c.actual + 1, extra := c.extra + 1), markers, table, left, right[k := doc])
  {
    ExtraJoins(table, left, right, k, doc);
    SizeGrows(right, k, doc);
    hide Missing, Extra, Changed, ForeignMarkers, Reserved;
  }

  lemma TallyCommon(c: Counts, markers: Table, table: string, left: Table, right: Table, k: Key, l: Doc, r: Doc)
    requires Tally(c, markers, table, left, right) && k !in left && k !in right
    ensures Tally(c.(expected := c.expected + 1, actual := c.actual + 1,
                     changed := c.changed + if l != r then 1 else 0),
                  markers, table, left[k := l], right[k := r])
  {
    BothGrow(table, left, right, k, l, r);
    SizeGrows(left, k, l);
    SizeGrows(right, k, r);
    hide Missing, Extra, Changed, ForeignMarkers;
  }

  /** Everything consumed lies below everything still to come. */
  ghost predicate Frontier(left: seq<Row>, right: seq<Row>, i: nat, j: nat) {
    i <= |left| && j <= |right|
    && (forall p, q :: 0 <= p < i && j <= q < |right| ==> KeyLt(left[p].key, right[q].key))
    && (forall p, q :: 0 <= p < j && i <= q < |left| ==> KeyLt(right[p].key, left[q].key))
  }

  /** The next key of either side is new to both. */
  lemma NextIsNew(rows: seq<Row>, i: nat, other: seq<Row>, j: nat)
    requires i < |rows| && j <= |other| && StrictlyOrdered(rows)
    requires forall p :: 0 <= p < j ==> KeyLt(other[p].key, rows[i].key)
    ensures rows[i].key !in MapOf(rows[..i]) && rows[i].key !in MapOf(other[..j])
  {
    hide MapOf;
    var k := rows[i].key;
    KeyTrichotomy(k, k);
    MapOfKeys(rows[..i], k);
    MapOfKeys(other[..j], k);
  }

  lemma OneMore(rows: seq<Row>, i: nat)
    requires i < |rows|
    ensures MapOf(rows[..i + 1]) == MapOf(rows[..i])[rows[i].key := rows[i].doc]
  {
    assert rows[..i + 1][..i] == rows[..i];
  }

  /** left advances below the right stream's next key. */
  lemma FrontierLeft(left: seq<Row>, right: seq<Row>, i: nat, j: nat)
    requires StrictlyOrdered(left) && StrictlyOrdered(right) && Frontier(left, right, i, j) && i < |left|
    requires j == |right| || KeyLt(left[i].key, right[j].key)
    ensures Frontier(left, right, i + 1, j)
  {
    forall q | j <= q < |right| ensures KeyLt(left[i].key, right[q].key) {
      if q > j {
        KeyTransitive(left[i].key, right[j].key, right[q].key);
      }
    }
  }

  lemma FrontierBoth(left: seq<Row>, right: seq<Row>, i: nat, j: nat)
    requires StrictlyOrdered(left) && StrictlyOrdered(right) && Frontier(left, right, i, j)
    requires i < |left| && j < |right| && left[i].key == right[j].key
    ensures Frontier(left, right, i + 1, j + 1)
  {
  }

  lemma FrontierSwap(left: seq<Row>, right: seq<Row>, i: nat, j: nat)
    requires Frontier(left, right, i, j)
    ensures Frontier(right, left, j, i)
  {
  }

  /** The merge loop of verify_snapshot on one table. */
  method CompareTable(table: string, left: seq<Row>, right: seq<Row>) returns (counts: Counts, markers: Table)
    requires StrictlyOrdered(left) && StrictlyOrdered(right)
    ensures Tally(counts, markers, table, MapOf(left), MapOf(right))
  {
    hide StrictlyOrdered, MapOf, Frontier, Tally, Reserved;
    counts, markers := Counts(0, 0, 0, 0, 0), map[];
    var i, j := 0, 0;
    NothingRead(table, left, right);
    while i < |left| || j < |right|
      invariant i <= |left| && j <= |right| && Frontier(left, right, i, j)
      invariant Tally(counts, markers, table, MapOf(left[..i]), MapOf(right[..j]))
      decreases |left| - i + |right| - j
    {
      FrontierMeans(left, right, i, j);
      if j == |right| || (i < |left| && KeyLt(left[i].key, right[j].key)) {
        NextIsNew(left, i, right, j);
        TallyMissing(counts, markers, table, MapOf(left[..i]), MapOf(right[..j]), left[i].key, left[i].doc);
        OneMore(left, i);
        FrontierLeft(left, right, i, j);
        counts := counts.(expected := counts.expected + 1, missing := counts.missing + 1);
        i := i + 1;
      } else if i == |left| || KeyLt(right[j].key, left[i].key) {
        NextIsNew(right, j, left, i);
        OneMore(right, j);
        FrontierSwap(left, right, i, j);
        FrontierLeft(right, left, j, i);
        FrontierSwap(right, left, j + 1, i);
        if Reserved(table, right[j].key) && !right[j].doc.Malformed? {
          TallyMarker(counts, markers, table, MapOf(left[..i]), MapOf(right[..j]), right[j].key, right[j].doc);
          counts := counts.(actual := counts.actual + 1);
          markers := markers[right[j].key := right[j].doc];
        } else {
          TallyExtra(counts, markers, table, MapOf(left[..i]), MapOf(right[..j]), right[j].key, right[j].doc);
          counts := counts.(actual := counts.actual + 1, extra := counts.extra + 1);
        }
        j := j + 1;
      } else {
        KeyTrichotomy(left[i].key, right[j].key);
        NextIsNew(left, i, right, j);
        NextIsNew(right, j, left, i);
        TallyCommon(counts, markers, table, MapOf(left[..i]), MapOf(right[..j]), left[i].key, left[i].doc,
                    right[j].doc);
        OneMore(left, i);
        OneMore(right, j);
        FrontierBoth(left, right, i, j);
        counts := counts.(expected := counts.expected + 1, actual := counts.actual + 1,
                          changed := counts.changed + if left[i].doc != right[j].doc then 1 else 0);
        i, j := i + 1, j + 1;
      }
    }
    assert left[..i] == left && right[..j] == right;
  }

  lemma NothingRead(table: string, left: seq<Row>, right: seq<Row>)
    ensures Frontier(left, right, 0, 0)
      && Tally(Counts(0, 0, 0, 0, 0), map[], table, MapOf(left[..0]), MapOf(right[..0]))
  {
    hide Reserved;
    assert left[..0] == [] && right[..0] == [];
  }

  lemma FrontierMeans(left: seq<Row>, right: seq<Row>, i: nat, j: nat)
    requires Frontier(left, right, i, j)
    ensures i < |left| ==> forall p :: 0 <= p < j ==> KeyLt(right[p].key, left[i].key)
    ensures j < |right| ==> forall p :: 0 <= p < i ==> KeyLt(left[p].key, right[j].key)
  {
  }

  ghost predicate Clean(table: string, file: seq<Row>, right: Table) {
    Data(table, right) == MapOf(file) && forall k :: k in right && Reserved(table, k) ==> !right[k].Malformed?
  }

  ghost predicate NoDifference(table: string, left: Table, right: Table) {
    Missing(left, right) == {} && Extra(table, left, right) == {} && Changed(left, right) == {}
  }

  lemma ZeroMeansEmpty(counts: Counts, markers: Table, table: string, left: Table, right: Table)
    requires Tally(counts, markers, table, left, right)
    ensures counts.missing == 0 && counts.extra == 0 && counts.changed == 0 <==> NoDifference(table, left, right)
    ensures counts.expected == |left|
  {
    hide Missing, Extra, Changed, ForeignMarkers;
    EmptyIffZero(Missing(left, right));
    EmptyIffZero(Extra(table, left, right));
    EmptyIffZero(Changed(left, right));
  }

  lemma EmptyIffZero(keys: set<Key>)
    ensures |keys| == 0 <==> keys == {}
  {
  }

  lemma NoDifferenceIsEquality(table: string, left: Table, right: Table)
    requires NoDifference(table, left, right) && forall k :: k in left ==> !Reserved(table, k)
    ensures Data(table, right) == left
    ensures forall k :: k in right && Reserved(table, k) ==> !right[k].Malformed?
  {
    hide Reserved;
    forall k | k in left ensures k in right && right[k] == left[k] {
      assert k !in Missing(left, right) && k !in Changed(left, right);
    }
    forall k | k in right && k !in left ensures Reserved(table, k) && !right[k].Malformed? {
      assert k !in Extra(table, left, right);
    }
    assert forall k :: k in Data(table, right) <==> k in left;
  }

  lemma EqualityIsNoDifference(table: string, left: Table, right: Table)
    requires Data(table, right) == left
    requires forall k :: k in right && Reserved(table, k) ==> !right[k].Malformed?
    ensures NoDifference(table, left, right)
  {
    hide Reserved;
    assert forall k :: k in left <==> k in Data(table, right);
    assert forall k :: k !in Missing(left, right);
    assert forall k :: k !in Extra(table, left, right);
    assert forall k :: k !in Changed(left, right);
  }

  lemma ForeignIsReserved(table: string, left: Table, right: Table)
    requires forall k :: k in left ==> !Reserved(table, k)
    ensures ForeignMarkers(table, left, right) == map k | k in right && Reserved(table, k)
      && !right[k].Malformed? :: right[k]
  {
    hide Reserved;
  }

  lemma {:induction false} FileHasNoMarkers(table: string, file: seq<Row>)
    requires FileOk(table, file)
    ensures forall k :: k in MapOf(file) ==> !Reserved(table, k)
  {
    hide Reserved, MapOf;
    forall k | k in MapOf(file) ensures !Reserved(table, k) {
      MapOfKeys(file, k);
    }
  }

  /** A clean tally is equality of the two tables outside the markers. */
  lemma CleanTally(counts: Counts, markers: Table, table: string, file: seq<Row>, right: Table)
    requires FileOk(table, file) && Tally(counts, markers, table, MapOf(file), right)
    ensures counts.missing == 0 && counts.extra == 0 && counts.changed == 0 <==> Clean(table, file, right)
    ensures markers == map k | k in right && Reserved(table, k) && !right[k].Malformed? :: right[k]
    ensures counts.expected == |MapOf(file)|
  {
    hide Reserved, MapOf, NoDifference, FileOk, Data, Missing, Extra, Changed, ForeignMarkers;
    FileHasNoMarkers(table, file);
    ZeroMeansEmpty(counts, markers, table, MapOf(file), right);
    ForeignIsReserved(table, MapOf(file), right);
    if NoDifference(table, MapOf(file), right) {
      NoDifferenceIsEquality(table, MapOf(file), right);
    }
    if Clean(table, file, right) {
      EqualityIsNoDifference(table, MapOf(file), right);
    }
  }

  /** An artifact whose manifest and files can be read to the end. */
  ghost predicate Readable(a: Artifact, schema: Schema) {
    Hexadecimal(a.source)
    && a.counts.Keys == (set t | t in schema.tables) && a.files.Keys == (set t | t in schema.tables)
    && forall t :: t in schema.tables ==> FileOk(t, a.files[t]) && a.counts[t] == |MapOf(a.files[t])|
  }

  /** _expected_markers, as the only dictionary with the markers of a finished upload. */
  method ExpectedMarkerRows(a: Artifact, schema: Schema) returns (expected: Table)
    requires a.counts.Keys == (set t | t in schema.tables)
    ensures forall markers :: markers == expected <==> ExpectedMarkers(a, schema, markers)
  {
    hide TableMarker, Reserved;
    MarkerFacts();
    expected := map[STATE := State(a.hash, a.source, "complete")];
    var i := 0;
    while i < |schema.tables|
      invariant i <= |schema.tables| && STATE in expected
      invariant forall j :: 0 <= j < i ==> TableMarker(schema.tables[j]) in expected
      invariant forall k :: k in expected ==> IsExpectedMarker(a, schema, k, expected[k])
    {
      var table := schema.tables[i];
      expected := expected[TableMarker(table) := Progress(a.hash, a.counts[table])];
      i := i + 1;
    }
    assert ExpectedMarkers(a, schema, expected);
    forall markers | ExpectedMarkers(a, schema, markers) ensures markers == expected {
      OneExpectation(a, schema, markers, expected);
    }
  }

  lemma OneExpectation(a: Artifact, schema: Schema, x: Table, y: Table)
    requires ExpectedMarkers(a, schema, x) && ExpectedMarkers(a, schema, y)
    ensures x == y
  {
    hide TableMarker, Reserved;
    MarkerFacts();
    forall k ensures k in x <==> k in y {
      assert k in x ==> IsExpectedMarker(a, schema, k, x[k]);
      assert k in y ==> IsExpectedMarker(a, schema, k, y[k]);
    }
    forall k | k in x ensures x[k] == y[k] {
      assert IsExpectedMarker(a, schema, k, x[k]) && IsExpectedMarker(a, schema, k, y[k]);
    }
  }

  datatype Report = Failed
    | Compared(ok: bool, mismatches: nat, tables: map<string, Counts>, markersComplete: bool, journalEmpty: bool)

  /** The comparison of one table, with the file read to its end. */
  method CompareFile(table: string, file: seq<Row>, count: int, right: seq<Row>)
    returns (failed: bool, counts: Counts, markers: Table)
    requires StrictlyOrdered(right)
    ensures failed <==> !(FileOk(table, file) && count == |MapOf(file)|)
    ensures !failed ==> Tally(counts, markers, table, MapOf(file), MapOf(right))
    ensures !failed ==> (counts.missing + counts.extra + counts.changed == 0 <==> Clean(table, file, MapOf(right)))
    ensures !failed && table == METADATA ==> markers == Markers(MapOf(right))
    ensures !failed && table != METADATA ==> markers == map[]
  {
    hide Tally, MapOf, StrictlyOrdered;
    counts, markers := Counts(0, 0, 0, 0, 0), map[];
    var readable := FileRows(table, file);
    if !readable {
      return true, counts, markers;
    }
    FileIsOrdered(table, file);
    counts, markers := CompareTable(table, file, right);
    CleanTally(counts, markers, table, file, MapOf(right));
    failed := counts.expected != count;
  }

  lemma FileIsOrdered(table: string, file: seq<Row>)
    requires FileOk(table, file)
    ensures StrictlyOrdered(file)
  {
  }

  ghost predicate TablesReadable(a: Artifact, tables: seq<string>)
    requires forall t :: t in tables ==> t in a.counts && t in a.files
  {
    forall t :: t in tables ==> FileOk(t, a.files[t]) && a.counts[t] == |MapOf(a.files[t])|
  }

  ghost predicate TablesClean(db: Database, a: Artifact, tables: seq<string>)
    requires forall t :: t in tables ==> t in a.files && t in db
  {
    forall t :: t in tables ==> Clean(t, a.files[t], db[t])
  }

  /** The counts reported for the tables are the sizes of the differences. */
  ghost predicate TablesTallied(db: Database, a: Artifact, results: map<string, Counts>, tables: seq<string>)
    requires forall t :: t in tables ==> t in a.files && t in db
  {
    forall t :: t in tables ==>
      t in results && Tally(results[t], ForeignMarkers(t, MapOf(a.files[t]), db[t]), t, MapOf(a.files[t]), db[t])
  }

  lemma TallyNamesMarkers(counts: Counts, markers: Table, table: string, left: Table, right: Table)
    requires Tally(counts, markers, table, left, right)
    ensures Tally(counts, ForeignMarkers(table, left, right), table, left, right)
  {
  }

  lemma NothingCompared(db: Database, a: Artifact, results: map<string, Counts>)
    ensures TablesReadable(a, []) && TablesClean(db, a, []) && TablesTallied(db, a, results, [])
  {
  }

  lemma OneMoreReadable(a: Artifact, tables: seq<string>, i: nat)
    requires i < |tables| && forall t :: t in tables ==> t in a.counts && t in a.files
    ensures var t := tables[i];
      TablesReadable(a, tables[..i + 1]) <==>
      TablesReadable(a, tables[..i]) && FileOk(t, a.files[t]) && a.counts[t] == |MapOf(a.files[t])|
    ensures TablesReadable(a, tables) ==> TablesReadable(a, tables[..i + 1])
  {
    hide FileOk, MapOf;
    assert tables[..i + 1] == tables[..i] + [tables[i]];
  }

  lemma OneMoreClean(db: Database, a: Artifact, tables: seq<string>, i: nat)
    requires i < |tables| && forall t :: t in tables ==> t in a.files && t in db
    ensures TablesClean(db, a, tables[..i + 1])
      <==> TablesClean(db, a, tables[..i]) && Clean(tables[i], a.files[tables[i]], db[tables[i]])
  {
    hide Clean;
    assert tables[..i + 1] == tables[..i] + [tables[i]];
  }

  lemma OneMoreTallied(db: Database, a: Artifact, results: map<string, Counts>, schema: Schema, i: nat, counts: Counts,
                       found: Table)
    requires WellFormedSchema(schema) && i < |schema.tables|
      && forall t :: t in schema.tables ==> t in a.files && t in db
    requires TablesTallied(db, a, results, schema.tables[..i])
    requires var t := schema.tables[i]; Tally(counts, found, t, MapOf(a.files[t]), db[t])
    ensures TablesTallied(db, a, results[schema.tables[i] := counts], schema.tables[..i + 1])
  {
    hide Tally, MapOf, ForeignMarkers;
    var t := schema.tables[i];
    TallyNamesMarkers(counts, found, t, MapOf(a.files[t]), db[t]);
    assert schema.tables[..i + 1] == schema.tables[..i] + [t];
  }

  /** The loop of verify_snapshot over the tables. */
  method CompareTables(db: Database, listing: map<string, seq<Row>>, a: Artifact, schema: Schema)
    returns (failed: bool, bad: nat, results: map<string, Counts>, markers: Table)
    requires WellFormedSchema(schema) && METADATA in db
    requires forall t :: t in schema.tables ==>
      t in a.counts && t in a.files && t in db && t in listing && StrictlyOrdered(listing[t])
        && MapOf(listing[t]) == db[t]
    ensures failed <==> !TablesReadable(a, schema.tables)
    ensures !failed ==>
      (bad == 0 <==> TablesClean(db, a, schema.tables)) && TablesTallied(db, a, results, schema.tables)
    ensures !failed ==> markers == Markers(db[METADATA])
  {
    hide MapOf, StrictlyOrdered, Tally, Reserved, TableMarker, FileOk, Clean, Markers, ForeignMarkers, TablesReadable;
    hide TablesClean, TablesTallied;
    failed, bad, results, markers := false, 0, map[], map[];
    NothingCompared(db, a, results);
    assert schema.tables[..0] == [];
    var i := 0;
    while i < |schema.tables|
      invariant i <= |schema.tables| && !failed
      invariant TablesReadable(a, schema.tables[..i])
      invariant bad == 0 <==> TablesClean(db, a, schema.tables[..i])
      invariant TablesTallied(db, a, results, schema.tables[..i])
      invariant markers == if METADATA in schema.tables[..i] then Markers(db[METADATA]) else map[]
    {
      var table := schema.tables[i];
      assert schema.tables[..i + 1] == schema.tables[..i] + [table];
      var counts, found;
      failed, counts, found := CompareFile(table, a.files[table], a.counts[table], listing[table]);
      OneMoreReadable(a, schema.tables, i);
      if failed {
        return;
      }
      OneMoreClean(db, a, schema.tables, i);
      OneMoreTallied(db, a, results, schema, i, counts, found);
      MarkersOnce(schema, i, markers, found, db[METADATA]);
      bad := bad + counts.missing + counts.extra + counts.changed;
      results := results[table := counts];
      markers := markers + found;
      i := i + 1;
    }
    assert schema.tables[..i] == schema.tables;
  }

  /** transfer_ydb_snapshot.verify_snapshot; listing holds what an ordered read of each table
      yields. The report is ok exactly when target and artifact agree. */
  method VerifySnapshot(db: Database, listing: map<string, seq<Row>>, a: Artifact, schema: Schema,
                        requireComplete: bool)
    returns (report: Report)
    requires WellFormedSchema(schema)
    requires forall t :: t in schema.tables && t in db ==>
      t in listing && StrictlyOrdered(listing[t]) && MapOf(listing[t]) == db[t]
    ensures report.Failed? <==> !(Readable(a, schema) && SchemaOk(db, schema))
    ensures report.Compared? ==>
      a.files.Keys == (set t | t in schema.tables) && SchemaOk(db, schema)
      && (report.ok <==> Matches(db, a, schema, requireComplete))
      && TablesTallied(db, a, report.tables, schema.tables)
      && (report.markersComplete <==> ExpectedMarkers(a, schema, Markers(db[METADATA])))
  {
    hide MapOf, StrictlyOrdered, TablesTallied, FileOk, Hexadecimal, WellFormedSchema, Matches, Markers;
    hide ExpectedMarkers, Clean;
    var names := set t | t in schema.tables;
    if a.counts.Keys != names || a.files.Keys != names || !Hexadecimal(a.source) || !SchemaOk(db, schema) {
      return Failed;
    }
    SchemaTables(db, schema);
    var journalEmpty := !requireComplete || db[JOURNAL] == map[];
    var failed, bad, results, markers := CompareTables(db, listing, a, schema);
    if failed {
      return Failed;
    }
    var expected := ExpectedMarkerRows(a, schema);
    var markersOk := if markers != map[] || requireComplete then markers == expected else true;
    var total := bad + (if markersOk then 0 else 1) + (if journalEmpty then 0 else 1);
    CleanMeansMatches(db, a, schema, requireComplete);
    report := Compared(total == 0, total, results, markers == expected, journalEmpty);
  }

  lemma MarkersOnce(schema: Schema, i: nat, markers: Table, found: Table, metadata: Table)
    requires WellFormedSchema(schema) && i < |schema.tables|
    requires markers == if METADATA in schema.tables[..i] then Markers(metadata) else map[]
    requires schema.tables[i] == METADATA ==> found == Markers(metadata)
    requires schema.tables[i] != METADATA ==> found == map[]
    ensures markers + found == if METADATA in schema.tables[..i + 1] then Markers(metadata) else map[]
  {
    hide Markers;
    assert schema.tables[..i + 1] == schema.tables[..i] + [schema.tables[i]];
  }

  lemma CleanMeansMatches(db: Database, a: Artifact, schema: Schema, requireComplete: bool)
    requires SchemaOk(db, schema) && a.files.Keys == (set t | t in schema.tables) && WellFormedSchema(schema)
    ensures Matches(db, a, schema, requireComplete) <==>
      TablesClean(db, a, schema.tables)
      && (Markers(db[METADATA]) != map[] || requireComplete ==> ExpectedMarkers(a, schema, Markers(db[METADATA])))
      && (requireComplete ==> db[JOURNAL] == map[])
  {
    hide MapOf, Markers, TableMarker, ExpectedMarkers;
    assert forall t, k :: t != METADATA ==> !Reserved(t, k);
  }

  /** The two tools agree: after a run of the uploader that was neither refused nor
      interrupted the verifier reports success, and only then. */
  lemma VerifiedIffFinished(db: Database, a: Artifact, schema: Schema)
    requires WellFormedSchema(schema) && GoodArtifact(a, schema) && SchemaOk(db, schema)
    requires METADATA in db && a.files.Keys == (set t | t in schema.tables)
    ensures Matches(db, a, schema, true) <==>
      STATE in db[METADATA] && Resumable(db, a, schema) && db[METADATA][STATE] == State(a.hash, a.source, "complete")
  {
    hide Resumable, Matches, GoodArtifact, SchemaOk;
    if Matches(db, a, schema, true) {
      MatchesIsFinished(db, a, schema);
      ResumableHasState(db, a, schema);
    } else if STATE in db[METADATA] && Resumable(db, a, schema)
              && db[METADATA][STATE] == State(a.hash, a.source, "complete") {
      FinishedMatches(db, a, schema);
    }
  }

  lemma ResumableHasState(db: Database, a: Artifact, schema: Schema)
    requires Resumable(db, a, schema) && METADATA in db
    ensures STATE in db[METADATA]
  {
  }
}
