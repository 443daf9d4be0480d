/** The resumable upload of a snapshot: rows in bounded batches, a progress marker per table,
    a state marker around the whole. The process may die at any point, also in the middle
    of a bulk write, and be started again with other limits. */
module SnapshotUpload {
  import opened Options
  import opened KeyOrder
  import opened SnapshotStore

  const BATCH_ROWS := 500
  const BATCH_BYTES := 131072

  function MarkerOf(db: Database, table: string): Option<Doc> {
    if METADATA in db && TableMarker(table) in db[METADATA] then Some(db[METADATA][TableMarker(table)]) else None
  }

  /** Rows of a table that its progress marker vouches for. */
  function Done(db: Database, table: string): nat {
    match MarkerOf(db, table)
    case Some(Progress(_, rows)) => if rows >= 0 then rows else 0
    case _ => 0
  }

  /** The two states of an upload that has begun. */
  predicate Status(a: Artifact, doc: Doc) {
    doc == State(a.hash, a.source, "loading") || doc == State(a.hash, a.source, "complete")
  }

  ghost predicate IsProgressMarker(a: Artifact, schema: Schema, key: Key, doc: Doc) {
    exists t :: t in schema.tables && t in a.files && key == TableMarker(t)
      && doc.Progress? && doc.manifest == a.hash && 0 <= doc.rows <= |a.files[t]|
  }

  /** Outside the markers the table holds only rows of the artifact. */
  ghost predicate OnlyArtifactRows(table: string, rows: Table, file: seq<Row>) {
    forall k :: k in rows && !Reserved(table, k) ==> k in MapOf(file) && rows[k] == MapOf(file)[k]
  }

  ghost predicate HoldsFirst(rows: Table, file: seq<Row>, n: nat) {
    n <= |file| && forall i :: 0 <= i < n ==> file[i].key in rows
  }

  ghost predicate MarkersSound(metadata: Table, a: Artifact, schema: Schema) {
    STATE in metadata && Status(a, metadata[STATE])
    && forall k :: k in metadata && Reserved(METADATA, k) && k != STATE ==> IsProgressMarker(a, schema, k, metadata[k])
  }

  ghost predicate TableSound(db: Database, table: string, a: Artifact) {
    table in db && table in a.files
    && OnlyArtifactRows(table, db[table], a.files[table]) && HoldsFirst(db[table], a.files[table], Done(db, table))
  }

  ghost predicate AllUploaded(db: Database, a: Artifact, schema: Schema) {
    forall t :: t in schema.tables ==> t in a.files && MarkerOf(db, t) == Some(Progress(a.hash, |a.files[t]|))
  }

  /** What every upload of the artifact keeps, from its first marker on. */
  ghost predicate Resumable(db: Database, a: Artifact, schema: Schema) {
    WellFormedSchema(schema) && GoodArtifact(a, schema) && SchemaOk(db, schema) && db[JOURNAL] == map[]
    && MarkersSound(db[METADATA], a, schema)
    && (forall t :: t in schema.tables ==> TableSound(db, t, a))
    && (db[METADATA][STATE] == State(a.hash, a.source, "complete") ==> AllUploaded(db, a, schema))
  }

  /** A namespace straight after schema initialisation. */
  ghost predicate Fresh(db: Database, schema: Schema) {
    SchemaOk(db, schema) && db[JOURNAL] == map[]
    && db[METADATA].Keys == {Named("schema_version"), Named("schema_hash")}
    && forall t :: t in schema.tables && t != METADATA ==> db[t] == map[]
  }

  /** What _load_progress accepts once the state marker exists. */
  ghost predicate Loadable(db: Database, a: Artifact, schema: Schema)
    requires METADATA in db && STATE in db[METADATA]
  {
    var metadata := db[METADATA];
    Status(a, metadata[STATE])
    && (forall t :: t in schema.tables && TableMarker(t) in metadata ==>
          t in a.counts && var doc := metadata[TableMarker(t)];
          doc.Progress? && doc.manifest == a.hash && 0 <= doc.rows <= a.counts[t])
    && (metadata[STATE] == State(a.hash, a.source, "complete") ==>
          forall t :: t in schema.tables ==> t in a.counts && Done(db, t) == a.counts[t])
  }

  // ---- Every single effect of the uploader keeps the invariant ------------------------------

  lemma MarkerFacts()
    ensures Reserved(METADATA, STATE)
    ensures forall t :: Reserved(METADATA, TableMarker(t)) && TableMarker(t) != STATE
    ensures forall t, u :: TableMarker(t) == TableMarker(u) ==> t == u
    ensures !Reserved(METADATA, Named("schema_version")) && !Reserved(METADATA, Named("schema_hash"))
  {
    forall t ensures Reserved(METADATA, TableMarker(t)) && TableMarker(t) != STATE {
      MarkersAreReserved(t);
    }
    forall t, u | TableMarker(t) == TableMarker(u) ensures t == u {
      MarkerNamesTable(t, u);
    }
    MarkersAreReserved("");
  }

  lemma ArtifactFacts(a: Artifact, schema: Schema, t: string)
    requires GoodArtifact(a, schema) && t in schema.tables
    ensures t in a.files && t in a.counts && FileOk(t, a.files[t]) && a.counts[t] == |a.files[t]|
  {
  }

  /** Some of the rows were written, each whole: what a bulk write leaves when it dies. */
  ghost predicate PartlyWritten(before: Table, after: Table, rows: seq<Row>) {
    before.Keys <= after.Keys
    && forall k :: k in after ==> (k in before && after[k] == before[k]) || Row(k, after[k]) in rows
  }

  ghost predicate Written(before: Table, after: Table, rows: seq<Row>) {
    PartlyWritten(before, after, rows) && forall r :: r in rows ==> r.key in after
  }

  /** Rows of the artifact change no marker, and so no progress. */
  lemma RowsKeepMarkers(db: Database, table: string, after: Table, rows: seq<Row>, file: seq<Row>)
    requires table in db && FileOk(table, file)
    requires PartlyWritten(db[table], after, rows) && forall r :: r in rows ==> r in file
    ensures forall k :: Reserved(table, k) ==>
      (k in after <==> k in db[table]) && (k in after ==> after[k] == db[table][k])
    ensures METADATA in db ==> forall t :: MarkerOf(db[table := after], t) == MarkerOf(db, t)
  {
    hide Reserved, TableMarker;
    MarkerFacts();
    forall k | Reserved(table, k)
      ensures (k in after <==> k in db[table]) && (k in after ==> after[k] == db[table][k])
    {
      assert k in after ==> Row(k, after[k]) !in rows;
    }
  }

  lemma RowsKeepTable(table: string, before: Table, after: Table, rows: seq<Row>, file: seq<Row>)
    requires FileOk(table, file) && OnlyArtifactRows(table, before, file)
    requires PartlyWritten(before, after, rows) && forall r :: r in rows ==> r in file
    ensures OnlyArtifactRows(table, after, file)
  {
    hide Reserved, MapOf;
    forall k | k in after && !Reserved(table, k) ensures k in MapOf(file) && after[k] == MapOf(file)[k] {
      if !(k in before && after[k] == before[k]) {
        var i :| 0 <= i < |file| && file[i] == Row(k, after[k]);
        MapOfEntry(file, i);
      }
    }
  }

  /** The metadata file holds the schema rows, so they keep their values. */
  lemma SchemaRowsStay(db: Database, table: string, after: Table, a: Artifact, schema: Schema)
    requires SchemaOk(db, schema) && GoodArtifact(a, schema) && table in schema.tables && table in db
    requires db[table].Keys <= after.Keys && table in a.files && OnlyArtifactRows(table, after, a.files[table])
    ensures SchemaOk(db[table := after], schema)
  {
    hide Reserved, TableMarker, MapOf, FileOk;
    MarkerFacts();
  }

  lemma RowsKeepResumable(db: Database, table: string, after: Table, rows: seq<Row>, a: Artifact, schema: Schema)
    requires table in db && table in a.files
    requires Resumable(db, a, schema) && table in schema.tables
    requires PartlyWritten(db[table], after, rows) && forall r :: r in rows ==> r in a.files[table]
    ensures Resumable(db[table := after], a, schema)
    ensures forall t :: MarkerOf(db[table := after], t) == MarkerOf(db, t)
  {
    hide Reserved, TableMarker, MapOf, GoodArtifact, FileOk, SchemaOk, OnlyArtifactRows, MarkerOf;
    MarkerFacts();
    ArtifactFacts(a, schema, table);
    var db' := db[table := after];
    assert TableSound(db, table, a);
    RowsKeepMarkers(db, table, after, rows, a.files[table]);
    RowsKeepTable(table, db[table], after, rows, a.files[table]);
    SchemaRowsStay(db, table, after, a, schema);
    forall t | t in schema.tables ensures TableSound(db', t, a) {
      assert TableSound(db, t, a);
    }
    assert MarkersSound(db'[METADATA], a, schema);
  }

  /** A change of markers alone leaves every table as sound as its marker is. */
  lemma MarkersKeepTables(db: Database, metadata: Table, a: Artifact, schema: Schema)
    requires METADATA in db && forall t :: t in schema.tables ==> TableSound(db, t, a)
    requires forall k :: !Reserved(METADATA, k) ==>
      (k in metadata <==> k in db[METADATA]) && (k in metadata ==> metadata[k] == db[METADATA][k])
    requires db[METADATA].Keys <= metadata.Keys
    requires forall t :: t in schema.tables ==>
      t in db && t in a.files && HoldsFirst(db[t], a.files[t], Done(db[METADATA := metadata], t))
    ensures forall t :: t in schema.tables ==> TableSound(db[METADATA := metadata], t, a)
  {
    hide Reserved, TableMarker, MapOf, MarkerOf;
    forall t | t in schema.tables ensures TableSound(db[METADATA := metadata], t, a) {
      assert TableSound(db, t, a);
    }
  }

  lemma SchemaRowsUnmarked(db: Database, metadata: Table, schema: Schema)
    requires SchemaOk(db, schema)
    requires forall k :: !Reserved(METADATA, k) ==>
      (k in metadata <==> k in db[METADATA]) && (k in metadata ==> metadata[k] == db[METADATA][k])
    ensures SchemaOk(db[METADATA := metadata], schema)
  {
    hide Reserved, TableMarker;
    MarkerFacts();
  }

  lemma OneMarkerMoves(db: Database, table: string, a: Artifact, n: nat)
    requires METADATA in db
    ensures var db' := db[METADATA := db[METADATA][TableMarker(table) := Progress(a.hash, n)]];
      MarkerOf(db', table) == Some(Progress(a.hash, n))
        && forall t :: t != table ==> MarkerOf(db', t) == MarkerOf(db, t)
  {
    hide Reserved, TableMarker;
    MarkerFacts();
  }

  /** Moving a table's marker to n rows, all of which are there. */
  lemma MarkerKeepsResumable(db: Database, table: string, n: nat, a: Artifact, schema: Schema)
    requires METADATA in db && table in db && table in a.files && STATE in db[METADATA]
    requires Resumable(db, a, schema) && table in schema.tables && HoldsFirst(db[table], a.files[table], n)
    requires db[METADATA][STATE] == State(a.hash, a.source, "complete") ==> n == |a.files[table]|
    ensures var db' := db[METADATA := db[METADATA][TableMarker(table) := Progress(a.hash, n)]];
      Resumable(db', a, schema) && MarkerOf(db', table) == Some(Progress(a.hash, n))
        && forall t :: t != table ==> MarkerOf(db', t) == MarkerOf(db, t)
  {
    hide Reserved, TableMarker, MapOf, GoodArtifact, FileOk, SchemaOk, OnlyArtifactRows, MarkerOf;
    MarkerFacts();
    var metadata := db[METADATA][TableMarker(table) := Progress(a.hash, n)];
    OneMarkerMoves(db, table, a, n);
    forall t | t in schema.tables
      ensures t in db && t in a.files && HoldsFirst(db[t], a.files[t], Done(db[METADATA := metadata], t))
    {
      assert TableSound(db, t, a);
    }
    MarkersKeepTables(db, metadata, a, schema);
    SchemaRowsUnmarked(db, metadata, schema);
    assert IsProgressMarker(a, schema, TableMarker(table), Progress(a.hash, n));
  }

  lemma StateMoves(db: Database, doc: Doc)
    requires METADATA in db
    ensures forall t :: MarkerOf(db[METADATA := db[METADATA][STATE := doc]], t) == MarkerOf(db, t)
  {
    hide Reserved, TableMarker;
    MarkerFacts();
  }

  lemma CompleteKeepsResumable(db: Database, a: Artifact, schema: Schema)
    requires METADATA in db && Resumable(db, a, schema) && AllUploaded(db, a, schema)
    ensures var db' := db[METADATA := db[METADATA][STATE := State(a.hash, a.source, "complete")]];
      Resumable(db', a, schema) && AllUploaded(db', a, schema) && forall t :: MarkerOf(db', t) == MarkerOf(db, t)
  {
    hide Reserved, TableMarker, MapOf, GoodArtifact, FileOk, SchemaOk, OnlyArtifactRows, MarkerOf;
    MarkerFacts();
    var metadata := db[METADATA][STATE := State(a.hash, a.source, "complete")];
    StateMoves(db, State(a.hash, a.source, "complete"));
    forall t | t in schema.tables
      ensures t in db && t in a.files && HoldsFirst(db[t], a.files[t], Done(db[METADATA := metadata], t))
    {
      assert TableSound(db, t, a);
    }
    MarkersKeepTables(db, metadata, a, schema);
    SchemaRowsUnmarked(db, metadata, schema);
  }

  lemma FreshHasNoProgress(db: Database, schema: Schema)
    requires Fresh(db, schema)
    ensures forall t :: MarkerOf(db, t) == None
    ensures forall k :: k in db[METADATA] ==> !Reserved(METADATA, k)
  {
    hide Reserved, TableMarker;
    MarkerFacts();
  }

  lemma FreshTablesSound(db: Database, a: Artifact, schema: Schema)
    requires GoodArtifact(a, schema) && Fresh(db, schema)
    ensures forall t :: t in schema.tables ==> TableSound(db, t, a)
  {
    hide Reserved, TableMarker, MapOf, FileOk, MarkerOf;
    FreshHasNoProgress(db, schema);
  }

  /** The first marker, on an empty initialised namespace. */
  lemma StartMakesResumable(db: Database, a: Artifact, schema: Schema)
    requires METADATA in db && WellFormedSchema(schema) && GoodArtifact(a, schema) && Fresh(db, schema)
    ensures var db' := db[METADATA := db[METADATA][STATE := State(a.hash, a.source, "loading")]];
      Resumable(db', a, schema) && forall t :: MarkerOf(db', t) == MarkerOf(db, t) == None
  {
    hide Reserved, TableMarker, MapOf, GoodArtifact, FileOk, OnlyArtifactRows, MarkerOf;
    MarkerFacts();
    var metadata := db[METADATA][STATE := State(a.hash, a.source, "loading")];
    FreshHasNoProgress(db, schema);
    FreshTablesSound(db, a, schema);
    StateMoves(db, State(a.hash, a.source, "loading"));
    forall t ensures MarkerOf(db[METADATA := metadata], t) == MarkerOf(db, t) == None {
    }
    MarkersKeepTables(db, metadata, a, schema);
    SchemaRowsUnmarked(db, metadata, schema);
  }

  /** Every state the uploader can leave behind is accepted by the next start. */
  lemma ResumableIsLoadable(db: Database, a: Artifact, schema: Schema)
    requires METADATA in db && STATE in db[METADATA] && Resumable(db, a, schema)
    ensures Loadable(db, a, schema)
  {
    hide Reserved, TableMarker, MapOf, GoodArtifact, SchemaOk, FileOk, OnlyArtifactRows;
    MarkerFacts();
    forall t | t in schema.tables ensures t in a.counts && t in a.files && a.counts[t] == |a.files[t]| {
      ArtifactFacts(a, schema, t);
    }
    forall t | t in schema.tables && TableMarker(t) in db[METADATA]
      ensures IsProgressMarker(a, schema, TableMarker(t), db[METADATA][TableMarker(t)])
    {
    }
  }

  lemma FinishedTableMatches(db: Database, t: string, a: Artifact, schema: Schema)
    requires t in db && t in a.files && FileOk(t, a.files[t]) && TableSound(db, t, a) && Done(db, t) == |a.files[t]|
    ensures Data(t, db[t]) == MapOf(a.files[t])
  {
    hide Reserved, MapOf, MarkerOf;
    var file := a.files[t];
    forall k ensures k in Data(t, db[t]) <==> k in MapOf(file) {
      MapOfKeys(file, k);
      if k in MapOf(file) {
        var i :| 0 <= i < |file| && file[i].key == k;
        assert file[i].key in db[t] && !Reserved(t, file[i].key);
      }
    }
  }

  lemma FinishedMarkers(db: Database, a: Artifact, schema: Schema)
    requires METADATA in db && MarkersSound(db[METADATA], a, schema) && AllUploaded(db, a, schema)
    requires db[METADATA][STATE] == State(a.hash, a.source, "complete")
    requires forall t :: t in schema.tables ==> t in a.counts && t in a.files && a.counts[t] == |a.files[t]|
    ensures ExpectedMarkers(a, schema, Markers(db[METADATA]))
    ensures forall k :: k in db[METADATA] && Reserved(METADATA, k) ==> !db[METADATA][k].Malformed?
  {
    hide Reserved, TableMarker;
    MarkerFacts();
    forall k | k in db[METADATA] && Reserved(METADATA, k)
      ensures !db[METADATA][k].Malformed? && IsExpectedMarker(a, schema, k, db[METADATA][k])
    {
      if k != STATE {
        assert IsProgressMarker(a, schema, k, db[METADATA][k]);
        var t :| t in schema.tables && t in a.files && k == TableMarker(t);
      }
    }
  }

  /** A finished upload is one in which the independent comparison, with the upload required
      to be complete, finds nothing. */
  lemma FinishedMatches(db: Database, a: Artifact, schema: Schema)
    requires METADATA in db && STATE in db[METADATA] && SchemaOk(db, schema)
      && a.files.Keys == (set t | t in schema.tables)
    requires Resumable(db, a, schema) && db[METADATA][STATE] == State(a.hash, a.source, "complete")
    ensures Matches(db, a, schema, true)
  {
    hide Reserved, TableMarker, MapOf, GoodArtifact, FileOk, OnlyArtifactRows, HoldsFirst;
    forall t | t in schema.tables
      ensures Data(t, db[t]) == MapOf(a.files[t]) && t in a.counts && t in a.files && a.counts[t] == |a.files[t]|
    {
      ArtifactFacts(a, schema, t);
      assert TableSound(db, t, a);
      FinishedTableMatches(db, t, a, schema);
    }
    FinishedMarkers(db, a, schema);
  }

  lemma MatchedMarkers(metadata: Table, a: Artifact, schema: Schema)
    requires ExpectedMarkers(a, schema, Markers(metadata))
    requires forall k :: k in metadata && Reserved(METADATA, k) ==> !metadata[k].Malformed?
    requires forall t :: t in schema.tables ==> t in a.counts && t in a.files && a.counts[t] == |a.files[t]|
    ensures MarkersSound(metadata, a, schema) && metadata[STATE] == State(a.hash, a.source, "complete")
    ensures forall t :: t in schema.tables ==>
      TableMarker(t) in metadata && metadata[TableMarker(t)] == Progress(a.hash, |a.files[t]|)
  {
    hide Reserved, TableMarker;
    MarkerFacts();
    var markers := Markers(metadata);
    assert IsExpectedMarker(a, schema, STATE, markers[STATE]);
    forall t | t in schema.tables
      ensures TableMarker(t) in metadata && metadata[TableMarker(t)] == Progress(a.hash, |a.files[t]|)
    {
      assert IsExpectedMarker(a, schema, TableMarker(t), markers[TableMarker(t)]);
    }
    forall k | k in metadata && Reserved(METADATA, k) && k != STATE
      ensures IsProgressMarker(a, schema, k, metadata[k])
    {
      assert IsExpectedMarker(a, schema, k, markers[k]);
    }
  }

  lemma MatchedTable(db: Database, t: string, a: Artifact)
    requires t in db && t in a.files && FileOk(t, a.files[t]) && Data(t, db[t]) == MapOf(a.files[t])
    ensures OnlyArtifactRows(t, db[t], a.files[t]) && HoldsFirst(db[t], a.files[t], |a.files[t]|)
  {
    hide Reserved, MapOf;
    forall i | 0 <= i < |a.files[t]| ensures a.files[t][i].key in db[t] {
      MapOfEntry(a.files[t], i);
      assert a.files[t][i].key in Data(t, db[t]);
    }
  }

  lemma MatchedTables(db: Database, a: Artifact, schema: Schema)
    requires GoodArtifact(a, schema) && SchemaOk(db, schema) && AllUploaded(db, a, schema)
    requires forall t :: t in schema.tables ==> t in db && t in a.files && Data(t, db[t]) == MapOf(a.files[t])
    ensures forall t :: t in schema.tables ==> TableSound(db, t, a)
  {
    hide MapOf, GoodArtifact, FileOk, OnlyArtifactRows, HoldsFirst, MarkerOf, Data;
    forall t | t in schema.tables ensures TableSound(db, t, a) {
      ArtifactFacts(a, schema, t);
      MatchedTable(db, t, a);
    }
  }

  /** Conversely, a namespace in which the comparison finds nothing is a finished upload. */
  lemma MatchesIsFinished(db: Database, a: Artifact, schema: Schema)
    requires WellFormedSchema(schema) && GoodArtifact(a, schema) && SchemaOk(db, schema)
    requires a.files.Keys == (set t | t in schema.tables) && Matches(db, a, schema, true)
    ensures Resumable(db, a, schema) && db[METADATA][STATE] == State(a.hash, a.source, "complete")
  {
    hide Reserved, TableMarker, MapOf, GoodArtifact, FileOk, ExpectedMarkers, TableSound, MarkersSound, Data, Markers;
    forall t | t in schema.tables ensures t in a.counts && t in a.files && a.counts[t] == |a.files[t]| {
      ArtifactFacts(a, schema, t);
    }
    MatchedMarkers(db[METADATA], a, schema);
    MatchedTables(db, a, schema);
  }

  // ---- The uploader -------------------------------------------------------------------------

  function Upserted(rows: Table, batch: seq<Row>): Table {
    if batch == [] then rows else Upserted(rows, batch[..|batch| - 1])[batch[|batch| - 1].key := batch[|batch| - 1].doc]
  }

  lemma {:induction false} UpsertedIsWritten(rows: Table, batch: seq<Row>)
    ensures Written(rows, Upserted(rows, batch), batch)
  {
    if batch != [] {
      var front, last := batch[..|batch| - 1], batch[|batch| - 1];
      UpsertedIsWritten(rows, front);
      assert batch == front + [last];
      var after := Upserted(rows, batch);
      forall k | k in after ensures (k in rows && after[k] == rows[k]) || Row(k, after[k]) in batch {
        if k == last.key {
          assert Row(k, after[k]) == last;
        }
      }
    }
  }

  predicate Loading(db: Database, a: Artifact) {
    METADATA in db && STATE in db[METADATA] && db[METADATA][STATE] == State(a.hash, a.source, "loading")
  }

  /** What a write keeps: the invariant, every data row, a finished state, and no table's
      progress shrinks. */
  ghost predicate Advances(before: Database, after: Database, a: Artifact, schema: Schema) {
    Resumable(before, a, schema) && Resumable(after, a, schema) && (Loading(after, a) ==> Loading(before, a))
    && forall t :: t in schema.tables ==>
         t in before && t in after && Done(before, t) <= Done(after, t) && before[t].Keys <= after[t].Keys
  }

  lemma AdvancesTransitive(x: Database, y: Database, z: Database, a: Artifact, schema: Schema)
    requires Advances(x, y, a, schema) && Advances(y, z, a, schema)
    ensures Advances(x, z, a, schema)
  {
    hide Resumable, Done;
  }

  lemma NothingAdvances(db: Database, a: Artifact, schema: Schema)
    requires Resumable(db, a, schema)
    ensures Advances(db, db, a, schema)
  {
    forall t | t in schema.tables ensures t in db {
      assert TableSound(db, t, a);
    }
  }

  /** A data row that is present keeps its value for the rest of the upload. */
  lemma RowsStay(before: Database, after: Database, a: Artifact, schema: Schema, t: string, k: Key)
    requires Advances(before, after, a, schema) && t in schema.tables && t in before && t in after
    requires k in before[t] && !Reserved(t, k)
    ensures k in after[t] && after[t][k] == before[t][k]
  {
    hide MapOf, Reserved, GoodArtifact, SchemaOk, MarkersSound, AllUploaded;
    assert TableSound(before, t, a) && TableSound(after, t, a);
  }

  /** rows is the part of the file that follows the first `from` rows. */
  predicate Follows(file: seq<Row>, from: nat, rows: seq<Row>) {
    from + |rows| <= |file| && rows == file[from..from + |rows|]
  }

  lemma RowsAdvance(db: Database, table: string, after: Table, rows: seq<Row>, a: Artifact, schema: Schema)
    requires table in db && table in a.files && Resumable(db, a, schema) && table in schema.tables
    requires PartlyWritten(db[table], after, rows) && forall r :: r in rows ==> r in a.files[table]
    ensures Advances(db, db[table := after], a, schema) && Loading(db[table := after], a) == Loading(db, a)
    ensures forall t :: MarkerOf(db[table := after], t) == MarkerOf(db, t)
  {
    hide Reserved, TableMarker, MapOf, GoodArtifact, FileOk, SchemaOk, OnlyArtifactRows;
    RowsKeepResumable(db, table, after, rows, a, schema);
    NothingAdvances(db, a, schema);
    MarkerFacts();
    ArtifactFacts(a, schema, table);
    RowsKeepMarkers(db, table, after, rows, a.files[table]);
  }

  lemma MarkerAdvances(db: Database, table: string, n: nat, a: Artifact, schema: Schema)
    requires METADATA in db && table in db && table in a.files && Resumable(db, a, schema) && table in schema.tables
    requires HoldsFirst(db[table], a.files[table], n) && Done(db, table) <= n
    requires Loading(db, a) || n == |a.files[table]|
    ensures var db' := db[METADATA := db[METADATA][TableMarker(table) := Progress(a.hash, n)]];
      Advances(db, db', a, schema) && Loading(db', a) == Loading(db, a)
      && MarkerOf(db', table) == Some(Progress(a.hash, n))
      && forall t :: t != table ==> MarkerOf(db', t) == MarkerOf(db, t)
  {
    hide Reserved, TableMarker, MapOf, GoodArtifact, FileOk, SchemaOk, OnlyArtifactRows, MarkerOf;
    MarkerFacts();
    MarkerKeepsResumable(db, table, n, a, schema);
    NothingAdvances(db, a, schema);
  }

  /** After the rows that follow the marked ones, the marker may move past them. */
  lemma BatchHeld(before: Table, after: Table, file: seq<Row>, from: nat, rows: seq<Row>)
    requires HoldsFirst(before, file, from) && Follows(file, from, rows) && Written(before, after, rows)
    ensures HoldsFirst(after, file, from + |rows|)
  {
    forall i | 0 <= i < from + |rows| ensures file[i].key in after {
      if i >= from {
        assert rows[i - from] == file[i];
      }
    }
  }

  lemma BatchOfFile(file: seq<Row>, from: nat, rows: seq<Row>)
    requires Follows(file, from, rows)
    ensures forall r :: r in rows ==> r in file
  {
  }

  class Target {
    var tables: Database
    /** How many more writes the process survives. */
    var left: nat

    /** The process reaches a write: it survives it, or dies at it. */
    method Reach() returns (alive: bool)
      modifies this`left
      ensures Survived(old(left), left, alive, 1)
    {
      alive := left > 0;
      left := if left > 0 then left - 1 else 0;
    }

    /** One transaction that writes a marker. The process may die before or after it commits. */
    method WriteMarker(key: Key, doc: Doc) returns (alive: bool)
      requires METADATA in tables
      modifies this
      ensures tables == old(tables) || tables == old(tables[METADATA := tables[METADATA][key := doc]])
      ensures alive ==> tables == old(tables[METADATA := tables[METADATA][key := doc]])
      ensures Survived(old(left), left, alive, 1)
    {
      alive := Reach();
      if !alive {
        if * {
          return;
        }
      }
      tables := tables[METADATA := tables[METADATA][key := doc]];
    }

    /** One transaction that writes rows and a marker together. */
    method CommitBatch(table: string, rows: seq<Row>, key: Key, doc: Doc) returns (alive: bool)
      requires METADATA in tables && table in tables
      modifies this
      ensures var both := old(tables)[table := Upserted(old(tables)[table], rows)];
        var committed := both[METADATA := both[METADATA][key := doc]];
        (tables == old(tables) || tables == committed) && (alive ==> tables == committed)
      ensures Survived(old(left), left, alive, 1)
    {
      alive := Reach();
      if !alive {
        if * {
          return;
        }
      }
      tables := tables[table := Upserted(tables[table], rows)];
      tables := tables[METADATA := tables[METADATA][key := doc]];
    }

    /** A bulk write. An attempt that fails, or the death of the process, leaves any of the
        rows behind; a retried attempt starts again from the first row. A process that survives
        the write is through with the last attempt at the latest. */
    method BulkUpsert(table: string, rows: seq<Row>) returns (alive: bool)
      requires table in tables
      modifies this
      ensures tables.Keys == old(tables).Keys && tables == old(tables)[table := tables[table]]
      ensures PartlyWritten(old(tables)[table], tables[table], rows)
      ensures alive ==> Written(old(tables)[table], tables[table], rows)
      ensures Survived(old(left), left, alive, 1)
    {
      var survives := Reach();
      var attempt := 0;
      alive := false;
      while attempt < 4 && !alive
        invariant attempt <= 4 && (alive ==> survives) && (attempt == 4 && survives ==> alive)
        invariant Survived(old(left), left, survives, 1)
        invariant tables.Keys == old(tables).Keys && tables == old(tables)[table := tables[table]]
        invariant PartlyWritten(old(tables)[table], tables[table], rows)
        invariant alive ==> Written(old(tables)[table], tables[table], rows)
      {
        var whole: bool := *;
        whole := survives && (whole || attempt == 3);
        var i := 0;
        while i < |rows|
          invariant 0 <= i <= |rows|
          invariant Survived(old(left), left, survives, 1)
          invariant tables.Keys == old(tables).Keys && tables == old(tables)[table := tables[table]]
          invariant PartlyWritten(old(tables)[table], tables[table], rows)
          invariant whole ==> forall j :: 0 <= j < i ==> rows[j].key in tables[table]
        {
          var written: bool := *;
          if whole || written {
            tables := tables[table := tables[table][rows[i].key := rows[i].doc]];
          }
          i := i + 1;
        }
        alive := whole;
        attempt := attempt + 1;
      }
    }

    /** One batch of a table: with an index, rows and marker in one transaction; without, a
        bulk write and then the marker. */
    method WriteBatch(a: Artifact, schema: Schema, table: string, rows: seq<Row>, from: nat)
      returns (alive: bool)
      requires Resumable(tables, a, schema) && table in schema.tables
      requires table in a.files && Follows(a.files[table], from, rows) && Done(tables, table) == from
      requires rows != [] ==> Loading(tables, a)
      modifies this
      ensures Advances(old(tables), tables, a, schema) && Loading(tables, a) == old(Loading(tables, a))
      ensures forall t :: t != table ==> MarkerOf(tables, t) == old(MarkerOf(tables, t))
      ensures alive ==>
        MarkerOf(tables, table) == if rows == [] then old(MarkerOf(tables, table))
          else Some(Progress(a.hash, from + |rows|))
      ensures Survived(old(left), left, alive, 2)
    {
      hide MapOf, GoodArtifact, FileOk, SchemaOk, OnlyArtifactRows, Advances, Loading, MarkerOf, TableMarker, Follows;
      hide HoldsFirst, Upserted, Written, Resumable, PartlyWritten;
      ghost var before := tables;
      ghost var file := a.files[table];
      NothingAdvances(tables, a, schema);
      if rows == [] {
        return true;
      }
      TableHeld(tables, table, a, schema);
      BatchOfFile(file, from, rows);
      var progress := Progress(a.hash, from + |rows|);
      if table in schema.indexed {
        BatchCommits(before, table, Upserted(before[table], rows), rows, from, a, schema);
        UpsertedIsWritten(before[table], rows);
        alive := CommitBatch(table, rows, TableMarker(table), progress);
      } else {
        alive := BulkUpsert(table, rows);
        RowsAdvance(before, table, tables[table], rows, a, schema);
        if !alive {
          return false;
        }
        BatchCommits(before, table, tables[table], rows, from, a, schema);
        alive := WriteMarker(TableMarker(table), progress);
      }
    }
  }

  /** At most so many writes were made, and the process is alive if it survives that many. */
  predicate Survived(before: nat, after: nat, alive: bool, writes: nat) {
    after <= before <= after + writes && (before >= writes ==> alive)
  }

  lemma TableHeld(db: Database, table: string, a: Artifact, schema: Schema)
    requires Resumable(db, a, schema) && table in schema.tables
    ensures METADATA in db && table in db && table in a.files && HoldsFirst(db[table], a.files[table], Done(db, table))
  {
    assert TableSound(db, table, a);
  }

  /** Rows and marker together keep the invariant, and so do the rows alone. */
  lemma BatchCommits(db: Database, table: string, after: Table, rows: seq<Row>, from: nat, a: Artifact, schema: Schema)
    requires METADATA in db && table in db && table in a.files && Resumable(db, a, schema) && table in schema.tables
    requires Follows(a.files[table], from, rows) && Done(db, table) == from && Loading(db, a)
    ensures Written(db[table], after, rows) ==>
      var both := db[table := after];
      var committed := both[METADATA := both[METADATA][TableMarker(table) := Progress(a.hash, from + |rows|)]];
      Advances(db, committed, a, schema) && Loading(committed, a)
      && MarkerOf(committed, table) == Some(Progress(a.hash, from + |rows|))
      && forall t :: t != table ==> MarkerOf(committed, t) == MarkerOf(db, t)
  {
    hide MapOf, GoodArtifact, FileOk, SchemaOk, OnlyArtifactRows, Loading, MarkerOf, TableMarker, HoldsFirst, Reserved;
    hide Resumable;
    if Written(db[table], after, rows) {
      BatchOfFile(a.files[table], from, rows);
      RowsAdvance(db, table, after, rows, a, schema);
      TableHeld(db, table, a, schema);
      BatchHeld(db[table], after, a.files[table], from, rows);
      var both := db[table := after];
      MarkerAdvances(both, table, from + |rows|, a, schema);
      var metadata := both[METADATA][TableMarker(table) := Progress(a.hash, from + |rows|)];
      AdvancesTransitive(db, both, both[METADATA := metadata], a, schema);
    }
  }

  /** transfer_ydb_snapshot._file_rows read to its end: each row is compared with the one before it. */
  method FileRows(table: string, rows: seq<Row>) returns (ok: bool)
    ensures ok <==> FileOk(table, rows)
  {
    var i := 0;
    while i < |rows|
      invariant i <= |rows| && FileOk(table, rows[..i])
    {
      if Reserved(table, rows[i].key) || (i > 0 && !KeyLt(rows[i - 1].key, rows[i].key)) {
        ghost var j := i - 1;
        assert j >= 0 && !Reserved(table, rows[i].key) ==> !KeyLt(rows[j].key, rows[i].key);
        return false;
      }
      forall j | 0 <= j < i ensures KeyLt(rows[j].key, rows[i].key) {
        if j < i - 1 {
          assert rows[..i][j] == rows[j] && rows[..i][i - 1] == rows[i - 1];
          KeyTransitive(rows[j].key, rows[i - 1].key, rows[i].key);
        }
      }
      i := i + 1;
    }
    assert rows[..i] == rows;
    return true;
  }

  /** upload_ydb_snapshot._artifact_preflight, together with the manifest's table inventory. */
  method ArtifactPreflight(a: Artifact, schema: Schema) returns (ok: bool)
    requires METADATA in schema.tables
    ensures ok <==> GoodArtifact(a, schema)
  {
    var names := set t | t in schema.tables;
    if a.counts.Keys != names || a.files.Keys != names || !Hexadecimal(a.source) {
      return false;
    }
    var metadata: Table := map[];
    var i := 0;
    while i < |schema.tables|
      invariant i <= |schema.tables|
      invariant forall j :: 0 <= j < i ==>
        FileOk(schema.tables[j], a.files[schema.tables[j]]) && a.counts[schema.tables[j]] == |a.files[schema.tables[j]]|
      invariant METADATA in schema.tables[..i] ==> metadata == MapOf(a.files[METADATA])
    {
      hide MapOf, FileOk, Hexadecimal;
      var table := schema.tables[i];
      var readable := FileRows(table, a.files[table]);
      if !readable || a.counts[table] != |a.files[table]| {
        return false;
      }
      if table == METADATA {
        metadata := MapOf(a.files[table]);
      }
      i := i + 1;
    }
    hide MapOf, FileOk, Hexadecimal;
    assert schema.tables[..i] == schema.tables;
    ok := Named("schema_version") in metadata && metadata[Named("schema_version")] == Plain("2")
      && Named("schema_hash") in metadata && metadata[Named("schema_hash")] == Plain(schema.hash)
      && Named("sqlite_import_sha256") in metadata && metadata[Named("sqlite_import_sha256")] == Plain(a.source)
      && Named("sqlite_import_state") in metadata
      && metadata[Named("sqlite_import_state")] == ImportState("complete", a.source);
  }

  datatype Start = Resume(progress: map<string, nat>) | Rejected | Died

  /** upload_ydb_snapshot._load_progress. */
  method LoadProgress(target: Target, a: Artifact, schema: Schema) returns (start: Start)
    requires WellFormedSchema(schema) && SchemaOk(target.tables, schema)
      && a.counts.Keys == (set t | t in schema.tables)
    modifies target
    ensures STATE in old(target.tables)[METADATA] ==>
      target.tables == old(target.tables) && !start.Died? && (start.Resume? <==> Loadable(target.tables, a, schema))
      && (start.Resume? ==> start.progress == map t | t in schema.tables :: Done(target.tables, t))
    ensures STATE !in old(target.tables)[METADATA] ==>
      var begun := old(target.tables[METADATA := target.tables[METADATA][STATE := State(a.hash, a.source, "loading")]]);
      (start.Rejected? <==> !Fresh(old(target.tables), schema))
      && (start.Rejected? ==> target.tables == old(target.tables))
      && (start.Died? ==> target.tables == old(target.tables) || target.tables == begun)
      && (start.Resume? ==> target.tables == begun && start.progress == map t | t in schema.tables :: 0)
    ensures Survived(old(target.left), target.left, !start.Died?, 1)
  {
    hide SchemaOk, TableMarker, Fresh, Loadable;
    SchemaTables(target.tables, schema);
    if STATE !in target.tables[METADATA] {
      var occupied := Occupied(target.tables, schema);
      if occupied {
        return Rejected;
      }
      var alive := target.WriteMarker(STATE, State(a.hash, a.source, "loading"));
      return if alive then Resume(map t | t in schema.tables :: 0) else Died;
    }
    start := ReadMarkers(target.tables, a, schema);
  }

  lemma SchemaTables(db: Database, schema: Schema)
    requires SchemaOk(db, schema)
    ensures METADATA in db && JOURNAL in db && forall t :: t in schema.tables ==> t in db
  {
  }

  /** Anything beside the two rows that schema initialisation writes. */
  method Occupied(db: Database, schema: Schema) returns (occupied: bool)
    requires WellFormedSchema(schema) && SchemaOk(db, schema)
    ensures occupied <==> !Fresh(db, schema)
  {
    if db[JOURNAL] != map[] {
      return true;
    }
    var i := 0;
    while i < |schema.tables|
      invariant i <= |schema.tables|
      invariant forall j :: 0 <= j < i && schema.tables[j] != METADATA ==> db[schema.tables[j]] == map[]
      invariant METADATA in schema.tables[..i] ==> db[METADATA].Keys == {Named("schema_version"), Named("schema_hash")}
    {
      var table := schema.tables[i];
      if table == METADATA {
        if db[table].Keys != {Named("schema_version"), Named("schema_hash")} {
          return true;
        }
      } else if db[table] != map[] {
        return true;
      }
      i := i + 1;
    }
    assert schema.tables[..i] == schema.tables;
    return false;
  }

  method ReadMarkers(db: Database, a: Artifact, schema: Schema) returns (start: Start)
    requires METADATA in db && STATE in db[METADATA] && a.counts.Keys == (set t | t in schema.tables)
    ensures !start.Died? && (start.Resume? <==> Loadable(db, a, schema))
    ensures start.Resume? ==> start.progress == map t | t in schema.tables :: Done(db, t)
  {
    hide TableMarker;
    var state := db[METADATA][STATE];
    if !Status(a, state) {
      return Rejected;
    }
    var progress: map<string, nat> := map[];
    var i := 0;
    while i < |schema.tables|
      invariant i <= |schema.tables|
      invariant forall t :: t in progress ==> t in schema.tables[..i] && progress[t] == Done(db, t)
      invariant forall j :: 0 <= j < i ==> schema.tables[j] in progress
      invariant forall j :: 0 <= j < i && TableMarker(schema.tables[j]) in db[METADATA] ==>
        ProgressFits(db[METADATA][TableMarker(schema.tables[j])], a, schema.tables[j])
    {
      var table := schema.tables[i];
      if TableMarker(table) !in db[METADATA] {
        progress := progress[table := 0];
      } else {
        var item := db[METADATA][TableMarker(table)];
        if !ProgressFits(item, a, table) {
          return Rejected;
        }
        progress := progress[table := item.rows];
      }
      i := i + 1;
    }
    if state.status == "complete" && exists t :: t in schema.tables && progress[t] != a.counts[t] {
      return Rejected;
    }
    return Resume(progress);
  }

  predicate ProgressFits(item: Doc, a: Artifact, table: string)
    requires table in a.counts
  {
    item.Progress? && item.manifest == a.hash && 0 <= item.rows <= a.counts[table]
  }

  function Widths(rows: seq<Row>, width: Row -> nat): nat {
    if rows == [] then 0 else Widths(rows[..|rows| - 1], width) + width(rows[|rows| - 1])
  }

  /** The size limit of one transaction; a single larger row still travels alone. */
  predicate Bounded(batch: seq<Row>, batchRows: nat, width: Row -> nat) {
    1 <= |batch| <= batchRows && (|batch| == 1 || Widths(batch, width) <= BATCH_BYTES)
  }

  function Concatenated(batches: seq<seq<Row>>): seq<Row> {
    if batches == [] then [] else Concatenated(batches[..|batches| - 1]) + batches[|batches| - 1]
  }

  /** The batches sent are bounded pieces of the file, in order and without a gap. */
  ghost predicate SentInOrder(sent: seq<seq<Row>>, file: seq<Row>, from: nat, to: nat, batchRows: nat,
                              width: Row -> nat) {
    from <= to <= |file| && Concatenated(sent) == file[from..to]
    && forall i :: 0 <= i < |sent| ==> Bounded(sent[i], batchRows, width)
  }

  lemma OneMoreSent(sent: seq<seq<Row>>, batch: seq<Row>, file: seq<Row>, from: nat, to: nat, batchRows: nat,
                    width: Row -> nat)
    requires SentInOrder(sent, file, from, to, batchRows, width)
    requires Bounded(batch, batchRows, width) && Follows(file, to, batch)
    ensures SentInOrder(sent + [batch], file, from, to + |batch|, batchRows, width)
  {
    assert (sent + [batch])[..|sent|] == sent;
    assert file[from..to] + file[to..to + |batch|] == file[from..to + |batch|];
  }

  /** What the upload of one table has changed since `origin`. */
  ghost predicate Touched(origin: Database, now: Database, a: Artifact, schema: Schema, table: string) {
    Advances(origin, now, a, schema) && Resumable(now, a, schema) && Loading(now, a) == Loading(origin, a)
    && forall t :: t != table ==> MarkerOf(now, t) == MarkerOf(origin, t)
  }

  /** The marker of the table stands at `done`. */
  ghost predicate Stands(origin: Database, now: Database, a: Artifact, table: string, start: nat, done: nat) {
    Done(now, table) == done
    && MarkerOf(now, table) == if done == start then MarkerOf(origin, table) else Some(Progress(a.hash, done))
  }

  method SendBatch(target: Target, a: Artifact, schema: Schema, table: string, batch: seq<Row>, done: nat,
                   ghost origin: Database, ghost start: nat)
    returns (alive: bool)
    requires table in schema.tables && table in a.files && Loading(origin, a) && batch != []
    requires Touched(origin, target.tables, a, schema, table) && Stands(origin, target.tables, a, table, start, done)
    requires start <= done && Follows(a.files[table], done, batch)
    modifies target
    ensures Touched(origin, target.tables, a, schema, table)
    ensures alive ==> Stands(origin, target.tables, a, table, start, done + |batch|)
    ensures Survived(old(target.left), target.left, alive, 2)
  {
    hide Resumable, Advances, Loading, MarkerOf, Follows;
    ghost var before := target.tables;
    alive := target.WriteBatch(a, schema, table, batch, done);
    AdvancesTransitive(origin, before, target.tables, a, schema);
    AdvancesIsResumable(before, target.tables, a, schema);
  }

  method FinishTable(target: Target, a: Artifact, schema: Schema, table: string, start: nat, done: nat,
                     ghost origin: Database)
    returns (alive: bool)
    requires table in schema.tables && table in a.files && start <= done == |a.files[table]|
    requires Touched(origin, target.tables, a, schema, table) && Stands(origin, target.tables, a, table, start, done)
    modifies target
    ensures Touched(origin, target.tables, a, schema, table)
    ensures alive ==> MarkerOf(target.tables, table) == Some(Progress(a.hash, done))
    ensures Survived(old(target.left), target.left, alive, 1)
  {
    hide Resumable, Advances, Loading, MarkerOf, TableMarker;
    ghost var before := target.tables;
    alive := true;
    if start == 0 && done == 0 {
      TableHeld(before, table, a, schema);
      EmptyTableMarked(before, table, a, schema);
      alive := target.WriteMarker(TableMarker(table), Progress(a.hash, 0));
      NothingAdvances(before, a, schema);
      AdvancesTransitive(origin, before, target.tables, a, schema);
      AdvancesIsResumable(before, target.tables, a, schema);
    } else {
      MarkerHeld(target.tables, table, a, schema);
    }
  }

  /** The inner loop of upload_snapshot: the rows of one table after the marked ones, in batches. */
  method UploadTable(target: Target, a: Artifact, schema: Schema, table: string, start: nat, batchRows: nat,
                     width: Row -> nat)
    returns (alive: bool, done: nat, ghost sent: seq<seq<Row>>)
    requires Resumable(target.tables, a, schema) && table in schema.tables && table in a.files && batchRows > 0
    requires Done(target.tables, table) == start <= |a.files[table]|
    requires start < |a.files[table]| ==> Loading(target.tables, a)
    modifies target
    ensures Touched(old(target.tables), target.tables, a, schema, table)
    ensures SentInOrder(sent, a.files[table], start, done, batchRows, width)
    ensures alive ==> done == |a.files[table]| && MarkerOf(target.tables, table) == Some(Progress(a.hash, done))
    ensures Survived(old(target.left), target.left, alive, 2 * (|a.files[table]| - start) + 1)
  {
    hide Resumable, Loading, SentInOrder, TableMarker, Touched, Stands, Follows, Bounded, Widths;
    ghost var origin := target.tables;
    NothingTouched(origin, a, schema, table);
    var file := a.files[table];
    done, sent, alive := start, [], true;
    NothingSent(file, start, batchRows, width);
    NothingFilled(file, start, batchRows, width);
    var batch, index := [], 0;
    var size: nat := 0;
    while index < |file|
      invariant index <= |file| && start <= done <= |file| && alive
      invariant index < done ==> batch == []
      invariant index >= done ==> index == done + |batch|
      invariant Filled(file, done, batch, size, batchRows, width)
      invariant Touched(origin, target.tables, a, schema, table) && Stands(origin, target.tables, a, table, start, done)
      invariant SentInOrder(sent, file, start, done, batchRows, width)
      invariant Survived(old(target.left), target.left, true, 2 * (done - start))
    {
      if index >= done {
        var row := file[index];
        if batch != [] && (|batch| >= batchRows || size + width(row) > BATCH_BYTES) {
          alive := SendBatch(target, a, schema, table, batch, done, origin, start);
          if !alive {
            return;
          }
          OneMoreSent(sent, batch, file, start, done, batchRows, width);
          sent := sent + [batch];
          done := done + |batch|;
          batch, size := [], 0;
          NothingFilled(file, done, batchRows, width);
        }
        RowJoins(file, done, batch, size, batchRows, width);
        batch := batch + [row];
        size := size + width(row);
      }
      index := index + 1;
    }
    if batch != [] {
      alive := SendBatch(target, a, schema, table, batch, done, origin, start);
      if !alive {
        return;
      }
      OneMoreSent(sent, batch, file, start, done, batchRows, width);
      sent := sent + [batch];
      done := done + |batch|;
    }
    alive := FinishTable(target, a, schema, table, start, done, origin);
  }

  /** The batch being filled: the next rows of the file, within the limits. */
  ghost predicate Filled(file: seq<Row>, done: nat, batch: seq<Row>, size: nat, batchRows: nat, width: Row -> nat) {
    Follows(file, done, batch) && size == Widths(batch, width) && (batch != [] ==> Bounded(batch, batchRows, width))
  }

  lemma NothingFilled(file: seq<Row>, done: nat, batchRows: nat, width: Row -> nat)
    requires done <= |file|
    ensures Filled(file, done, [], 0, batchRows, width)
  {
  }

  lemma RowJoins(file: seq<Row>, done: nat, batch: seq<Row>, size: nat, batchRows: nat, width: Row -> nat)
    requires done + |batch| < |file| && batchRows > 0 && Filled(file, done, batch, size, batchRows, width)
    requires batch == [] || (|batch| < batchRows && size + width(file[done + |batch|]) <= BATCH_BYTES)
    ensures var row := file[done + |batch|];
      Filled(file, done, batch + [row], size + width(row), batchRows, width)
  {
    var row := file[done + |batch|];
    assert (batch + [row])[..|batch|] == batch;
    assert batch + [row] == file[done..done + |batch| + 1];
  }

  lemma NothingTouched(db: Database, a: Artifact, schema: Schema, table: string)
    requires Resumable(db, a, schema)
    ensures Touched(db, db, a, schema, table) && Stands(db, db, a, table, Done(db, table), Done(db, table))
  {
    hide Resumable, Advances;
    NothingAdvances(db, a, schema);
  }

  lemma NothingSent(file: seq<Row>, start: nat, batchRows: nat, width: Row -> nat)
    requires start <= |file|
    ensures SentInOrder([], file, start, start, batchRows, width)
  {
  }

  lemma AdvancesIsResumable(before: Database, after: Database, a: Artifact, schema: Schema)
    requires Advances(before, after, a, schema)
    ensures Resumable(after, a, schema)
  {
  }

  lemma EmptyTableMarked(db: Database, table: string, a: Artifact, schema: Schema)
    requires METADATA in db && table in a.files && a.files[table] == []
    requires Resumable(db, a, schema) && table in schema.tables && Done(db, table) == 0
    ensures var db' := db[METADATA := db[METADATA][TableMarker(table) := Progress(a.hash, 0)]];
      Advances(db, db', a, schema) && Loading(db', a) == Loading(db, a)
      && MarkerOf(db', table) == Some(Progress(a.hash, 0))
      && forall t :: t != table ==> MarkerOf(db', t) == MarkerOf(db, t)
  {
    hide Advances, Loading, MarkerOf, TableMarker, Resumable;
    TableHeld(db, table, a, schema);
    MarkerAdvances(db, table, 0, a, schema);
  }

  /** Progress beyond zero is always the progress of this artifact. */
  lemma MarkerHeld(db: Database, table: string, a: Artifact, schema: Schema)
    requires Resumable(db, a, schema) && table in schema.tables && Done(db, table) > 0
    ensures MarkerOf(db, table) == Some(Progress(a.hash, Done(db, table)))
  {
    hide Reserved, TableMarker, MapOf, GoodArtifact, FileOk;
    MarkerFacts();
    assert IsProgressMarker(a, schema, TableMarker(table), db[METADATA][TableMarker(table)]);
  }

  datatype Outcome = Uploaded | Refused | Interrupted

  /** The namespace is untouched, or carries an upload of `owner`; a digest names one artifact. */
  ghost predicate Owned(db: Database, owner: Artifact, a: Artifact, schema: Schema) {
    METADATA in db && STATE in db[METADATA] ==> Resumable(db, owner, schema) && (owner.hash == a.hash ==> owner == a)
  }

  /** What upload_snapshot demands before it writes a row. */
  ghost predicate Startable(db: Database, owner: Artifact, a: Artifact, schema: Schema, ruPerSecond: int,
                            batchRows: int) {
    1 <= ruPerSecond <= 1000 && 1 <= batchRows <= BATCH_ROWS && GoodArtifact(a, schema) && SchemaOk(db, schema)
    && if STATE in db[METADATA] then owner == a else Fresh(db, schema)
  }

  /** Nothing but the first marker separates the two, or the second continues the first. */
  ghost predicate Continues(before: Database, after: Database, a: Artifact, schema: Schema) {
    METADATA in before
    && (STATE in before[METADATA] ==> Advances(before, after, a, schema))
    && (STATE !in before[METADATA] && after != before ==>
          Advances(before[METADATA := before[METADATA][STATE := State(a.hash, a.source, "loading")]], after, a, schema))
  }

  lemma PreflightFacts(a: Artifact, schema: Schema)
    requires GoodArtifact(a, schema)
    ensures a.counts.Keys == (set t | t in schema.tables) && a.files.Keys == (set t | t in schema.tables)
  {
  }

  /** The state in which the tables are loaded, once the markers have been read or begun. */
  ghost predicate Begun(found: Database, now: Database, a: Artifact, schema: Schema) {
    METADATA in found && Resumable(now, a, schema)
    && now == if STATE in found[METADATA] then found
              else found[METADATA := found[METADATA][STATE := State(a.hash, a.source, "loading")]]
  }

  lemma StartsWell(found: Database, now: Database, owner: Artifact, a: Artifact, schema: Schema, start: Start)
    requires WellFormedSchema(schema) && GoodArtifact(a, schema) && SchemaOk(found, schema) && METADATA in found
    requires Owned(found, owner, a, schema)
    requires STATE in found[METADATA] ==>
      now == found && !start.Died? && (start.Resume? <==> Loadable(now, a, schema))
      && (start.Resume? ==> start.progress == map t | t in schema.tables :: Done(now, t))
    requires STATE !in found[METADATA] ==>
      var begun := found[METADATA := found[METADATA][STATE := State(a.hash, a.source, "loading")]];
      (start.Rejected? <==> !Fresh(found, schema)) && (start.Rejected? ==> now == found)
      && (start.Died? ==> now == found || now == begun)
      && (start.Resume? ==> now == begun && start.progress == map t | t in schema.tables :: 0)
    ensures start.Rejected? <==> !(if STATE in found[METADATA] then owner == a else Fresh(found, schema))
    ensures start.Rejected? ==> now == found
    ensures start.Died? ==> Continues(found, now, a, schema)
    ensures start.Resume? ==>
      Begun(found, now, a, schema) && Resumable(now, a, schema)
      && start.progress == map t | t in schema.tables :: Done(now, t)
  {
    hide GoodArtifact, SchemaOk, Fresh, Advances, MarkerOf;
    if STATE in found[METADATA] {
      if owner == a {
        ResumableIsLoadable(found, a, schema);
      } else {
        OtherArtifactRejected(found, owner, a, schema);
      }
    } else if !start.Rejected? {
      StartMakesResumable(found, a, schema);
      var begun := found[METADATA := found[METADATA][STATE := State(a.hash, a.source, "loading")]];
      NothingAdvances(begun, a, schema);
      forall t ensures Done(begun, t) == 0 {
        assert MarkerOf(begun, t) == None;
      }
    }
  }

  lemma OtherArtifactRejected(db: Database, owner: Artifact, a: Artifact, schema: Schema)
    requires METADATA in db && STATE in db[METADATA] && Resumable(db, owner, schema) && owner.hash != a.hash
    ensures !Loadable(db, a, schema)
  {
    hide GoodArtifact, SchemaOk, AllUploaded;
    assert MarkersSound(db[METADATA], owner, schema);
  }

  lemma BegunContinues(found: Database, begun: Database, after: Database, a: Artifact, schema: Schema)
    requires Begun(found, begun, a, schema) && Advances(begun, after, a, schema)
    ensures Continues(found, after, a, schema)
  {
    hide Resumable, Advances;
  }

  lemma StartableMeans(db: Database, owner: Artifact, a: Artifact, schema: Schema, ruPerSecond: int, batchRows: int)
    requires 1 <= ruPerSecond <= 1000 && 1 <= batchRows <= BATCH_ROWS && GoodArtifact(a, schema) && SchemaOk(db, schema)
    ensures METADATA in db
    ensures Startable(db, owner, a, schema, ruPerSecond, batchRows)
      <==> if STATE in db[METADATA] then owner == a else Fresh(db, schema)
  {
    hide Resumable, Fresh;
  }

  /** Tables before n are uploaded, the others stand where they were found. */
  ghost predicate TablesDone(db: Database, a: Artifact, schema: Schema, progress: map<string, nat>, n: nat) {
    n <= |schema.tables|
    && forall j :: 0 <= j < |schema.tables| ==>
         var t := schema.tables[j];
         t in a.files && t in progress
         && if j < n then MarkerOf(db, t) == Some(Progress(a.hash, |a.files[t]|)) else Done(db, t) == progress[t]
  }

  lemma TablesFound(db: Database, a: Artifact, schema: Schema, progress: map<string, nat>)
    requires Resumable(db, a, schema) && progress == map t | t in schema.tables :: Done(db, t)
    ensures TablesDone(db, a, schema, progress, 0)
  {
    hide Resumable, MarkerOf;
    forall t | t in schema.tables ensures t in a.files {
      TableHeld(db, t, a, schema);
    }
  }

  lemma OneMoreTable(before: Database, after: Database, a: Artifact, schema: Schema, progress: map<string, nat>, n: nat)
    requires WellFormedSchema(schema) && TablesDone(before, a, schema, progress, n) && n < |schema.tables|
    requires Touched(before, after, a, schema, schema.tables[n])
    requires MarkerOf(after, schema.tables[n]) == Some(Progress(a.hash, |a.files[schema.tables[n]]|))
    ensures TablesDone(after, a, schema, progress, n + 1)
  {
    hide Advances, Resumable, Loading, MarkerOf;
  }

  /** Where rows are still missing the state marker still says so. */
  lemma UnfinishedIsLoading(db: Database, a: Artifact, schema: Schema, table: string)
    requires Resumable(db, a, schema) && table in schema.tables && table in a.files
    ensures Done(db, table) <= |a.files[table]|
    ensures Done(db, table) < |a.files[table]| ==> Loading(db, a)
  {
    hide GoodArtifact, SchemaOk, MarkerOf, MapOf, Reserved;
    assert TableSound(db, table, a);
  }

  /** The most writes that the tables take: two for a row, and one for an empty table. */
  function Writes(a: Artifact, tables: seq<string>): nat {
    if tables == [] then 0
    else
      var last := tables[|tables| - 1];
      Writes(a, tables[..|tables| - 1]) + if last in a.files then 2 * |a.files[last]| + 1 else 0
  }

  lemma {:induction false} WritesGrow(a: Artifact, tables: seq<string>, n: nat)
    requires n <= |tables|
    ensures Writes(a, tables[..n]) <= Writes(a, tables)
  {
    if n < |tables| {
      WritesGrow(a, tables[..|tables| - 1], n);
      assert tables[..|tables| - 1][..n] == tables[..n];
    } else {
      assert tables[..n] == tables;
    }
  }

  lemma OneMoreWrites(a: Artifact, tables: seq<string>, n: nat)
    requires n < |tables| && tables[n] in a.files
    ensures Writes(a, tables[..n + 1]) == Writes(a, tables[..n]) + 2 * |a.files[tables[n]]| + 1
    ensures Writes(a, tables[..n + 1]) <= Writes(a, tables)
  {
    assert tables[..n + 1][..n] == tables[..n];
    WritesGrow(a, tables, n + 1);
  }

  method UploadTables(target: Target, a: Artifact, schema: Schema, progress: map<string, nat>, batchRows: nat,
                      width: Row -> nat)
    returns (outcome: Outcome)
    requires WellFormedSchema(schema) && Resumable(target.tables, a, schema) && batchRows > 0
    requires progress == map t | t in schema.tables :: Done(target.tables, t)
    modifies target
    ensures Advances(old(target.tables), target.tables, a, schema) && outcome != Refused
    ensures outcome == Uploaded ==>
      METADATA in target.tables && STATE in target.tables[METADATA]
      && target.tables[METADATA][STATE] == State(a.hash, a.source, "complete") && Resumable(target.tables, a, schema)
    ensures Survived(old(target.left), target.left, outcome == Uploaded, Writes(a, schema.tables) + 1)
  {
    hide Resumable, Advances, MarkerOf, Loading, Writes;
    NoWrites(a, schema.tables);
    ghost var origin := target.tables;
    NothingAdvances(origin, a, schema);
    TablesFound(origin, a, schema, progress);
    var i := 0;
    while i < |schema.tables|
      invariant i <= |schema.tables| && Resumable(target.tables, a, schema)
      invariant Advances(origin, target.tables, a, schema) && TablesDone(target.tables, a, schema, progress, i)
      invariant Survived(old(target.left), target.left, true, Writes(a, schema.tables[..i]))
    {
      hide WellFormedSchema, SentInOrder;
      var table := schema.tables[i];
      ghost var before := target.tables;
      UnfinishedIsLoading(before, a, schema, table);
      OneMoreWrites(a, schema.tables, i);
      var alive, done, sent := UploadTable(target, a, schema, table, progress[table], batchRows, width);
      AdvancesTransitive(origin, before, target.tables, a, schema);
      if !alive {
        return Interrupted;
      }
      OneMoreTable(before, target.tables, a, schema, progress, i);
      i := i + 1;
    }
    ghost var before := target.tables;
    assert schema.tables[..i] == schema.tables;
    CompleteAdvances(before, a, schema);
    var alive := target.WriteMarker(STATE, State(a.hash, a.source, "complete"));
    NothingAdvances(before, a, schema);
    AdvancesTransitive(origin, before, target.tables, a, schema);
    outcome := if alive then Uploaded else Interrupted;
  }

  lemma NoWrites(a: Artifact, tables: seq<string>)
    ensures Writes(a, tables[..0]) == 0
  {
  }

  lemma CompleteAdvances(db: Database, a: Artifact, schema: Schema)
    requires Resumable(db, a, schema) && AllUploaded(db, a, schema)
    ensures METADATA in db
    ensures var db' := db[METADATA := db[METADATA][STATE := State(a.hash, a.source, "complete")]];
      Advances(db, db', a, schema) && Resumable(db', a, schema)
  {
    hide GoodArtifact, MarkersSound, OnlyArtifactRows, MarkerOf, HoldsFirst;
    CompleteKeepsResumable(db, a, schema);
    NothingAdvances(db, a, schema);
    var db' := db[METADATA := db[METADATA][STATE := State(a.hash, a.source, "complete")]];
    assert db[METADATA].Keys <= db'[METADATA].Keys;
  }

  /** Enough writes for a whole upload, with the two state markers. */
  function AllWrites(a: Artifact, schema: Schema): nat {
    Writes(a, schema.tables) + 2
  }

  /** upload_ydb_snapshot.upload_snapshot by a process that survives so many writes. Wherever it
      dies it leaves the namespace resumable; a startable run that survives enough writes
      finishes the upload. */
  method UploadSnapshot(target: Target, a: Artifact, schema: Schema, ruPerSecond: int, batchRows: int,
                        width: Row -> nat, survives: nat, ghost owner: Artifact)
    returns (outcome: Outcome)
    requires WellFormedSchema(schema) && Owned(target.tables, owner, a, schema)
    modifies target
    ensures outcome == Refused <==> !Startable(old(target.tables), owner, a, schema, ruPerSecond, batchRows)
    ensures outcome == Refused ==> target.tables == old(target.tables)
    ensures outcome != Refused ==> Continues(old(target.tables), target.tables, a, schema)
    ensures outcome == Uploaded ==>
      Resumable(target.tables, a, schema) && target.tables[METADATA][STATE] == State(a.hash, a.source, "complete")
    ensures survives >= AllWrites(a, schema) && outcome != Refused ==> outcome == Uploaded
  {
    hide *;
    target.left := survives;
    var allowed := CheckRun(target.tables, a, schema, ruPerSecond, batchRows);
    if !allowed {
      NotStartable(target.tables, owner, a, schema, ruPerSecond, batchRows);
      return Refused;
    }
    StartableMeans(target.tables, owner, a, schema, ruPerSecond, batchRows);
    outcome := LoadAndUpload(target, a, schema, batchRows, width, owner);
    AllWritesIs(a, schema);
  }

  /** The checks before the namespace is looked at. */
  method CheckRun(db: Database, a: Artifact, schema: Schema, ruPerSecond: int, batchRows: int) returns (allowed: bool)
    requires WellFormedSchema(schema)
    ensures allowed <==>
      1 <= ruPerSecond <= 1000 && 1 <= batchRows <= BATCH_ROWS && GoodArtifact(a, schema) && SchemaOk(db, schema)
  {
    if !(1 <= ruPerSecond <= 1000 && 1 <= batchRows <= BATCH_ROWS) {
      return false;
    }
    hide GoodArtifact, SchemaOk;
    allowed := ArtifactPreflight(a, schema);
    if allowed {
      allowed := SchemaOk(db, schema);
    }
  }

  lemma NotStartable(db: Database, owner: Artifact, a: Artifact, schema: Schema, ruPerSecond: int, batchRows: int)
    requires !(1 <= ruPerSecond <= 1000 && 1 <= batchRows <= BATCH_ROWS && GoodArtifact(a, schema)
               && SchemaOk(db, schema))
    ensures !Startable(db, owner, a, schema, ruPerSecond, batchRows)
  {
    hide GoodArtifact, SchemaOk, Fresh;
  }

  /** From the markers to the end of the upload. */
  method LoadAndUpload(target: Target, a: Artifact, schema: Schema, batchRows: int, width: Row -> nat,
                       ghost owner: Artifact)
    returns (outcome: Outcome)
    requires WellFormedSchema(schema) && Owned(target.tables, owner, a, schema) && batchRows > 0
    requires GoodArtifact(a, schema) && SchemaOk(target.tables, schema) && METADATA in target.tables
    modifies target
    ensures outcome == Refused <==>
      !(if STATE in old(target.tables)[METADATA] then owner == a else Fresh(old(target.tables), schema))
    ensures outcome == Refused ==> target.tables == old(target.tables)
    ensures outcome != Refused ==> Continues(old(target.tables), target.tables, a, schema)
    ensures outcome == Uploaded ==>
      METADATA in target.tables && STATE in target.tables[METADATA]
      && Resumable(target.tables, a, schema) && target.tables[METADATA][STATE] == State(a.hash, a.source, "complete")
    ensures old(target.left) >= Writes(a, schema.tables) + 2 && outcome != Refused ==> outcome == Uploaded
  {
    hide *;
    ghost var found, survives := target.tables, target.left;
    PreflightFacts(a, schema);
    var start := LoadProgress(target, a, schema);
    SurvivedMeans(survives, target.left, !start.Died?, 1);
    ghost var middle := target.left;
    StartsWell(found, target.tables, owner, a, schema, start);
    match start {
      case Rejected => outcome := Refused;
      case Died => outcome := Interrupted;
      case Resume(progress) =>
        ghost var begun := target.tables;
        outcome := UploadTables(target, a, schema, progress, batchRows, width);
        SurvivedBoth(survives, middle, target.left, outcome == Uploaded, 1, Writes(a, schema.tables) + 1);
        BegunContinues(found, begun, target.tables, a, schema);
    }
  }

  lemma AllWritesIs(a: Artifact, schema: Schema)
    ensures AllWrites(a, schema) == Writes(a, schema.tables) + 2
  {
    hide Writes;
  }

  lemma SurvivedBoth(start: nat, middle: nat, end: nat, alive: bool, first: nat, second: nat)
    requires Survived(start, middle, true, first) && Survived(middle, end, alive, second)
    ensures start >= first + second ==> alive
  {
  }

  lemma SurvivedMeans(before: nat, after: nat, alive: bool, writes: nat)
    requires Survived(before, after, alive, writes)
    ensures before >= writes ==> alive
  {
  }

  lemma ContinuesTransitive(x: Database, y: Database, z: Database, a: Artifact, schema: Schema)
    requires Continues(x, y, a, schema) && Continues(y, z, a, schema)
    ensures Continues(x, z, a, schema)
  {
    hide Resumable, Done;
    if STATE in x[METADATA] {
      BeganStays(x, y, a, schema);
      AdvancesTransitive(x, y, z, a, schema);
    } else if y != x {
      var begun := x[METADATA := x[METADATA][STATE := State(a.hash, a.source, "loading")]];
      BeganStays(begun, y, a, schema);
      AdvancesTransitive(begun, y, z, a, schema);
    }
  }

  lemma BeganStays(before: Database, after: Database, a: Artifact, schema: Schema)
    requires Advances(before, after, a, schema)
    ensures METADATA in after && STATE in after[METADATA]
  {
    hide GoodArtifact, AllUploaded, TableSound;
    assert MarkersSound(after[METADATA], a, schema);
  }

  /** The limits a run is given, and the number of writes it survives. */
  datatype Run = Run(ruPerSecond: int, batchRows: int, survives: nat)

  predicate RunOk(run: Run) {
    1 <= run.ruPerSecond <= 1000 && 1 <= run.batchRows <= BATCH_ROWS
  }

  /** Any number of runs on the same artifact, each with its own limits and each dying wherever
      it dies: none is refused, none loses a row, a run that survives long enough finishes, and
      once one of them has finished, the comparison of target and artifact finds nothing,
      however often the upload is run again. */
  method UploadRepeatedly(target: Target, a: Artifact, schema: Schema, runs: seq<Run>, width: Row -> nat)
    returns (outcomes: seq<Outcome>)
    requires WellFormedSchema(schema) && GoodArtifact(a, schema) && SchemaOk(target.tables, schema)
    requires if STATE in target.tables[METADATA] then Resumable(target.tables, a, schema)
      else Fresh(target.tables, schema)
    requires forall i :: 0 <= i < |runs| ==> RunOk(runs[i])
    modifies target
    ensures |outcomes| == |runs| && Refused !in outcomes
    ensures forall i :: 0 <= i < |runs| && runs[i].survives >= AllWrites(a, schema) ==> outcomes[i] == Uploaded
    ensures Continues(old(target.tables), target.tables, a, schema)
    ensures Uploaded in outcomes ==>
      SchemaOk(target.tables, schema) && a.files.Keys == (set t | t in schema.tables)
      && Matches(target.tables, a, schema, true)
  {
    ghost var origin := target.tables;
    hide *;
    outcomes := [];
    NoRuns(origin, a, schema, runs);
    NothingContinues(origin, a, schema);
    while |outcomes| < |runs|
      invariant |outcomes| <= |runs| && RunsEnded(target.tables, a, schema, runs, outcomes)
      invariant Continues(origin, target.tables, a, schema) && Restartable(target.tables, a, schema)
    {
      ghost var before := target.tables;
      var run := runs[|outcomes|];
      RunMeans(run);
      RestartableMeans(before, a, schema, run.ruPerSecond, run.batchRows);
      var outcome := UploadSnapshot(target, a, schema, run.ruPerSecond, run.batchRows, width, run.survives, a);
      ContinuesTransitive(origin, before, target.tables, a, schema);
      RestartableStays(before, target.tables, a, schema, outcome);
      OneMoreRun(before, target.tables, a, schema, runs, outcomes, outcome);
      outcomes := outcomes + [outcome];
    }
    RunsMean(target.tables, a, schema, runs, outcomes);
  }

  /** How the runs so far have ended. */
  ghost predicate RunsEnded(db: Database, a: Artifact, schema: Schema, runs: seq<Run>, outcomes: seq<Outcome>) {
    |outcomes| <= |runs| && Refused !in outcomes && (Uploaded in outcomes ==> Finished(db, a, schema))
    && forall i :: 0 <= i < |outcomes| && runs[i].survives >= AllWrites(a, schema) ==> outcomes[i] == Uploaded
  }

  lemma NoRuns(db: Database, a: Artifact, schema: Schema, runs: seq<Run>)
    ensures RunsEnded(db, a, schema, runs, [])
  {
  }

  lemma OneMoreRun(before: Database, after: Database, a: Artifact, schema: Schema, runs: seq<Run>,
                   outcomes: seq<Outcome>, outcome: Outcome)
    requires RunsEnded(before, a, schema, runs, outcomes) && |outcomes| < |runs| && outcome != Refused
    requires runs[|outcomes|].survives >= AllWrites(a, schema) ==> outcome == Uploaded
    requires outcome == Uploaded || Finished(before, a, schema) ==> Finished(after, a, schema)
    ensures RunsEnded(after, a, schema, runs, outcomes + [outcome])
  {
    hide Finished, AllWrites;
  }

  lemma RunsMean(db: Database, a: Artifact, schema: Schema, runs: seq<Run>, outcomes: seq<Outcome>)
    requires RunsEnded(db, a, schema, runs, outcomes) && |outcomes| == |runs|
    ensures Refused !in outcomes
    ensures forall i :: 0 <= i < |runs| && runs[i].survives >= AllWrites(a, schema) ==> outcomes[i] == Uploaded
    ensures Uploaded in outcomes ==>
      SchemaOk(db, schema) && a.files.Keys == (set t | t in schema.tables) && Matches(db, a, schema, true)
  {
    hide Finished, AllWrites, SchemaOk, Matches;
    if Uploaded in outcomes {
      FinishedMeans(db, a, schema);
    }
  }

  lemma RunMeans(run: Run)
    requires RunOk(run)
    ensures 1 <= run.ruPerSecond <= 1000 && 1 <= run.batchRows <= BATCH_ROWS
  {
  }

  ghost predicate Restartable(db: Database, a: Artifact, schema: Schema) {
    WellFormedSchema(schema) && GoodArtifact(a, schema) && SchemaOk(db, schema)
    && if STATE in db[METADATA] then Resumable(db, a, schema) else Fresh(db, schema)
  }

  ghost predicate Finished(db: Database, a: Artifact, schema: Schema) {
    Resumable(db, a, schema) && db[METADATA][STATE] == State(a.hash, a.source, "complete")
  }

  lemma NothingContinues(db: Database, a: Artifact, schema: Schema)
    requires WellFormedSchema(schema) && GoodArtifact(a, schema) && SchemaOk(db, schema)
    requires if STATE in db[METADATA] then Resumable(db, a, schema) else Fresh(db, schema)
    ensures Restartable(db, a, schema) && Continues(db, db, a, schema)
  {
    hide Resumable, Fresh, GoodArtifact, Advances;
    if STATE in db[METADATA] {
      NothingAdvances(db, a, schema);
    }
  }

  lemma RestartableMeans(db: Database, a: Artifact, schema: Schema, ruPerSecond: int, batchRows: int)
    requires Restartable(db, a, schema) && 1 <= ruPerSecond <= 1000 && 1 <= batchRows <= BATCH_ROWS
    ensures WellFormedSchema(schema) && Owned(db, a, a, schema) && Startable(db, a, a, schema, ruPerSecond, batchRows)
  {
    hide Resumable, Fresh, GoodArtifact;
  }

  lemma RestartableStays(before: Database, after: Database, a: Artifact, schema: Schema, outcome: Outcome)
    requires Restartable(before, a, schema) && Continues(before, after, a, schema)
    requires outcome == Uploaded ==>
      Resumable(after, a, schema) && after[METADATA][STATE] == State(a.hash, a.source, "complete")
    ensures Restartable(after, a, schema)
    ensures outcome == Uploaded || Finished(before, a, schema) ==> Finished(after, a, schema)
  {
    hide GoodArtifact, AllUploaded, TableSound, Fresh, Done;
    if STATE in before[METADATA] {
      BeganStays(before, after, a, schema);
    } else if after != before {
      BeganStays(before[METADATA := before[METADATA][STATE := State(a.hash, a.source, "loading")]], after, a, schema);
    }
    assert MarkersSound(after[METADATA], a, schema) || after == before;
  }

  lemma FinishedMeans(db: Database, a: Artifact, schema: Schema)
    requires Finished(db, a, schema)
    ensures SchemaOk(db, schema) && a.files.Keys == (set t | t in schema.tables) && Matches(db, a, schema, true)
  {
    hide TableSound, AllUploaded, Matches;
    assert MarkersSound(db[METADATA], a, schema);
    FinishedMatches(db, a, schema);
  }
}
