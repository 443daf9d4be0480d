/** The snapshot artifact and the target namespace: tables are maps from primary key to row,
    the artifact holds each table as a file of rows in strict key order. */
module SnapshotStore {
  import opened KeyOrder

  /** The value of a row: the JSON documents the transfer itself reads, any other text, or
      text that is not JSON. */
  datatype Doc =
    | State(manifest: string, source: string, status: string)
    | Progress(manifest: string, rows: int)
    | ImportState(state: string, source: string)
    | Plain(text: string)
    | Malformed(text: string)

  datatype Row = Row(key: Key, doc: Doc)
  type Table = map<Key, Doc>
  type Database = map<string, Table>

  /** tables: the transferred tables; indexed: those with a secondary index. The row-by-row
      journal of the importer is a further table that is not transferred. */
  datatype Schema = Schema(tables: seq<string>, indexed: set<string>, hash: string)

  datatype Artifact = Artifact(hash: string, source: string, counts: map<string, int>, files: map<string, seq<Row>>)

  const METADATA := "metadata"
  const JOURNAL := "migration_records"
  const MARKER_PREFIX := "__snapshot_transfer__"
  const STATE: Key := [Text(MARKER_PREFIX + "state")]

  function TableMarker(table: string): Key {
    [Text(MARKER_PREFIX + "table:" + table)]
  }

  function Named(name: string): Key {
    [Text(name)]
  }

  /** A marker row of the transfer, kept in the metadata table. */
  predicate Reserved(table: string, key: Key) {
    table == METADATA && |key| == 1 && key[0].Text? && MARKER_PREFIX <= key[0].s
  }

  lemma MarkersAreReserved(table: string)
    ensures Reserved(METADATA, STATE) && Reserved(METADATA, TableMarker(table)) && STATE != TableMarker(table)
    ensures !Reserved(METADATA, Named("schema_version")) && !Reserved(METADATA, Named("schema_hash"))
  {
    assert TableMarker(table)[0].s[|MARKER_PREFIX|] == 't' && STATE[0].s[|MARKER_PREFIX|] == 's';
    assert Named("schema_version")[0].s[0] == 's' && Named("schema_hash")[0].s[0] == 's';
    assert MARKER_PREFIX + ("table:" + table) == MARKER_PREFIX + "table:" + table;
  }

  lemma MarkerNamesTable(a: string, b: string)
    requires TableMarker(a) == TableMarker(b)
    ensures a == b
  {
    var prefix := MARKER_PREFIX + "table:";
    assert TableMarker(a)[0].s == prefix + a && TableMarker(b)[0].s == prefix + b;
    assert a == (prefix + a)[|prefix|..] && b == (prefix + b)[|prefix|..];
  }

  predicate WellFormedSchema(schema: Schema) {
    METADATA in schema.tables && JOURNAL !in schema.tables
    && forall i, j :: 0 <= i < j < |schema.tables| ==> schema.tables[i] != schema.tables[j]
  }

  predicate StrictlyOrdered(rows: seq<Row>) {
    forall i, j :: 0 <= i < j < |rows| ==> KeyLt(rows[i].key, rows[j].key)
  }

  /** A data file that a reader accepts to its end. */
  predicate FileOk(table: string, rows: seq<Row>) {
    StrictlyOrdered(rows) && forall i :: 0 <= i < |rows| ==> !Reserved(table, rows[i].key)
  }

  /** The table that a file of rows describes. */
  function MapOf(rows: seq<Row>): Table {
    if rows == [] then map[]
    else MapOf(rows[..|rows| - 1])[rows[|rows| - 1].key := rows[|rows| - 1].doc]
  }

  lemma {:induction false} MapOfKeys(rows: seq<Row>, k: Key)
    ensures k in MapOf(rows) <==> exists i :: 0 <= i < |rows| && rows[i].key == k
  {
    if rows != [] {
      var front := rows[..|rows| - 1];
      MapOfKeys(front, k);
      if i :| 0 <= i < |rows| && rows[i].key == k && k != rows[|rows| - 1].key {
        assert front[i].key == k;
      }
      if k in MapOf(front) {
        var j :| 0 <= j < |front| && front[j].key == k;
        assert rows[j].key == k;
      }
      if k == rows[|rows| - 1].key {
        assert rows[|rows| - 1].key == k;
      }
    }
  }

  /** Distinct keys: every row of the file is found in the table. */
  lemma {:induction false} MapOfEntry(rows: seq<Row>, i: nat)
    requires StrictlyOrdered(rows) && i < |rows|
    ensures rows[i].key in MapOf(rows) && MapOf(rows)[rows[i].key] == rows[i].doc
  {
    var front := rows[..|rows| - 1];
    if i < |front| {
      MapOfEntry(front, i);
      KeyTrichotomy(rows[i].key, rows[|rows| - 1].key);
    }
  }

  /** The rows of a table that are not markers of the transfer. */
  function Data(table: string, rows: Table): (data: Table)
    ensures forall k :: k in data <==> k in rows && !Reserved(table, k)
    ensures forall k :: k in data ==> data[k] == rows[k]
  {
    map k | k in rows && !Reserved(table, k) :: rows[k]
  }

  /** transfer_ydb_snapshot._check_schema: the table inventory and the two schema rows. */
  predicate SchemaOk(db: Database, schema: Schema) {
    db.Keys == (set t | t in schema.tables) + {JOURNAL}
    && METADATA in db
    && Named("schema_version") in db[METADATA] && db[METADATA][Named("schema_version")] == Plain("2")
    && Named("schema_hash") in db[METADATA] && db[METADATA][Named("schema_hash")] == Plain(schema.hash)
  }

  predicate Hexadecimal(text: string) {
    |text| == 64 && forall c :: c in text ==> '0' <= c <= '9' || 'a' <= c <= 'f'
  }

  /** An artifact that the preflight accepts. */
  ghost predicate GoodArtifact(a: Artifact, schema: Schema) {
    Hexadecimal(a.source)
    && a.counts.Keys == (set t | t in schema.tables) && a.files.Keys == (set t | t in schema.tables)
    && (forall t :: t in schema.tables ==> FileOk(t, a.files[t]) && a.counts[t] == |a.files[t]|)
    && METADATA in a.files
    && var metadata := MapOf(a.files[METADATA]);
      Named("schema_version") in metadata && metadata[Named("schema_version")] == Plain("2")
      && Named("schema_hash") in metadata && metadata[Named("schema_hash")] == Plain(schema.hash)
      && Named("sqlite_import_sha256") in metadata && metadata[Named("sqlite_import_sha256")] == Plain(a.source)
      && Named("sqlite_import_state") in metadata
      && metadata[Named("sqlite_import_state")] == ImportState("complete", a.source)
  }

  /** The marker rows of a finished upload. */
  predicate IsExpectedMarker(a: Artifact, schema: Schema, key: Key, doc: Doc) {
    (key == STATE && doc == State(a.hash, a.source, "complete"))
    || exists t :: t in schema.tables && key == TableMarker(t) && t in a.counts && doc == Progress(a.hash, a.counts[t])
  }

  predicate ExpectedMarkers(a: Artifact, schema: Schema, markers: Table) {
    STATE in markers && (forall t :: t in schema.tables ==> TableMarker(t) in markers)
    && forall k :: k in markers ==> IsExpectedMarker(a, schema, k, markers[k])
  }

  /** The marker rows of the metadata table, as far as they are JSON. */
  function Markers(metadata: Table): (markers: Table)
    ensures forall k :: k in markers <==> k in metadata && Reserved(METADATA, k) && !metadata[k].Malformed?
    ensures forall k :: k in markers ==> markers[k] == metadata[k]
  {
    map k | k in metadata && Reserved(METADATA, k) && !metadata[k].Malformed? :: metadata[k]
  }

  /** Target and artifact agree: equal tables outside the markers, and markers that either
      are exactly those of a finished upload or, where none is required, are absent. */
  ghost predicate Matches(db: Database, a: Artifact, schema: Schema, requireComplete: bool)
    requires SchemaOk(db, schema) && a.files.Keys == (set t | t in schema.tables)
  {
    (forall t :: t in schema.tables ==> Data(t, db[t]) == MapOf(a.files[t]))
    && (forall k :: k in db[METADATA] && Reserved(METADATA, k) ==> !db[METADATA][k].Malformed?)
    && (ExpectedMarkers(a, schema, Markers(db[METADATA])) || (!requireComplete && Markers(db[METADATA]) == map[]))
    && (requireComplete ==> db[JOURNAL] == map[])
  }
}
