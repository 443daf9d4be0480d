/** The import of a source table into the target store: every row is written together with its
    record, then what left the source is removed. A record remembers which target its row was
    written to, so that a row that moves takes its old target away. */
module SourceImport {
  /** A source row: its key, the target it maps to, and a checksum of everything it maps from. */
  datatype Row = Row(source: string, target: string, value: string, sum: string)
  datatype Record = Record(target: string, sum: string)

  /** The records of one source table, and the target rows written for it. */
  datatype State = State(records: map<string, Record>, targets: map<string, string>)

  /** The rows of one transaction: one row, or a page of a table that is imported in pages. */
  type Page = seq<Row>

  ghost predicate PageOk(page: Page) {
    forall r, q :: r in page && q in page && (r.source == q.source || r.target == q.target) ==> r == q
  }

  /** A source table in scan order: a key occurs once; a target occurs once on a page. */
  ghost predicate SourceOk(pages: seq<Page>) {
    (forall i :: 0 <= i < |pages| ==> PageOk(pages[i]))
    && forall i, j, r, q :: 0 <= i < j < |pages| && r in pages[i] && q in pages[j] ==> r.source != q.source
  }

  /** The row needs no write. */
  predicate InPlace(s: State, row: Row) {
    row.source in s.records && s.records[row.source] == Record(row.target, row.sum)
    && row.target in s.targets && s.targets[row.target] == row.value
  }

  predicate Owns(s: State, source: string, target: string) {
    source in s.records && s.records[source].target == target
  }

  /** The old targets of the rows that map somewhere else now. */
  function Departures(s: State, page: Page): set<string> {
    set r | r in page && r.source in s.records && s.records[r.source].target != r.target :: s.records[r.source].target
  }

  ghost function Arrivals(s: State, page: Page): map<string, string>
    requires PageOk(page)
  {
    map r | r in page && !InPlace(s, r) :: r.target := r.value
  }

  ghost function PageRecords(page: Page): map<string, Record>
    requires PageOk(page)
  {
    map r | r in page :: r.source := Record(r.target, r.sum)
  }

  ghost function PageTargets(page: Page): map<string, string>
    requires PageOk(page)
  {
    map r | r in page :: r.target := r.value
  }

  /** One transaction of the scan. */
  ghost function PagePut(s: State, page: Page): State
    requires PageOk(page)
  {
    State(s.records + PageRecords(page), s.targets - Departures(s, page) + Arrivals(s, page))
  }

  ghost function Scan(s: State, pages: seq<Page>): State
    requires SourceOk(pages)
  {
    if pages == [] then s
    else
      FrontOk(pages);
      PagePut(Scan(s, pages[..|pages| - 1]), pages[|pages| - 1])
  }

  lemma FrontOk(pages: seq<Page>)
    requires SourceOk(pages) && pages != []
    ensures SourceOk(pages[..|pages| - 1]) && PageOk(pages[|pages| - 1])
  {
  }

  lemma PrefixOk(pages: seq<Page>, n: nat)
    requires SourceOk(pages) && n <= |pages|
    ensures SourceOk(pages[..n])
  {
  }

  predicate FromSource(pages: seq<Page>, source: string) {
    exists i :: 0 <= i < |pages| && exists r :: r in pages[i] && r.source == source
  }

  predicate ToTarget(pages: seq<Page>, target: string) {
    exists i :: 0 <= i < |pages| && exists r :: r in pages[i] && r.target == target
  }

  /** The deletion pass; preserve is the rule of the table whose rows share targets. */
  function Sweep(s: State, pages: seq<Page>, preserve: bool): State {
    var gone := set a | a in s.records && !FromSource(pages, a);
    State(s.records - gone,
    s.targets - (set a | a in gone && !(preserve && ToTarget(pages, s.records[a].target)) :: s.records[a].target))
  }

  ghost function Import(s: State, pages: seq<Page>, preserve: bool): State
    requires SourceOk(pages)
  {
    Sweep(Scan(s, pages), pages, preserve)
  }

  /** What the source says the store should hold: of rows that share a target, the last. */
  ghost function SourceRecords(pages: seq<Page>): map<string, Record>
    requires SourceOk(pages)
  {
    if pages == [] then map[]
    else
      FrontOk(pages);
      SourceRecords(pages[..|pages| - 1]) + PageRecords(pages[|pages| - 1])
  }

  ghost function SourceTargets(pages: seq<Page>): map<string, string>
    requires SourceOk(pages)
  {
    if pages == [] then map[]
    else
      FrontOk(pages);
      SourceTargets(pages[..|pages| - 1]) + PageTargets(pages[|pages| - 1])
  }

  ghost predicate Converged(s: State, pages: seq<Page>)
    requires SourceOk(pages)
  {
    s == State(SourceRecords(pages), SourceTargets(pages))
  }

  /** Every target row was written for some record. */
  ghost predicate Covered(s: State) {
    forall k :: k in s.targets ==> exists a :: Owns(s, a, k)
  }

  // ---- Records ------------------------------------------------------------------------------------

  lemma SumsAssociate(a: map<string, Record>, b: map<string, Record>, c: map<string, Record>)
    ensures (a + b) + c == a + (b + c)
  {
  }

  lemma {:induction false} ScanRecords(s: State, pages: seq<Page>)
    requires SourceOk(pages)
    ensures Scan(s, pages).records == s.records + SourceRecords(pages)
  {
    if pages != [] {
      FrontOk(pages);
      hide SourceOk, PageOk, Departures, Arrivals, PageRecords, InPlace;
      ScanRecords(s, pages[..|pages| - 1]);
      SumsAssociate(s.records, SourceRecords(pages[..|pages| - 1]), PageRecords(pages[|pages| - 1]));
    }
  }

  lemma PageRecordKeys(page: Page, a: string)
    requires PageOk(page)
    ensures a in PageRecords(page) <==> exists r :: r in page && r.source == a
  {
  }

  lemma FromFront(pages: seq<Page>, a: string)
    requires pages != []
    ensures FromSource(pages, a)
      <==> FromSource(pages[..|pages| - 1], a) || exists r :: r in pages[|pages| - 1] && r.source == a
  {
    var front := pages[..|pages| - 1];
    if FromSource(front, a) {
      var i :| 0 <= i < |front| && exists r: Row :: r in front[i] && r.source == a;
      assert pages[i] == front[i];
    }
    if FromSource(pages, a) {
      var i :| 0 <= i < |pages| && exists r: Row :: r in pages[i] && r.source == a;
      assert i < |pages| - 1 ==> front[i] == pages[i];
    }
  }

  lemma {:induction false} RecordedSources(pages: seq<Page>, a: string)
    requires SourceOk(pages)
    ensures a in SourceRecords(pages) <==> FromSource(pages, a)
  {
    if pages != [] {
      FrontOk(pages);
      hide SourceOk, PageOk, FromSource, PageRecords;
      RecordedSources(pages[..|pages| - 1], a);
      FromFront(pages, a);
      PageRecordKeys(pages[|pages| - 1], a);
    }
  }

  lemma NotEarlier(pages: seq<Page>, i: nat, r: Row)
    requires SourceOk(pages) && i < |pages| && r in pages[i]
    ensures !FromSource(pages[..i], r.source)
  {
    forall j, q | 0 <= j < i && q in pages[..i][j] ensures q.source != r.source {
      assert q in pages[j];
    }
  }

  /** Until its page is reached, a row's record is the one from before the run. */
  lemma RecordUntouched(s: State, pages: seq<Page>, i: nat, r: Row)
    requires SourceOk(pages) && i < |pages| && r in pages[i]
    ensures SourceOk(pages[..i])
    ensures var before := Scan(s, pages[..i]);
      (r.source in before.records <==> r.source in s.records)
      && (r.source in s.records ==> before.records[r.source] == s.records[r.source])
  {
    PrefixOk(pages, i);
    NotEarlier(pages, i, r);
    hide SourceOk, FromSource, Scan, SourceRecords;
    ScanRecords(s, pages[..i]);
    RecordedSources(pages[..i], r.source);
  }

  // ---- One target through the scan --------------------------------------------------------------

  /** The page takes the target k away from a row that maps elsewhere now. */
  ghost predicate TakenBy(s: State, page: Page, k: string) {
    exists r :: r in page && r.target != k && Owns(s, r.source, k)
  }

  lemma DeparturesAt(s: State, pages: seq<Page>, i: nat, k: string)
    requires SourceOk(pages) && i < |pages|
    ensures SourceOk(pages[..i])
    ensures k in Departures(Scan(s, pages[..i]), pages[i]) <==> TakenBy(s, pages[i], k)
  {
    PrefixOk(pages, i);
    forall r | r in pages[i]
      ensures var before := Scan(s, pages[..i]);
        (r.source in before.records <==> r.source in s.records)
        && (r.source in s.records ==> before.records[r.source] == s.records[r.source])
    {
      RecordUntouched(s, pages, i, r);
    }
    hide Scan, SourceOk;
  }

  /** Page b writes row, and no later page writes its target again. */
  ghost predicate LastWriter(pages: seq<Page>, b: nat, row: Row) {
    b < |pages| && row in pages[b] && forall j, r :: b < j < |pages| && r in pages[j] ==> r.target != row.target
  }

  /** The row was written to this target, with this checksum, before the run. */
  predicate Recorded(s: State, row: Row) {
    row.source in s.records && s.records[row.source] == Record(row.target, row.sum)
  }

  predicate Writes(page: Page, k: string) {
    exists r :: r in page && r.target == k
  }

  /** Judged by the store before the run: the target k holds v when the scan comes to page n. */
  ghost predicate HoldsBefore(s: State, pages: seq<Page>, n: nat, k: string, v: string)
    requires n <= |pages|
  {
    if n == 0 then k in s.targets && s.targets[k] == v
    else if Writes(pages[n - 1], k) then
      exists r :: r in pages[n - 1] && r.target == k && r.value == v
        && !(Recorded(s, r) && HoldsBefore(s, pages, n - 1, k, v) && TakenBy(s, pages[n - 1], k))
    else HoldsBefore(s, pages, n - 1, k, v) && !TakenBy(s, pages[n - 1], k)
  }

  /** Judged by the store before the run: the scan will find the row in place. */
  ghost predicate FoundInPlace(s: State, pages: seq<Page>, b: nat, row: Row)
    requires b <= |pages|
  {
    Recorded(s, row) && HoldsBefore(s, pages, b, row.target, row.value)
  }

  lemma HeldAfterWrite(s: State, pages: seq<Page>, n: nat, r: Row, v: string)
    requires SourceOk(pages) && n < |pages| && r in pages[n] && SourceOk(pages[..n]) && SourceOk(pages[..n + 1])
    requires (HoldsBefore(s, pages, n, r.target, r.value) && Recorded(s, r)) <==> InPlace(Scan(s, pages[..n]), r)
    ensures var targets := Scan(s, pages[..n + 1]).targets;
      HoldsBefore(s, pages, n + 1, r.target, v) <==> r.target in targets && targets[r.target] == v
  {
    hide *;
    AfterOwnPage(s, pages, n, r);
    OnlyWriterOfPage(pages, n, r);
    HeldStep(s, pages, n, r, v);
  }

  lemma HeldStep(s: State, pages: seq<Page>, n: nat, r: Row, v: string)
    requires n < |pages| && r in pages[n] && forall q :: q in pages[n] && q.target == r.target ==> q == r
    ensures HoldsBefore(s, pages, n + 1, r.target, v)
      <==> r.value == v && !(Recorded(s, r) && HoldsBefore(s, pages, n, r.target, v) && TakenBy(s, pages[n], r.target))
  {
    hide TakenBy, Recorded;
    assert Writes(pages[n], r.target);
  }

  lemma OnlyWriterOfPage(pages: seq<Page>, n: nat, r: Row)
    requires SourceOk(pages) && n < |pages| && r in pages[n]
    ensures forall q :: q in pages[n] && q.target == r.target ==> q == r
  {
    assert PageOk(pages[n]);
  }

  lemma {:induction false} HeldDuringScan(s: State, pages: seq<Page>, n: nat, k: string, v: string)
    requires SourceOk(pages) && n <= |pages|
    ensures SourceOk(pages[..n])
    ensures var targets := Scan(s, pages[..n]).targets;
      HoldsBefore(s, pages, n, k, v) <==> k in targets && targets[k] == v
  {
    hide *;
    PrefixOk(pages, n);
    if n == 0 {
      ScanNone(s, pages);
      HeldAtFirst(s, pages, k, v);
    } else {
      PrefixOk(pages, n - 1);
      HeldDuringScan(s, pages, n - 1, k, v);
      if r :| r in pages[n - 1] && r.target == k {
        FoundIsInPlace(s, pages, n - 1, r);
        FoundMeans(s, pages, n - 1, r);
        HeldAfterWrite(s, pages, n - 1, r, v);
      } else {
        ScanStep(s, pages, n);
        DeparturesAt(s, pages, n - 1, k);
        PageSpares(Scan(s, pages[..n - 1]), pages[n - 1], k);
        HeldUnlessTaken(s, pages, n, k, v);
      }
    }
  }

  lemma HeldAtFirst(s: State, pages: seq<Page>, k: string, v: string)
    ensures HoldsBefore(s, pages, 0, k, v) <==> k in s.targets && s.targets[k] == v
  {
  }

  lemma HeldUnlessTaken(s: State, pages: seq<Page>, n: nat, k: string, v: string)
    requires 0 < n <= |pages| && forall r :: r in pages[n - 1] ==> r.target != k
    ensures HoldsBefore(s, pages, n, k, v) <==> HoldsBefore(s, pages, n - 1, k, v) && !TakenBy(s, pages[n - 1], k)
  {
    hide TakenBy;
  }

  lemma FoundMeans(s: State, pages: seq<Page>, b: nat, row: Row)
    requires b <= |pages|
    ensures FoundInPlace(s, pages, b, row) <==> Recorded(s, row) && HoldsBefore(s, pages, b, row.target, row.value)
  {
  }

  /** The scan finds in place exactly the rows that the store before the run says it will. */
  lemma {:induction false} FoundIsInPlace(s: State, pages: seq<Page>, b: nat, row: Row)
    requires SourceOk(pages) && b < |pages| && row in pages[b]
    ensures SourceOk(pages[..b])
    ensures FoundInPlace(s, pages, b, row) <==> InPlace(Scan(s, pages[..b]), row)
  {
    HeldDuringScan(s, pages, b, row.target, row.value);
    RecordUntouched(s, pages, b, row);
    hide HoldsBefore, Scan, SourceOk;
  }

  /** The scan loses the target: a later row moves away from it, or a row of the same page
      does while the writer itself is skipped as being in place. Everything is judged by the
      store before the run. */
  ghost predicate LostInScan(s: State, pages: seq<Page>, b: nat, row: Row)
    requires LastWriter(pages, b, row)
  {
    (exists j :: b < j < |pages| && TakenBy(s, pages[j], row.target))
    || (FoundInPlace(s, pages, b, row) && TakenBy(s, pages[b], row.target))
  }

  lemma AfterOwnPage(s: State, pages: seq<Page>, b: nat, row: Row)
    requires SourceOk(pages) && b < |pages| && row in pages[b]
    ensures SourceOk(pages[..b]) && SourceOk(pages[..b + 1])
    ensures var targets := Scan(s, pages[..b + 1]).targets;
      (row.target in targets <==> !(InPlace(Scan(s, pages[..b]), row) && TakenBy(s, pages[b], row.target)))
      && (row.target in targets ==> targets[row.target] == row.value)
  {
    PrefixOk(pages, b);
    PrefixOk(pages, b + 1);
    DeparturesAt(s, pages, b, row.target);
    assert pages[..b + 1][..b] == pages[..b] && PageOk(pages[b]);
    var before := Scan(s, pages[..b]);
    assert Scan(s, pages[..b + 1]) == PagePut(before, pages[b]);
    hide Scan, SourceOk, TakenBy, Departures;
    PageSettles(before, pages[b], row);
  }

  /** After a page each of its rows has its target, unless it was skipped and lost it. */
  lemma PageSettles(s: State, page: Page, row: Row)
    requires PageOk(page) && row in page
    ensures var targets := PagePut(s, page).targets;
      (row.target in targets <==> !(InPlace(s, row) && row.target in Departures(s, page)))
      && (row.target in targets ==> targets[row.target] == row.value)
  {
    hide Departures;
    if !InPlace(s, row) {
      assert row.target in Arrivals(s, page);
    } else {
      assert row.target !in Arrivals(s, page);
    }
  }

  lemma PageSpares(s: State, page: Page, k: string)
    requires PageOk(page) && forall r :: r in page ==> r.target != k
    ensures var targets := PagePut(s, page).targets;
      (k in targets <==> k in s.targets && k !in Departures(s, page)) && (k in targets ==> targets[k] == s.targets[k])
  {
    hide Departures;
  }

  lemma LastWriterMeans(pages: seq<Page>, b: nat, row: Row, j: nat)
    requires LastWriter(pages, b, row) && b < j < |pages|
    ensures forall r :: r in pages[j] ==> r.target != row.target
  {
  }

  lemma WriterRow(pages: seq<Page>, b: nat, row: Row)
    requires LastWriter(pages, b, row)
    ensures b < |pages| && row in pages[b]
  {
  }

  lemma ScanStep(s: State, pages: seq<Page>, n: nat)
    requires SourceOk(pages) && 0 < n <= |pages|
    ensures SourceOk(pages[..n]) && SourceOk(pages[..n - 1]) && PageOk(pages[n - 1])
    ensures Scan(s, pages[..n]) == PagePut(Scan(s, pages[..n - 1]), pages[n - 1])
  {
    PrefixOk(pages, n);
    PrefixOk(pages, n - 1);
    assert PageOk(pages[n - 1]);
    hide SourceOk, PageOk, PagePut;
    assert pages[..n][..n - 1] == pages[..n - 1];
  }

  lemma {:induction false} AfterScan(s: State, pages: seq<Page>, b: nat, row: Row, n: nat)
    requires SourceOk(pages) && LastWriter(pages, b, row) && b < n <= |pages|
    ensures SourceOk(pages[..n]) && SourceOk(pages[..b])
    ensures var targets := Scan(s, pages[..n]).targets;
      (row.target in targets <==>
         !(InPlace(Scan(s, pages[..b]), row) && TakenBy(s, pages[b], row.target))
         && forall j :: b < j < n ==> !TakenBy(s, pages[j], row.target))
      && (row.target in targets ==> targets[row.target] == row.value)
    decreases n
  {
    hide Scan, SourceOk, TakenBy, Departures, PageOk, InPlace, PagePut, LastWriter;
    PrefixOk(pages, n);
    WriterRow(pages, b, row);
    AfterOwnPage(s, pages, b, row);
    if n > b + 1 {
      LastWriterMeans(pages, b, row, n - 1);
      AfterScan(s, pages, b, row, n - 1);
      DeparturesAt(s, pages, n - 1, row.target);
      ScanStep(s, pages, n);
      PageSpares(Scan(s, pages[..n - 1]), pages[n - 1], row.target);
    }
  }

  // ---- The whole run -----------------------------------------------------------------------------

  /** The deletion pass takes the target: a row that left the source was written to it. */
  ghost predicate LostInSweep(s: State, pages: seq<Page>, preserve: bool, k: string) {
    !preserve && exists a :: Owns(s, a, k) && !FromSource(pages, a)
  }

  lemma SweepKeys(s: State, pages: seq<Page>, preserve: bool, k: string)
    ensures var after := Sweep(s, pages, preserve);
      (k in after.targets <==>
       k in s.targets && !exists a :: Owns(s, a, k) && !FromSource(pages, a) && !(preserve && ToTarget(pages, k)))
      && (k in after.targets ==> after.targets[k] == s.targets[k])
  {
    hide FromSource, ToTarget;
  }

  lemma ToTargetOf(pages: seq<Page>, b: nat, row: Row)
    requires b < |pages| && row in pages[b]
    ensures ToTarget(pages, row.target)
  {
  }

  /** Rows outside the source keep their records through the scan. */
  lemma ScanKeepsForeign(s: State, pages: seq<Page>, a: string, k: string)
    requires SourceOk(pages) && !FromSource(pages, a)
    ensures Owns(Scan(s, pages), a, k) <==> Owns(s, a, k)
  {
    hide SourceOk, FromSource, Scan, SourceRecords;
    ScanRecords(s, pages);
    RecordedSources(pages, a);
  }

  /** What one complete run leaves at a target of the source: the value of the last row that
      maps to it, unless the target was lost to a row that used to own it. */
  lemma TargetAfterImport(s: State, pages: seq<Page>, preserve: bool, b: nat, row: Row)
    requires SourceOk(pages) && LastWriter(pages, b, row)
    ensures var targets := Import(s, pages, preserve).targets;
      (row.target in targets <==> !LostInScan(s, pages, b, row) && !LostInSweep(s, pages, preserve, row.target))
      && (row.target in targets ==> targets[row.target] == row.value)
  {
    AfterScan(s, pages, b, row, |pages|);
    assert pages[..|pages|] == pages;
    ToTargetOf(pages, b, row);
    FoundIsInPlace(s, pages, b, row);
    hide FoundInPlace, Scan, SourceOk, TakenBy, InPlace, Sweep, FromSource, ToTarget, Owns;
    SweepKeys(Scan(s, pages), pages, preserve, row.target);
    forall a | !FromSource(pages, a) ensures Owns(Scan(s, pages), a, row.target) <==> Owns(s, a, row.target) {
      ScanKeepsForeign(s, pages, a, row.target);
    }
  }

  lemma {:induction false} ScanCovered(s: State, pages: seq<Page>)
    requires SourceOk(pages) && Covered(s)
    ensures Covered(Scan(s, pages))
  {
    if pages != [] {
      FrontOk(pages);
      var front, last := pages[..|pages| - 1], pages[|pages| - 1];
      hide SourceOk;
      ScanCovered(s, front);
      PageCovered(Scan(s, front), last);
    }
  }

  /** A transaction leaves no target without a record. */
  lemma PageCovered(s: State, page: Page)
    requires PageOk(page) && Covered(s)
    ensures Covered(PagePut(s, page))
  {
    hide PagePut, Departures, Owns, PageOk;
    var after := PagePut(s, page);
    forall k | k in after.targets ensures exists a :: Owns(after, a, k) {
      if r :| r in page && r.target == k {
        RowOwns(s, page, r);
      } else {
        PageSpares(s, page, k);
        var a :| Owns(s, a, k);
        OwnerStays(s, page, a, k);
      }
    }
  }

  lemma RowOwns(s: State, page: Page, r: Row)
    requires PageOk(page) && r in page
    ensures Owns(PagePut(s, page), r.source, r.target)
  {
    hide Departures, Arrivals;
    assert r.source in PageRecords(page);
  }

  lemma OwnerStays(s: State, page: Page, a: string, k: string)
    requires PageOk(page) && Owns(s, a, k) && k !in Departures(s, page) && forall r :: r in page ==> r.target != k
    ensures Owns(PagePut(s, page), a, k)
  {
    hide Arrivals;
    assert forall r :: r in page && r.source == a ==> s.records[r.source].target in Departures(s, page);
  }

  /** Records after a run are those of the source. */
  lemma RecordsAfterImport(s: State, pages: seq<Page>, preserve: bool)
    requires SourceOk(pages)
    ensures Import(s, pages, preserve).records == SourceRecords(pages)
  {
    hide SourceOk, Scan, SourceRecords, FromSource;
    ScanRecords(s, pages);
    forall a ensures a in SourceRecords(pages) <==> FromSource(pages, a) {
      RecordedSources(pages, a);
    }
  }

  lemma {:induction false} RecordOfRow(pages: seq<Page>, i: nat, r: Row)
    requires SourceOk(pages) && i < |pages| && r in pages[i]
    ensures r.source in SourceRecords(pages) && SourceRecords(pages)[r.source] == Record(r.target, r.sum)
  {
    FrontOk(pages);
    var front, last := pages[..|pages| - 1], pages[|pages| - 1];
    if i < |front| {
      RecordOfRow(front, i, r);
      assert forall q :: q in last ==> q.source != r.source;
      hide SourceOk, SourceRecords;
      assert r.source !in PageRecords(last);
    } else {
      hide SourceOk, SourceRecords;
      assert r.source in PageRecords(last);
    }
  }

  /** A row of the source records its own target and no other. */
  lemma SourceOwns(pages: seq<Page>, records: map<string, Record>, targets: map<string, string>, a: string, k: string)
    requires SourceOk(pages) && records == SourceRecords(pages) && Owns(State(records, targets), a, k)
    ensures FromSource(pages, a) && ToTarget(pages, k)
    ensures forall i, r :: 0 <= i < |pages| && r in pages[i] && r.source == a ==> r.target == k
  {
    hide SourceRecords;
    RecordedSources(pages, a);
    forall i, r | 0 <= i < |pages| && r in pages[i] && r.source == a ensures r.target == k {
      RecordOfRow(pages, i, r);
    }
    var i: int :| 0 <= i < |pages| && exists r: Row :: r in pages[i] && r.source == a;
    var r: Row :| r in pages[i] && r.source == a;
    ToTargetOf(pages, i, r);
  }

  /** Nothing is left in the target that the source does not map to. */
  lemma NoStrays(s: State, pages: seq<Page>, preserve: bool, k: string)
    requires SourceOk(pages) && Covered(s) && k in Import(s, pages, preserve).targets
    ensures ToTarget(pages, k)
  {
    ScanCovered(s, pages);
    hide SourceOk, Scan, FromSource, ToTarget, Owns, SourceRecords, Sweep;
    var scanned := Scan(s, pages);
    SweepKeys(scanned, pages, preserve, k);
    var a :| Owns(scanned, a, k);
    if FromSource(pages, a) {
      ScannedOwner(s, pages, a, k);
    }
  }

  lemma ScannedOwner(s: State, pages: seq<Page>, a: string, k: string)
    requires SourceOk(pages) && FromSource(pages, a) && Owns(Scan(s, pages), a, k)
    ensures ToTarget(pages, k)
  {
    hide SourceOk, Scan, FromSource, ToTarget, SourceRecords;
    ScanRecords(s, pages);
    RecordedSources(pages, a);
    SourceOwns(pages, SourceRecords(pages), map[], a, k);
  }

  /** The deletion pass leaves no target without a record either. */
  lemma ImportCovered(s: State, pages: seq<Page>, preserve: bool)
    requires SourceOk(pages) && Covered(s)
    ensures Covered(Import(s, pages, preserve))
  {
    var after := Import(s, pages, preserve);
    RecordsAfterImport(s, pages, preserve);
    forall k | k in after.targets ensures exists a :: Owns(after, a, k) {
      NoStrays(s, pages, preserve, k);
      var i :| 0 <= i < |pages| && exists r: Row :: r in pages[i] && r.target == k;
      var r: Row :| r in pages[i] && r.target == k;
      RecordOfRow(pages, i, r);
      assert Owns(after, r.source, k);
    }
  }

  lemma LastWriterInFront(pages: seq<Page>, b: nat, row: Row)
    requires pages != [] && LastWriter(pages[..|pages| - 1], b, row)
    requires forall r :: r in pages[|pages| - 1] ==> r.target != row.target
    ensures LastWriter(pages, b, row)
  {
    var front := pages[..|pages| - 1];
    forall j, r | b < j < |pages| && r in pages[j] ensures r.target != row.target {
      assert j < |front| ==> pages[j] == front[j];
    }
  }

  lemma {:induction false} LastWriterOf(pages: seq<Page>, k: string) returns (b: nat, row: Row)
    requires ToTarget(pages, k)
    ensures LastWriter(pages, b, row) && row.target == k
  {
    var front, last := pages[..|pages| - 1], pages[|pages| - 1];
    if r :| r in last && r.target == k {
      b, row := |pages| - 1, r;
    } else {
      hide LastWriter;
      TargetInFront(pages, k);
      b, row := LastWriterOf(front, k);
      LastWriterInFront(pages, b, row);
    }
  }

  lemma TargetInFront(pages: seq<Page>, k: string)
    requires ToTarget(pages, k) && |pages| > 0 && forall r :: r in pages[|pages| - 1] ==> r.target != k
    ensures ToTarget(pages[..|pages| - 1], k)
  {
    var front := pages[..|pages| - 1];
    var i :| 0 <= i < |pages| && exists r: Row :: r in pages[i] && r.target == k;
    assert front[i] == pages[i];
  }

  lemma {:induction false} ValueOfLast(pages: seq<Page>, b: nat, row: Row)
    requires SourceOk(pages) && LastWriter(pages, b, row)
    ensures row.target in SourceTargets(pages) && SourceTargets(pages)[row.target] == row.value
  {
    FrontOk(pages);
    var front, last := pages[..|pages| - 1], pages[|pages| - 1];
    if b < |front| {
      assert front[b] == pages[b];
      ValueOfLast(front, b, row);
      hide SourceOk, SourceTargets;
      assert row.target !in PageTargets(last);
    } else {
      hide SourceOk, SourceTargets;
      assert row.target in PageTargets(last);
    }
  }

  lemma {:induction false} TargetsOfSource(pages: seq<Page>, k: string)
    requires SourceOk(pages)
    ensures k in SourceTargets(pages) <==> ToTarget(pages, k)
  {
    if ToTarget(pages, k) {
      var b, row := LastWriterOf(pages, k);
      ValueOfLast(pages, b, row);
    } else if pages != [] {
      FrontOk(pages);
      var front := pages[..|pages| - 1];
      FrontToTarget(pages, k);
      hide SourceOk, ToTarget;
      TargetsOfSource(front, k);
    }
  }

  lemma FrontToTarget(pages: seq<Page>, k: string)
    requires pages != []
    ensures ToTarget(pages[..|pages| - 1], k) ==> ToTarget(pages, k)
    ensures !ToTarget(pages, k) ==> forall r :: r in pages[|pages| - 1] ==> r.target != k
  {
    var front := pages[..|pages| - 1];
    assert forall i :: 0 <= i < |front| ==> front[i] == pages[i];
  }

  /** One complete run leaves exactly what the source says if and only if no target is lost. */
  lemma ConvergesIff(s: State, pages: seq<Page>, preserve: bool)
    requires SourceOk(pages) && Covered(s)
    ensures Converged(Import(s, pages, preserve), pages) <==>
      forall b: nat, row :: LastWriter(pages, b, row) ==>
        !LostInScan(s, pages, b, row) && !LostInSweep(s, pages, preserve, row.target)
  {
    hide SourceOk, Scan, SourceRecords, SourceTargets, Import, LostInScan, LostInSweep, LastWriter, ToTarget, Covered;
    var after := Import(s, pages, preserve);
    RecordsAfterImport(s, pages, preserve);
    if forall b: nat, row :: LastWriter(pages, b, row) ==>
         !LostInScan(s, pages, b, row) && !LostInSweep(s, pages, preserve, row.target) {
      forall k
        ensures k in after.targets <==> k in SourceTargets(pages)
        ensures k in after.targets ==> after.targets[k] == SourceTargets(pages)[k]
      {
        TargetsOfSource(pages, k);
        if k in after.targets {
          NoStrays(s, pages, preserve, k);
        }
        if ToTarget(pages, k) {
          var b, row := LastWriterOf(pages, k);
          TargetAfterImport(s, pages, preserve, b, row);
          ValueOfLast(pages, b, row);
        }
      }
    }
    if Converged(after, pages) {
      forall b: nat, row | LastWriter(pages, b, row)
        ensures !LostInScan(s, pages, b, row) && !LostInSweep(s, pages, preserve, row.target)
      {
        TargetAfterImport(s, pages, preserve, b, row);
        ValueOfLast(pages, b, row);
      }
    }
  }

  // ---- When one run is enough ---------------------------------------------------------------------

  /** Rows have targets of their own. */
  ghost predicate DistinctTargets(pages: seq<Page>) {
    forall i, j, r, q ::
      0 <= i < |pages| && 0 <= j < |pages| && r in pages[i] && q in pages[j] && r.target == q.target ==> r == q
  }

  /** No target of the source was written for another row before. */
  ghost predicate NoTargetPasses(s: State, pages: seq<Page>) {
    forall a, i, r :: 0 <= i < |pages| && r in pages[i] && Owns(s, a, r.target) ==> a == r.source
  }

  /** Where rows have targets of their own, a row is found in place exactly when it was in place
      before the run and no earlier page takes its target. */
  lemma {:induction false} HeldWhereDistinct(s: State, pages: seq<Page>, b: nat, row: Row, n: nat)
    requires SourceOk(pages) && DistinctTargets(pages) && n <= b < |pages| && row in pages[b]
    ensures HoldsBefore(s, pages, n, row.target, row.value)
      <==> row.target in s.targets && s.targets[row.target] == row.value
           && forall j :: 0 <= j < n ==> !TakenBy(s, pages[j], row.target)
  {
    if n > 0 {
      HeldWhereDistinct(s, pages, b, row, n - 1);
      NotWrittenEarlier(pages, b, row, n - 1);
      hide TakenBy, SourceOk, DistinctTargets, Writes;
    }
  }

  lemma NotWrittenEarlier(pages: seq<Page>, b: nat, row: Row, j: nat)
    requires SourceOk(pages) && DistinctTargets(pages) && j < b < |pages| && row in pages[b]
    ensures !Writes(pages[j], row.target)
  {
    forall r | r in pages[j] ensures r.target != row.target {
      assert r.target == row.target ==> r == row;
      assert r.source != row.source;
    }
  }

  /** The three ways a scan loses a target, for rows with targets of their own. */
  ghost predicate Passes(s: State, pages: seq<Page>, b: nat, row: Row)
    requires b < |pages|
  {
    (exists j :: b < j < |pages| && TakenBy(s, pages[j], row.target))
    || (InPlace(s, row) && TakenBy(s, pages[b], row.target)
        && forall j :: 0 <= j < b ==> !TakenBy(s, pages[j], row.target))
  }

  lemma LostWhereDistinct(s: State, pages: seq<Page>, b: nat, row: Row)
    requires SourceOk(pages) && DistinctTargets(pages) && b < |pages| && row in pages[b]
    ensures LastWriter(pages, b, row) && (LostInScan(s, pages, b, row) <==> Passes(s, pages, b, row))
  {
    OnlyWriter(pages, b, row);
    HeldWhereDistinct(s, pages, b, row, b);
    hide TakenBy, SourceOk, DistinctTargets, HoldsBefore, LastWriter;
  }

  /** Where the table is imported row by row, a target is lost in the scan exactly when a later
      row of the scan used to own it. */
  lemma LostRowByRow(s: State, pages: seq<Page>, b: nat, row: Row)
    requires SourceOk(pages) && LastWriter(pages, b, row) && |pages[b]| == 1
    ensures LostInScan(s, pages, b, row) <==> exists j :: b < j < |pages| && TakenBy(s, pages[j], row.target)
  {
    assert forall r :: r in pages[b] ==> r == row;
  }

  /** For rows with targets of their own: one complete run converges if and only if, in the
      store before the run, no row that has left the source owns a target of the source and no
      target passes to a row that the scan meets before its owner, or on its owner's page while
      being in place. */
  lemma ConvergesIffNonePasses(s: State, pages: seq<Page>, preserve: bool)
    requires SourceOk(pages) && Covered(s) && DistinctTargets(pages)
    ensures Converged(Import(s, pages, preserve), pages) <==>
      forall b: nat, row :: b < |pages| && row in pages[b] ==>
        !Passes(s, pages, b, row) && !LostInSweep(s, pages, preserve, row.target)
  {
    hide Converged, Import, LostInScan, LostInSweep, Passes, SourceOk, DistinctTargets, Covered;
    ConvergesIff(s, pages, preserve);
    forall b: nat, row | b < |pages| && row in pages[b]
      ensures LastWriter(pages, b, row) && (LostInScan(s, pages, b, row) <==> Passes(s, pages, b, row))
    {
      LostWhereDistinct(s, pages, b, row);
    }
  }

  lemma OneRunConverges(s: State, pages: seq<Page>, preserve: bool)
    requires SourceOk(pages) && Covered(s) && DistinctTargets(pages) && NoTargetPasses(s, pages)
    ensures Converged(Import(s, pages, preserve), pages)
  {
    hide Converged, Scan, Import, InPlace, Covered;
    ConvergesIff(s, pages, preserve);
    forall b: nat, row | LastWriter(pages, b, row)
      ensures !LostInScan(s, pages, b, row) && !LostInSweep(s, pages, preserve, row.target)
    {
      forall j | b <= j < |pages| ensures !TakenBy(s, pages[j], row.target) {
        forall r | r in pages[j] && Owns(s, r.source, row.target) ensures r.target == row.target {
          SameSource(pages, b, row, j, r);
        }
      }
    }
  }

  lemma SameSource(pages: seq<Page>, b: nat, row: Row, j: nat, r: Row)
    requires SourceOk(pages) && b <= j < |pages| && row in pages[b] && r in pages[j] && r.source == row.source
    ensures r == row
  {
    assert PageOk(pages[b]);
  }

  /** Owners recorded by a complete run take nothing away. */
  lemma SettledLosesNothing(s: State, pages: seq<Page>, preserve: bool, b: nat, row: Row)
    requires SourceOk(pages) && s.records == SourceRecords(pages) && LastWriter(pages, b, row)
    ensures !LostInScan(s, pages, b, row) && !LostInSweep(s, pages, preserve, row.target)
  {
    hide Scan, InPlace, SourceRecords, SourceOk, FromSource, ToTarget;
    forall j | 0 <= j < |pages| ensures !TakenBy(s, pages[j], row.target) {
      forall r | r in pages[j] && Owns(s, r.source, row.target) ensures r.target == row.target {
        SourceOwns(pages, s.records, s.targets, r.source, row.target);
      }
    }
    forall a | Owns(s, a, row.target) ensures FromSource(pages, a) {
      SourceOwns(pages, s.records, s.targets, a, row.target);
    }
  }

  /** Whatever the first run lost, a second run on the same backup restores; of rows that share
      a target, the last one of the scan is the one that stays. */
  lemma SecondRunConverges(s: State, pages: seq<Page>, preserve: bool)
    requires SourceOk(pages) && Covered(s)
    ensures Converged(Import(Import(s, pages, preserve), pages, preserve), pages)
  {
    hide Converged, Scan, Import, Covered, SourceRecords, LostInScan, LostInSweep;
    var once := Import(s, pages, preserve);
    ImportCovered(s, pages, preserve);
    RecordsAfterImport(s, pages, preserve);
    ConvergesIff(once, pages, preserve);
    forall b: nat, row | LastWriter(pages, b, row)
      ensures !LostInScan(once, pages, b, row) && !LostInSweep(once, pages, preserve, row.target)
    {
      SettledLosesNothing(once, pages, preserve, b, row);
    }
  }

  /** A run on a converged store ends where it began, and where rows have targets of their own
      it finds every row in place. */
  lemma ConvergedStays(s: State, pages: seq<Page>, preserve: bool)
    requires SourceOk(pages) && Converged(s, pages)
    ensures Import(s, pages, preserve) == s
    ensures DistinctTargets(pages) ==> forall i, r :: 0 <= i < |pages| && r in pages[i] ==> InPlace(s, r)
  {
    hide Scan, Import, SourceRecords, SourceTargets, LostInScan, LostInSweep;
    ConvergedIsCovered(s, pages);
    ConvergesIff(s, pages, preserve);
    forall b: nat, row | LastWriter(pages, b, row)
      ensures !LostInScan(s, pages, b, row) && !LostInSweep(s, pages, preserve, row.target)
    {
      SettledLosesNothing(s, pages, preserve, b, row);
    }
    if DistinctTargets(pages) {
      forall i, r | 0 <= i < |pages| && r in pages[i] ensures InPlace(s, r) {
        RecordOfRow(pages, i, r);
        OnlyWriter(pages, i, r);
        ValueOfLast(pages, i, r);
      }
    }
  }

  lemma OnlyWriter(pages: seq<Page>, i: nat, r: Row)
    requires SourceOk(pages) && DistinctTargets(pages) && i < |pages| && r in pages[i]
    ensures LastWriter(pages, i, r)
  {
    forall j, q | i < j < |pages| && q in pages[j] ensures q.target != r.target {
      assert q.target == r.target ==> q == r;
      assert q.source != r.source;
    }
  }

  lemma ConvergedIsCovered(s: State, pages: seq<Page>)
    requires SourceOk(pages) && Converged(s, pages)
    ensures Covered(s)
  {
    hide SourceRecords, SourceTargets;
    forall k | k in s.targets ensures exists a :: Owns(s, a, k) {
      TargetsOfSource(pages, k);
      var b, row := LastWriterOf(pages, k);
      RecordOfRow(pages, b, row);
      assert Owns(s, row.source, k);
    }
  }

  /** A target that passes from a row to one that the scan meets earlier is lost by the first
      run, although its record says that it was written. */
  lemma PassedTargetIsLost(s: State, b: Row, a: Row)
    requires Covered(s) && b.source != a.source && b.target != a.target && Owns(s, a.source, b.target)
    ensures SourceOk([[b], [a]]) && DistinctTargets([[b], [a]])
    ensures b.target !in Import(s, [[b], [a]], false).targets && !Converged(Import(s, [[b], [a]], false), [[b], [a]])
  {
    var pages := [[b], [a]];
    TwoPages(b, a);
    assert a in pages[1] && b in pages[0];
    assert forall r :: r in pages[1] ==> r == a;
    hide Import, Converged, SourceOk, DistinctTargets, InPlace, Covered, Owns;
    assert LastWriter(pages, 0, b);
    assert TakenBy(s, pages[1], b.target);
    TargetAfterImport(s, pages, false, 0, b);
    ConvergesIff(s, pages, false);
  }

  /** Such stores exist. */
  lemma LossExample()
    ensures var b, a := Row("b", "k", "new", "1"), Row("a", "k2", "old", "2");
      var s := State(map["a" := Record("k", "0")], map["k" := "old"]);
      SourceOk([[b], [a]]) && Covered(s) && "k" !in Import(s, [[b], [a]], false).targets
  {
    var b, a := Row("b", "k", "new", "1"), Row("a", "k2", "old", "2");
    var s := State(map["a" := Record("k", "0")], map["k" := "old"]);
    DifferentTexts();
    assert Owns(s, "a", "k");
    hide Import, Converged, SourceOk, DistinctTargets, InPlace;
    PassedTargetIsLost(s, b, a);
  }

  lemma DifferentTexts()
    ensures "k" != "k2" && "a" != "b"
  {
    assert |"k"| != |"k2"|;
    assert "a"[0] != "b"[0];
  }

  lemma TwoPages(b: Row, a: Row)
    requires b.source != a.source && b.target != a.target
    ensures SourceOk([[b], [a]]) && DistinctTargets([[b], [a]])
  {
    var pages := [[b], [a]];
    assert forall i, r :: 0 <= i < 2 && r in pages[i] ==> r == if i == 0 then b else a;
    forall i | 0 <= i < |pages| ensures PageOk(pages[i]) {
    }
  }

  // ---- The importer -------------------------------------------------------------------------------

  class ImportStore {
    var state: State

    /** import_backup's transaction for one row. */
    method PutRow(row: Row) returns (changed: bool)
      modifies this
      ensures PageOk([row]) && state == PagePut(old(state), [row])
      ensures changed <==> !InPlace(old(state), row)
    {
      ghost var before := state;
      OneRowPage(before, row);
      if InPlace(state, row) {
        return false;
      }
      var targets := state.targets;
      if row.source in state.records && state.records[row.source].target != row.target {
        targets := targets - {state.records[row.source].target};
      }
      state := State(state.records[row.source := Record(row.target, row.sum)], targets[row.target := row.value]);
      return true;
    }

    /** _import_mapping_page's transaction for a page: what needs no write is found first, then
        old targets go, then the changed rows are written. */
    method PutPage(page: Page) returns (count: nat)
      requires PageOk(page)
      modifies this
      ensures state == PagePut(old(state), page)
      ensures count == 0 <==> forall r :: r in page ==> InPlace(old(state), r)
    {
      ghost var before := state;
      var changed: seq<Row> := [];
      var targets := state.targets;
      for i := 0 to |page|
        invariant state == before && targets == before.targets - Departures(before, page[..i])
        invariant forall r :: r in changed <==> r in page[..i] && !InPlace(before, r)
      {
        hide PageOk;
        OneMoreDeparture(before, page, i);
        var row := page[i];
        if !InPlace(state, row) {
          if row.source in state.records && state.records[row.source].target != row.target {
            targets := targets - {state.records[row.source].target};
          }
          changed := changed + [row];
        }
      }
      assert page[..|page|] == page;
      var records := state.records;
      NothingWritten(before, page, changed);
      for i := 0 to |changed|
        invariant state == before
        invariant WrittenUpTo(before, page, changed, i, records, targets)
      {
        hide *;
        OneMoreWritten(before, page, changed, i, records, targets);
        records := records[changed[i].source := Record(changed[i].target, changed[i].sum)];
        targets := targets[changed[i].target := changed[i].value];
      }
      hide WrittenUpTo;
      AllPageWritten(before, page, changed, records, targets);
      state := State(records, targets);
      count := |changed|;
      assert count > 0 ==> changed[0] in changed;
    }

    /** The transaction of the deletion pass. */
    method RemoveRecord(source: string, preserveTarget: bool)
      requires source in state.records
      modifies this
      ensures state.records == old(state).records - {source}
      ensures state.targets == if preserveTarget then old(state).targets
                               else old(state).targets - {old(state).records[source].target}
    {
      var target := state.records[source].target;
      state := State(state.records - {source}, if preserveTarget then state.targets else state.targets - {target});
    }
  }

  /** What a page does to one record. */
  lemma RecordPut(s: State, page: Page, a: string)
    requires PageOk(page)
    ensures var records := PagePut(s, page).records;
      (forall r :: r in page && r.source == a ==> a in records && records[a] == Record(r.target, r.sum))
      && ((forall r :: r in page ==> r.source != a) ==>
            (a in records <==> a in s.records) && (a in records ==> records[a] == s.records[a]))
  {
    hide Departures, Arrivals;
    forall r | r in page && r.source == a
      ensures a in PageRecords(page) && PageRecords(page)[a] == Record(r.target, r.sum)
    {
      assert r.source in PageRecords(page);
    }
    PageRecordKeys(page, a);
  }

  /** What the transaction of one row leaves. */
  function RowPut(s: State, row: Row): State {
    if InPlace(s, row) then s
    else
      var kept := if row.source in s.records && s.records[row.source].target != row.target
                  then s.targets - {s.records[row.source].target} else s.targets;
      State(s.records[row.source := Record(row.target, row.sum)], kept[row.target := row.value])
  }

  lemma OneRowPage(s: State, row: Row)
    ensures PageOk([row]) && PagePut(s, [row]) == RowPut(s, row)
  {
    OneDeparture(s, row);
    OneRowRecords(s, row);
    OneRowTargets(s, row);
    hide PagePut, RowPut, PageOk;
    SameState(PagePut(s, [row]), RowPut(s, row));
  }

  lemma OneRowRecords(s: State, row: Row)
    requires PageOk([row])
    ensures var x, y := PagePut(s, [row]), RowPut(s, row);
      forall a :: (a in x.records <==> a in y.records) && (a in x.records ==> x.records[a] == y.records[a])
  {
    var page := [row];
    assert row in page && forall r :: r in page ==> r == row;
    hide PagePut, PageOk;
    forall a
      ensures var x, y := PagePut(s, page), RowPut(s, row);
        (a in x.records <==> a in y.records) && (a in x.records ==> x.records[a] == y.records[a])
    {
      RecordPut(s, page, a);
    }
  }

  lemma OneRowTargets(s: State, row: Row)
    requires PageOk([row])
    ensures var x, y := PagePut(s, [row]), RowPut(s, row);
      forall k :: (k in x.targets <==> k in y.targets) && (k in x.targets ==> x.targets[k] == y.targets[k])
  {
    var page := [row];
    assert row in page && forall r :: r in page ==> r == row;
    OneDeparture(s, row);
    hide PagePut, PageOk, Departures;
    PageSettles(s, page, row);
    forall k
      ensures var x, y := PagePut(s, page), RowPut(s, row);
        (k in x.targets <==> k in y.targets) && (k in x.targets ==> x.targets[k] == y.targets[k])
    {
      if k != row.target {
        PageSpares(s, page, k);
      }
    }
  }

  lemma OneDeparture(s: State, row: Row)
    ensures PageOk([row])
    ensures Departures(s, [row]) == if row.source in s.records && s.records[row.source].target != row.target
                                    then {s.records[row.source].target} else {}
  {
    assert row in [row];
  }

  lemma SameState(x: State, y: State)
    requires forall a :: (a in x.records <==> a in y.records) && (a in x.records ==> x.records[a] == y.records[a])
    requires forall k :: (k in x.targets <==> k in y.targets) && (k in x.targets ==> x.targets[k] == y.targets[k])
    ensures x == y
  {
    assert x.records == y.records && x.targets == y.targets;
  }

  lemma OneMoreDeparture(s: State, page: Page, i: nat)
    requires i < |page|
    ensures page[..i + 1] == page[..i] + [page[i]]
    ensures var row := page[i];
      Departures(s, page[..i + 1]) == if row.source in s.records && s.records[row.source].target != row.target
                                      then Departures(s, page[..i]) + {s.records[row.source].target}
                                      else Departures(s, page[..i])
  {
    assert page[..i + 1] == page[..i] + [page[i]];
  }

  ghost predicate RecordsUpTo(s: State, changed: seq<Row>, n: nat, records: map<string, Record>)
    requires n <= |changed|
  {
    (forall i :: 0 <= i < n ==>
       changed[i].source in records && records[changed[i].source] == Record(changed[i].target, changed[i].sum))
    && forall a :: (forall i :: 0 <= i < n ==> changed[i].source != a) ==>
         (a in records <==> a in s.records) && (a in records ==> records[a] == s.records[a])
  }

  ghost predicate TargetsUpTo(s: State, gone: set<string>, changed: seq<Row>, n: nat, targets: map<string, string>)
    requires n <= |changed|
  {
    (forall i :: 0 <= i < n ==> changed[i].target in targets && targets[changed[i].target] == changed[i].value)
    && forall k :: (forall i :: 0 <= i < n ==> changed[i].target != k) ==>
         (k in targets <==> k in s.targets && k !in gone) && (k in targets ==> targets[k] == s.targets[k])
  }

  /** The first n changed rows have been written. */
  ghost predicate WrittenUpTo(s: State, page: Page, changed: seq<Row>, n: nat, records: map<string, Record>,
                              targets: map<string, string>) {
    PageOk(page) && n <= |changed| && (forall r :: r in changed <==> r in page && !InPlace(s, r))
    && RecordsUpTo(s, changed, n, records) && TargetsUpTo(s, Departures(s, page), changed, n, targets)
  }

  lemma NothingWritten(s: State, page: Page, changed: seq<Row>)
    requires PageOk(page) && forall r :: r in changed <==> r in page && !InPlace(s, r)
    ensures WrittenUpTo(s, page, changed, 0, s.records, s.targets - Departures(s, page))
  {
    hide Departures, InPlace;
  }

  lemma OneMoreRecord(s: State, changed: seq<Row>, n: nat, records: map<string, Record>)
    requires n < |changed| && RecordsUpTo(s, changed, n, records)
    requires forall i :: 0 <= i < n && changed[i].source == changed[n].source ==> changed[i] == changed[n]
    ensures RecordsUpTo(s, changed, n + 1, records[changed[n].source := Record(changed[n].target, changed[n].sum)])
  {
  }

  lemma OneMoreTarget(s: State, gone: set<string>, changed: seq<Row>, n: nat, targets: map<string, string>)
    requires n < |changed| && TargetsUpTo(s, gone, changed, n, targets)
    requires forall i :: 0 <= i < n && changed[i].target == changed[n].target ==> changed[i] == changed[n]
    ensures TargetsUpTo(s, gone, changed, n + 1, targets[changed[n].target := changed[n].value])
  {
  }

  lemma OneMoreWritten(s: State, page: Page, changed: seq<Row>, n: nat, records: map<string, Record>,
                       targets: map<string, string>)
    requires WrittenUpTo(s, page, changed, n, records, targets) && n < |changed|
    ensures WrittenUpTo(s, page, changed, n + 1,
                        records[changed[n].source := Record(changed[n].target, changed[n].sum)],
                        targets[changed[n].target := changed[n].value])
  {
    hide InPlace, Departures, RecordsUpTo, TargetsUpTo;
    forall i | 0 <= i < n
      ensures changed[i].source == changed[n].source || changed[i].target == changed[n].target ==>
        changed[i] == changed[n]
    {
      assert changed[i] in changed && changed[n] in changed;
    }
    hide PageOk;
    OneMoreRecord(s, changed, n, records);
    OneMoreTarget(s, Departures(s, page), changed, n, targets);
  }

  lemma AllPageWritten(s: State, page: Page, changed: seq<Row>, records: map<string, Record>,
                       targets: map<string, string>)
    requires PageOk(page) && WrittenUpTo(s, page, changed, |changed|, records, targets)
    ensures State(records, targets) == PagePut(s, page)
  {
    hide Departures, PagePut, PageOk, WrittenUpTo;
    var after := PagePut(s, page);
    forall a ensures (a in records <==> a in after.records) && (a in records ==> records[a] == after.records[a]) {
      RecordPut(s, page, a);
      WrittenRecord(s, page, changed, records, targets, a);
    }
    forall k ensures (k in targets <==> k in after.targets) && (k in targets ==> targets[k] == after.targets[k]) {
      WrittenTarget(s, page, changed, records, targets, k);
      if r :| r in page && r.target == k {
        PageSettles(s, page, r);
      } else {
        PageSpares(s, page, k);
      }
    }
    SameState(State(records, targets), after);
  }

  lemma WrittenRecord(s: State, page: Page, changed: seq<Row>, records: map<string, Record>,
                      targets: map<string, string>, a: string)
    requires WrittenUpTo(s, page, changed, |changed|, records, targets)
    ensures PageOk(page)
    ensures forall r :: r in page && r.source == a ==> a in records && records[a] == Record(r.target, r.sum)
    ensures (forall r :: r in page ==> r.source != a) ==>
      (a in records <==> a in s.records) && (a in records ==> records[a] == s.records[a])
  {
    hide Departures;
    forall r | r in page && r.source == a ensures a in records && records[a] == Record(r.target, r.sum) {
      if r in changed {
        var i :| 0 <= i < |changed| && changed[i] == r;
      } else {
        assert InPlace(s, r);
        forall i | 0 <= i < |changed| ensures changed[i].source != a {
          assert changed[i] in changed;
        }
      }
    }
    forall i | 0 <= i < |changed| ensures changed[i] in page {
      assert changed[i] in changed;
    }
  }

  lemma WrittenTarget(s: State, page: Page, changed: seq<Row>, records: map<string, Record>,
                      targets: map<string, string>, k: string)
    requires WrittenUpTo(s, page, changed, |changed|, records, targets)
    ensures PageOk(page)
    ensures forall r :: r in page && r.target == k ==>
      (k in targets <==> !(InPlace(s, r) && k in Departures(s, page))) && (k in targets ==> targets[k] == r.value)
    ensures (forall r :: r in page ==> r.target != k) ==>
      (k in targets <==> k in s.targets && k !in Departures(s, page)) && (k in targets ==> targets[k] == s.targets[k])
  {
    hide Departures;
    forall r | r in page && r.target == k
      ensures (k in targets <==> !(InPlace(s, r) && k in Departures(s, page)))
        && (k in targets ==> targets[k] == r.value)
    {
      if r in changed {
        var i :| 0 <= i < |changed| && changed[i] == r;
      } else {
        assert InPlace(s, r);
        forall i | 0 <= i < |changed| ensures changed[i].target != k {
          assert changed[i] in changed;
        }
      }
    }
    forall i | 0 <= i < |changed| ensures changed[i] in page {
      assert changed[i] in changed;
    }
  }

  // ---- A run that may be cut short --------------------------------------------------------------

  /** What the deletion pass has done once these records are gone. */
  ghost predicate SweptBy(s: State, now: State, pages: seq<Page>, preserve: bool, done: set<string>) {
    now.records == s.records - done
    && forall k :: (k in now.targets <==>
                      k in s.targets && !exists a :: a in done && Owns(s, a, k) && !(preserve && ToTarget(pages, k)))
         && (k in now.targets ==> now.targets[k] == s.targets[k])
  }

  lemma NothingSwept(s: State, pages: seq<Page>, preserve: bool)
    ensures SweptBy(s, s, pages, preserve, {})
  {
  }

  lemma OneMoreSwept(s: State, now: State, next: State, pages: seq<Page>, preserve: bool, done: set<string>, a: string)
    requires SweptBy(s, now, pages, preserve, done) && a in now.records && a in s.records
    requires next.records == now.records - {a}
    requires next.targets == if preserve && ToTarget(pages, s.records[a].target) then now.targets
                             else now.targets - {s.records[a].target}
    ensures SweptBy(s, next, pages, preserve, done + {a})
  {
    hide ToTarget;
    forall k
      ensures (k in next.targets <==>
                 k in s.targets && !exists x :: x in done + {a} && Owns(s, x, k) && !(preserve && ToTarget(pages, k)))
        && (k in next.targets ==> next.targets[k] == s.targets[k])
    {
      assert a in done + {a} && forall x :: x in done ==> x in done + {a};
    }
  }

  lemma AllSwept(s: State, now: State, pages: seq<Page>, preserve: bool, done: set<string>)
    requires SweptBy(s, now, pages, preserve, done)
    requires done == set a | a in s.records && !FromSource(pages, a)
    ensures now == Sweep(s, pages, preserve)
  {
    hide ToTarget, FromSource, Sweep;
    SweepRecords(s, pages, preserve);
    forall k
      ensures var swept := Sweep(s, pages, preserve).targets;
        (k in now.targets <==> k in swept) && (k in now.targets ==> now.targets[k] == swept[k])
    {
      SweepKeys(s, pages, preserve, k);
      assert forall a :: Owns(s, a, k) && !FromSource(pages, a) ==> a in done;
    }
    SameState(now, Sweep(s, pages, preserve));
  }

  lemma SweepRecords(s: State, pages: seq<Page>, preserve: bool)
    ensures Sweep(s, pages, preserve).records == s.records - set a | a in s.records && !FromSource(pages, a)
  {
  }

  /** A deletion pass that is cut short still leaves no target without a record. */
  lemma PartSweepCovered(s: State, now: State, pages: seq<Page>, preserve: bool, done: set<string>)
    requires SourceOk(pages) && Covered(s) && SweptBy(s, now, pages, preserve, done)
    requires forall a :: a in done ==> !FromSource(pages, a)
    requires forall i, r :: 0 <= i < |pages| && r in pages[i] ==> Owns(s, r.source, r.target)
    ensures Covered(now)
  {
    forall k | k in now.targets ensures exists a :: Owns(now, a, k) {
      if ToTarget(pages, k) {
        var i :| 0 <= i < |pages| && exists r: Row :: r in pages[i] && r.target == k;
        var r: Row :| r in pages[i] && r.target == k;
        assert Owns(s, r.source, k) && FromSource(pages, r.source);
        assert Owns(now, r.source, k);
      } else {
        hide FromSource, ToTarget, SourceOk;
        var a :| Owns(s, a, k);
        assert a !in done;
        assert Owns(now, a, k);
      }
    }
  }

  lemma ScannedRowsOwn(s: State, pages: seq<Page>)
    requires SourceOk(pages)
    ensures forall i, r :: 0 <= i < |pages| && r in pages[i] ==> Owns(Scan(s, pages), r.source, r.target)
  {
    hide Scan, SourceRecords;
    ScanRecords(s, pages);
    forall i, r | 0 <= i < |pages| && r in pages[i] ensures Owns(Scan(s, pages), r.source, r.target) {
      RecordOfRow(pages, i, r);
    }
  }

  /** import_backup on one source table: the scan, page by page or row by row, and then the
      deletion pass. The process survives a given number of transactions: one for each page and
      one for each record that left the source make the run complete. A later run, on this
      backup or a changed one, starts from a state that is again covered by its records. */
  method ImportTable(store: ImportStore, pages: seq<Page>, preserve: bool, paged: bool, survives: nat)
    returns (complete: bool, count: nat)
    requires SourceOk(pages) && Covered(store.state) && (!paged ==> forall i :: 0 <= i < |pages| ==> |pages[i]| == 1)
    modifies store
    ensures Covered(store.state)
    ensures complete <==> survives >= |pages| + |Departed(old(store.state), pages)|
    ensures complete ==> store.state == Import(old(store.state), pages, preserve)
    ensures complete && Converged(old(store.state), pages) ==> store.state == old(store.state)
    ensures complete && Converged(old(store.state), pages) && DistinctTargets(pages) ==> count == 0
  {
    ghost var s0 := store.state;
    if Converged(s0, pages) {
      ConvergedStays(s0, pages, preserve);
    }
    hide *;
    complete, count := ScanTable(store, pages, paged, survives);
    ghost var scanned := store.state;
    if !complete {
      return;
    }
    ScannedRowsOwn(s0, pages);
    ScanDeparts(s0, pages);
    var removed;
    complete, removed := SweepTable(store, pages, preserve, survives - |pages|);
    count := count + removed;
    ImportIs(s0, scanned, pages, preserve);
    NothingLeft(s0, scanned, pages);
  }

  /** The records whose source row is gone. */
  ghost function Departed(s: State, pages: seq<Page>): set<string> {
    set a | a in s.records && !FromSource(pages, a)
  }

  /** The scan records none of them. */
  lemma ScanDeparts(s: State, pages: seq<Page>)
    requires SourceOk(pages)
    ensures Departed(Scan(s, pages), pages) == Departed(s, pages)
  {
    hide Scan, SourceRecords, FromSource, SourceOk;
    ScanRecords(s, pages);
    forall a ensures a in SourceRecords(pages) <==> FromSource(pages, a) {
      RecordedSources(pages, a);
    }
  }

  lemma ImportIs(s: State, scanned: State, pages: seq<Page>, preserve: bool)
    requires SourceOk(pages) && scanned == Scan(s, pages)
    ensures Import(s, pages, preserve) == Sweep(scanned, pages, preserve)
  {
  }

  /** In a converged store the deletion pass finds nothing. */
  lemma NothingLeft(s: State, scanned: State, pages: seq<Page>)
    requires SourceOk(pages) && scanned == Scan(s, pages)
    ensures Converged(s, pages) ==> forall a :: a in scanned.records ==> FromSource(pages, a)
  {
    hide Scan, SourceRecords, SourceTargets, FromSource, SourceOk;
    ScanRecords(s, pages);
    forall a ensures a in SourceRecords(pages) <==> FromSource(pages, a) {
      RecordedSources(pages, a);
    }
  }

  method ScanTable(store: ImportStore, pages: seq<Page>, paged: bool, survives: nat)
    returns (complete: bool, count: nat)
    requires SourceOk(pages) && Covered(store.state) && (!paged ==> forall i :: 0 <= i < |pages| ==> |pages[i]| == 1)
    modifies store
    ensures Covered(store.state)
    ensures complete <==> survives >= |pages|
    ensures complete ==> store.state == Scan(old(store.state), pages)
    ensures complete && (forall i, r :: 0 <= i < |pages| && r in pages[i] ==> InPlace(old(store.state), r)) ==>
      count == 0 && store.state == old(store.state)
  {
    hide *;
    ghost var s0 := store.state;
    count := 0;
    ScanNone(s0, pages);
    for i := 0 to |pages|
      invariant i <= survives && SourceOk(pages[..i]) && store.state == Scan(s0, pages[..i]) && Covered(store.state)
      invariant (forall j, r :: 0 <= j < |pages| && r in pages[j] ==> InPlace(s0, r)) ==>
        count == 0 && store.state == s0
    {
      if i == survives {
        return false, count;
      }
      ghost var before := store.state;
      ScanStep(s0, pages, i + 1);
      PageCovered(before, pages[i]);
      if paged {
        var changed := store.PutPage(pages[i]);
        count := count + changed;
      } else {
        assert pages[i] == [pages[i][0]];
        var changed := store.PutRow(pages[i][0]);
        count := count + if changed then 1 else 0;
      }
      InPlaceKeeps(before, pages[i]);
    }
    assert pages[..|pages|] == pages;
    complete := true;
  }

  lemma ScanNone(s: State, pages: seq<Page>)
    requires SourceOk(pages)
    ensures SourceOk(pages[..0]) && Scan(s, pages[..0]) == s
  {
    PrefixOk(pages, 0);
  }

  /** A page whose rows are all in place is not written. */
  lemma InPlaceKeeps(s: State, page: Page)
    requires PageOk(page)
    ensures (forall r :: r in page ==> InPlace(s, r)) ==> PagePut(s, page) == s
  {
    if forall r :: r in page ==> InPlace(s, r) {
      assert Departures(s, page) == {} && Arrivals(s, page) == map[];
      hide Departures, Arrivals;
      forall a
        ensures var x := PagePut(s, page).records; (a in x <==> a in s.records) && (a in x ==> x[a] == s.records[a])
      {
        RecordPut(s, page, a);
      }
      SameState(PagePut(s, page), s);
    }
  }

  lemma DepartedIs(s: State, pages: seq<Page>, gone: set<string>)
    requires gone == set a | a in s.records && !FromSource(pages, a)
    ensures gone == Departed(s, pages)
  {
  }

  method SweepTable(store: ImportStore, pages: seq<Page>, preserve: bool, survives: nat)
    returns (complete: bool, count: nat)
    requires SourceOk(pages) && Covered(store.state)
    requires forall i, r :: 0 <= i < |pages| && r in pages[i] ==> Owns(store.state, r.source, r.target)
    modifies store
    ensures Covered(store.state)
    ensures complete <==> survives >= |Departed(old(store.state), pages)|
    ensures complete ==> store.state == Sweep(old(store.state), pages, preserve)
    ensures (forall a :: a in old(store.state).records ==> FromSource(pages, a)) ==> count == 0
  {
    hide *;
    ghost var s0 := store.state;
    var left := set a | a in store.state.records && !FromSource(pages, a);
    ghost var gone := left;
    DepartedIs(s0, pages, gone);
    NothingSwept(s0, pages, preserve);
    assert gone - left == {};
    count := 0;
    while left != {}
      invariant left <= gone && gone == set a | a in s0.records && !FromSource(pages, a)
      invariant SweptBy(s0, store.state, pages, preserve, gone - left)
      invariant store.state.records == s0.records - (gone - left)
      invariant count == |gone| - |left| <= survives
    {
      PartSweepCovered(s0, store.state, pages, preserve, gone - left);
      if count == survives {
        return false, count;
      }
      var a :| a in left;
      ghost var before := store.state;
      var target := store.state.records[a].target;
      store.RemoveRecord(a, preserve && ToTarget(pages, target));
      OneMoreSwept(s0, before, store.state, pages, preserve, gone - left, a);
      assert gone - left + {a} == gone - (left - {a});
      left := left - {a};
      count := count + 1;
    }
    assert gone - left == gone;
    PartSweepCovered(s0, store.state, pages, preserve, gone);
    AllSwept(s0, store.state, pages, preserve, gone);
    complete := true;
  }
}
